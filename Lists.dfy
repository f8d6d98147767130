/** The array operations the hooks apply to their lists (`filter`, `map`, and
    the two idioms built from them: "remove by id" and "update by id"), with
    the facts about them that the hooks' properties rest on. */
module Lists {

  /** `s.filter(keep)`: the elements of `s` that `keep` accepts, in order. */
  function Filter<T>(s: seq<T>, keep: T -> bool): (r: seq<T>)
    ensures |r| <= |s|
    ensures forall i :: 0 <= i < |r| ==> keep(r[i]) && r[i] in s
    ensures forall i :: 0 <= i < |s| && keep(s[i]) ==> s[i] in r
    decreases |s|
  {
    if s == [] then [] else (if keep(s[0]) then [s[0]] else []) + Filter(s[1..], keep)
  }

  /** The complement of a predicate. */
  function Not<T>(keep: T -> bool): T -> bool {
    x => !keep(x)
  }

  /** `r` is an order-preserving subsequence of `s`: `r` is obtained by
      deleting elements of `s` and keeping the others in their order. */
  predicate SubsequenceOf<T(==)>(r: seq<T>, s: seq<T>)
    decreases |s|
  {
    if r == [] then true
    else if s == [] then false
    else if r[0] == s[0] then SubsequenceOf(r[1..], s[1..])
    else SubsequenceOf(r, s[1..])
  }

  /** Filtering distributes over concatenation, so the kept elements of a
      prefix come before those of the rest: filtering keeps the order. */
  lemma {:induction false} FilterAppend<T>(a: seq<T>, b: seq<T>, keep: T -> bool)
    ensures Filter(a + b, keep) == Filter(a, keep) + Filter(b, keep)
    decreases |a|
  {
    if a == [] {
      assert a + b == b;
    } else {
      assert (a + b)[1..] == a[1..] + b;
      FilterAppend(a[1..], b, keep);
    }
  }

  /** The result of a filter is a subsequence of its input. */
  lemma {:induction false} FilterSubsequence<T>(s: seq<T>, keep: T -> bool)
    ensures SubsequenceOf(Filter(s, keep), s)
    decreases |s|
  {
    if s != [] {
      FilterSubsequence(s[1..], keep);
      if keep(s[0]) {
        assert Filter(s, keep) == [s[0]] + Filter(s[1..], keep);
        assert Filter(s, keep)[1..] == Filter(s[1..], keep);
      } else {
        assert Filter(s, keep) == Filter(s[1..], keep);
        SubsequenceSkip(Filter(s, keep), s);
      }
    }
  }

  /** A subsequence of the tail is a subsequence of the whole. */
  lemma {:induction false} SubsequenceSkip<T>(r: seq<T>, s: seq<T>)
    requires s != [] && SubsequenceOf(r, s[1..])
    ensures SubsequenceOf(r, s)
    decreases |s|, 0
  {
    if r != [] && r[0] == s[0] {
      SubsequenceTail(r, s[1..]);
    }
  }

  /** Dropping the head of a subsequence keeps it a subsequence. */
  lemma {:induction false} SubsequenceTail<T>(r: seq<T>, t: seq<T>)
    requires r != [] && SubsequenceOf(r, t)
    ensures SubsequenceOf(r[1..], t)
    decreases |t|, 1
  {
    if r[0] == t[0] {
      if r[1..] != [] {
        SubsequenceSkip(r[1..], t);
      }
    } else {
      SubsequenceTail(r, t[1..]);
      if r[1..] != [] {
        SubsequenceSkip(r[1..], t);
      }
    }
  }

  /** A filter that accepts every element is the identity. */
  lemma {:induction false} FilterKeepsAll<T>(s: seq<T>, keep: T -> bool)
    requires forall i :: 0 <= i < |s| ==> keep(s[i])
    ensures Filter(s, keep) == s
    decreases |s|
  {
    if s != [] {
      FilterKeepsAll(s[1..], keep);
    }
  }

  /** A filter keeps each value exactly as often as it occurs when the value
      is accepted, and never otherwise. */
  lemma {:induction false} FilterCount<T>(s: seq<T>, keep: T -> bool, x: T)
    ensures multiset(Filter(s, keep))[x] == if keep(x) then multiset(s)[x] else 0
    decreases |s|
  {
    if s != [] {
      FilterCount(s[1..], keep, x);
      assert s == [s[0]] + s[1..];
      assert multiset(s) == multiset([s[0]]) + multiset(s[1..]);
    }
  }

  /** The kept and the dropped elements together are the input, up to order. */
  lemma {:induction false} FilterPartition<T>(s: seq<T>, keep: T -> bool)
    ensures multiset(Filter(s, keep)) + multiset(Filter(s, Not(keep))) == multiset(s)
    ensures |Filter(s, keep)| + |Filter(s, Not(keep))| == |s|
    decreases |s|
  {
    if s != [] {
      FilterPartition(s[1..], keep);
      assert s == [s[0]] + s[1..];
      assert multiset(s) == multiset([s[0]]) + multiset(s[1..]);
    }
  }

  /** Two predicates that agree on the elements of `s` filter it alike. */
  lemma {:induction false} FilterAgrees<T>(s: seq<T>, f: T -> bool, g: T -> bool)
    requires forall i :: 0 <= i < |s| ==> f(s[i]) == g(s[i])
    ensures Filter(s, f) == Filter(s, g)
    decreases |s|
  {
    if s != [] {
      FilterAgrees(s[1..], f, g);
    }
  }

  /** Filtering twice with the same predicate is filtering once. */
  lemma {:induction false} FilterIdempotent<T>(s: seq<T>, keep: T -> bool)
    ensures Filter(Filter(s, keep), keep) == Filter(s, keep)
  {
    FilterKeepsAll(Filter(s, keep), keep);
  }

  /** `s.map(f)`. */
  function Map<T, U>(s: seq<T>, f: T -> U): (r: seq<U>)
    ensures |r| == |s|
    ensures forall i :: 0 <= i < |s| ==> r[i] == f(s[i])
    decreases |s|
  {
    if s == [] then [] else [f(s[0])] + Map(s[1..], f)
  }

  /** Mapping distributes over concatenation. */
  lemma MapAppend<T, U>(a: seq<T>, b: seq<T>, f: T -> U)
    ensures Map(a + b, f) == Map(a, f) + Map(b, f)
  {
  }

  /** Filtering then mapping a sequence with a first element `x`. */
  lemma MapFilterCons<T, U>(x: T, s: seq<T>, keep: T -> bool, f: T -> U)
    ensures Map(Filter([x] + s, keep), f) == (if keep(x) then [f(x)] else []) + Map(Filter(s, keep), f)
  {
    assert ([x] + s)[1..] == s;
    MapAppend(if keep(x) then [x] else [], Filter(s, keep), f);
  }

  /** The predicate "the key of `x` is not `k`". */
  function KeyIsNot<T, K(==)>(key: T -> K, k: K): T -> bool {
    x => key(x) != k
  }

  /** `s.filter(x => x.id !== k)` for the key `key`. */
  function RemoveKey<T, K(==)>(s: seq<T>, key: T -> K, k: K): seq<T> {
    Filter(s, KeyIsNot(key, k))
  }

  /** Removing by key drops exactly the entries with that key: none is left,
      every other entry keeps its multiplicity and the result is a
      subsequence of the input; a key absent from the list changes nothing. */
  lemma RemoveKeySpec<T, K>(s: seq<T>, key: T -> K, k: K)
    ensures forall x :: x in RemoveKey(s, key, k) ==> key(x) != k
    ensures forall x :: key(x) != k ==> multiset(RemoveKey(s, key, k))[x] == multiset(s)[x]
    ensures SubsequenceOf(RemoveKey(s, key, k), s)
    ensures (forall i :: 0 <= i < |s| ==> key(s[i]) != k) ==> RemoveKey(s, key, k) == s
  {
    forall x | key(x) != k
      ensures multiset(RemoveKey(s, key, k))[x] == multiset(s)[x]
    {
      FilterCount(s, KeyIsNot(key, k), x);
    }
    FilterSubsequence(s, KeyIsNot(key, k));
    if forall i :: 0 <= i < |s| ==> key(s[i]) != k {
      FilterKeepsAll(s, KeyIsNot(key, k));
    }
  }

  /** "If the key of `x` is `k`, then `f(x)`, else `x`". */
  function AtKey<T, K(==)>(key: T -> K, k: K, f: T -> T): T -> T {
    x => if key(x) == k then f(x) else x
  }

  /** `s.map(x => x.id === k ? f(x) : x)` for the key `key`. */
  function UpdateKey<T, K(==)>(s: seq<T>, key: T -> K, k: K, f: T -> T): (r: seq<T>)
    ensures |r| == |s|
    ensures forall i :: 0 <= i < |s| ==> r[i] == if key(s[i]) == k then f(s[i]) else s[i]
  {
    Map(s, AtKey(key, k, f))
  }
}
