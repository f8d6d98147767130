/** The `usePokemonReviews` hook of utils/hooks/usePokemonReviews.ts: a
    Pokémon looked up by name on the public PokéAPI, and the reviews users
    wrote about it, kept in a Supabase table. The reviews fetch that
    `fetchPokemon`, `addReview` and `deleteReview` start without awaiting it
    is run to completion inside them, with its answer as a parameter. */
module PokemonReviews {
  import opened Common
  import opened Text
  import Lists

  /** The part of the PokéAPI answer the hook keeps. Cries, types and
      abilities are passed through unread and stand here as opaque text. */
  datatype PokemonData = PokemonData(name: string, frontSprite: Option<string>, cries: string, types: seq<string>, abilities: seq<string>)

  /** The `pokemon` state: the selected fields of the answer. */
  datatype Pokemon = Pokemon(name: string, image: Option<string>, cries: string, types: seq<string>, abilities: seq<string>)

  /** A row of the reviews select, with the author's username joined in. */
  datatype Review = Review(id: string, userId: string, review: string, rating: int, createdAt: string, username: Option<string>)

  /** The sort choice, `"name" | "date"`. */
  datatype SortBy = ByName | ByDate

  /** The requests the hook makes: the PokéAPI lookup and its Supabase calls.
      A reviews select made while no Pokémon is shown filters on `undefined`,
      written `None`. */
  datatype ReviewCall =
    | GetPokemon(url: string)
    | SelectReviews(forName: Option<string>, orderBy: string, ascending: bool)
    | InsertReview(userId: string, pokemonName: string, review: string, rating: int)
    | DeleteReviewRow(id: string)

  const PokeApi := "https://pokeapi.co/api/v2/pokemon/"

  /** The lookup URL for a search term: the endpoint followed by the
      lower-cased term, so searches that differ only in case ask for the
      same Pokémon. */
  function PokemonUrl(search: string): (url: string)
    ensures StartsWith(url, PokeApi) && url[|PokeApi|..] == Lower(search)
  {
    PokeApi + Lower(search)
  }

  lemma PokemonUrlIgnoresCase(a: string, b: string)
    requires Lower(a) == Lower(b)
    ensures PokemonUrl(a) == PokemonUrl(b)
  {
  }

  /** Looking a lower-cased term up again asks for the same URL. */
  lemma PokemonUrlLowered(search: string)
    ensures PokemonUrl(Lower(search)) == PokemonUrl(search)
  {
    LowerIdempotent(search);
  }

  /** `sortBy === "name" ? "pokemon_name" : "created_at"`. */
  function ReviewOrder(sortBy: SortBy): (column: string)
    ensures column == "pokemon_name" <==> sortBy == ByName
    ensures column == "pokemon_name" || column == "created_at"
  {
    if sortBy == ByName then "pokemon_name" else "created_at"
  }

  /** The `pokemon` state built from an answer. */
  function ToPokemon(data: PokemonData): (p: Pokemon)
    ensures p.name == data.name && p.image == data.frontSprite
  {
    Pokemon(data.name, data.frontSprite, data.cries, data.types, data.abilities)
  }

  function ReviewId(r: Review): string {
    r.id
  }

  /** `reviews.filter((r) => r.id !== id)`. */
  function WithoutReview(reviews: seq<Review>, id: string): seq<Review> {
    Lists.RemoveKey(reviews, ReviewId, id)
  }

  /** Removing a review drops exactly the entries with its id and keeps the
      others in order. */
  lemma WithoutReviewSpec(reviews: seq<Review>, id: string)
    ensures forall r :: r in WithoutReview(reviews, id) ==> r.id != id
    ensures forall r: Review :: r.id != id ==> multiset(WithoutReview(reviews, id))[r] == multiset(reviews)[r]
    ensures Lists.SubsequenceOf(WithoutReview(reviews, id), reviews)
  {
    Lists.RemoveKeySpec(reviews, ReviewId, id);
  }

  /** The reviews shown after a select: the rows, `[]` for a null answer,
      and `[]` as well on an error, whose data is null. */
  function ReviewsAfter(answer: Db<Option<seq<Review>>>): (r: seq<Review>)
    ensures answer.Failed? ==> r == []
    ensures answer.Done? && answer.data.Some? ==> r == answer.data.value
    ensures answer.Done? && answer.data.None? ==> r == []
  {
    match answer
    case Failed(_) => []
    case Done(data) => data.GetOr([])
  }

  const NoPermission := "You do not have permission to delete this review"

  class ReviewsHook {
    /** `user.supabaseUser.id`. */
    const userId: string
    var search: string
    var pokemon: Option<Pokemon>
    var reviews: seq<Review>
    var newReview: string
    var rating: int
    var sortBy: SortBy
    var notFound: bool
    var loading: bool
    /** The requests made so far, oldest first. */
    ghost var calls: seq<ReviewCall>
    /** The alerts shown so far, oldest first. */
    ghost var notices: seq<Notice>

    constructor (userId: string)
      ensures this.userId == userId
      ensures search == "" && pokemon.None? && reviews == [] && newReview == "" && rating == 5
      ensures sortBy == ByDate && !notFound && !loading
      ensures calls == [] && notices == []
    {
      this.userId := userId;
      search := "";
      pokemon := None;
      reviews := [];
      newReview := "";
      rating := 5;
      sortBy := ByDate;
      notFound := false;
      loading := false;
      calls := [];
      notices := [];
    }

    method SetSearch(s: string)
      modifies this
      ensures search == s
      ensures pokemon == old(pokemon) && reviews == old(reviews) && newReview == old(newReview) && rating == old(rating)
      ensures sortBy == old(sortBy) && notFound == old(notFound) && loading == old(loading)
      ensures calls == old(calls) && notices == old(notices)
    {
      search := s;
    }

    method SetNewReview(s: string)
      modifies this
      ensures newReview == s
      ensures search == old(search) && pokemon == old(pokemon) && reviews == old(reviews) && rating == old(rating)
      ensures sortBy == old(sortBy) && notFound == old(notFound) && loading == old(loading)
      ensures calls == old(calls) && notices == old(notices)
    {
      newReview := s;
    }

    method SetRating(r: int)
      modifies this
      ensures rating == r
      ensures search == old(search) && pokemon == old(pokemon) && reviews == old(reviews) && newReview == old(newReview)
      ensures sortBy == old(sortBy) && notFound == old(notFound) && loading == old(loading)
      ensures calls == old(calls) && notices == old(notices)
    {
      rating := r;
    }

    method SetSortBy(s: SortBy)
      modifies this
      ensures sortBy == s
      ensures search == old(search) && pokemon == old(pokemon) && reviews == old(reviews) && newReview == old(newReview)
      ensures rating == old(rating) && notFound == old(notFound) && loading == old(loading)
      ensures calls == old(calls) && notices == old(notices)
    {
      sortBy := s;
    }

    /** `fetchReviews(pokemonName)`: one ascending select in the order
        `sortBy` picks; the list becomes the rows, or `[]` when there are
        none or the select failed; `loading` ends false. */
    method FetchReviews(pokemonName: Option<string>, answer: Db<Option<seq<Review>>>)
      modifies this
      ensures calls == old(calls) + [SelectReviews(pokemonName, ReviewOrder(sortBy), true)]
      ensures reviews == ReviewsAfter(answer) && !loading
      ensures search == old(search) && pokemon == old(pokemon) && newReview == old(newReview) && rating == old(rating)
      ensures sortBy == old(sortBy) && notFound == old(notFound) && notices == old(notices)
    {
      loading := true;
      calls := calls + [SelectReviews(pokemonName, ReviewOrder(sortBy), true)];
      reviews := ReviewsAfter(answer);
      loading := false;
    }

    /** `fetchPokemon`: an empty search makes no request. Otherwise the
        lower-cased term is looked up; an answer that is not ok, or any
        thrown error, clears the Pokémon and sets `notFound`; an ok answer
        shows the Pokémon, fetches its reviews and clears `notFound`. */
    method FetchPokemon(reply: Fetch<PokemonData>, reviewsAnswer: Db<Option<seq<Review>>>)
      modifies this
      ensures search == "" ==>
        && calls == old(calls) && pokemon == old(pokemon) && notFound == old(notFound)
        && reviews == old(reviews) && loading == old(loading)
      ensures search != "" && !reply.Ok? ==>
        && calls == old(calls) + [GetPokemon(PokemonUrl(search))]
        && pokemon.None? && notFound && reviews == old(reviews) && loading == old(loading)
      ensures search != "" && reply.Ok? ==>
        && calls == old(calls) + [GetPokemon(PokemonUrl(search)), SelectReviews(Some(reply.data.name), ReviewOrder(sortBy), true)]
        && pokemon == Some(ToPokemon(reply.data)) && !notFound
        && reviews == ReviewsAfter(reviewsAnswer) && !loading
      ensures search == old(search) && newReview == old(newReview) && rating == old(rating) && sortBy == old(sortBy)
      ensures notices == old(notices)
    {
      if search == "" {
        return;
      }
      calls := calls + [GetPokemon(PokemonUrl(search))];
      match reply {
        case Ok(data) =>
          pokemon := Some(ToPokemon(data));
          FetchReviews(Some(data.name), reviewsAnswer);
          notFound := false;
        case NotOk =>
          pokemon := None;
          notFound := true;
        case Exception(_) =>
          pokemon := None;
          notFound := true;
      }
    }

    /** `addReview`: nothing happens without a Pokémon or with an empty
        review. Otherwise the review is inserted under the user's id with
        the current rating, the draft is cleared and the reviews are fetched
        again, whether or not the insert failed. */
    method AddReview(insertError: Option<string>, reviewsAnswer: Db<Option<seq<Review>>>)
      modifies this
      ensures pokemon.None? || old(newReview) == "" ==>
        calls == old(calls) && reviews == old(reviews) && newReview == old(newReview) && loading == old(loading)
      ensures pokemon.Some? && old(newReview) != "" ==>
        && calls == old(calls) + [InsertReview(userId, pokemon.value.name, old(newReview), rating),
                                  SelectReviews(Some(pokemon.value.name), ReviewOrder(sortBy), true)]
        && newReview == "" && reviews == ReviewsAfter(reviewsAnswer) && !loading
      ensures search == old(search) && pokemon == old(pokemon) && rating == old(rating) && sortBy == old(sortBy)
      ensures notFound == old(notFound) && notices == old(notices)
    {
      if pokemon.None? || newReview == "" {
        return;
      }
      calls := calls + [InsertReview(userId, pokemon.value.name, newReview, rating)];
      newReview := "";
      FetchReviews(Some(pokemon.value.name), reviewsAnswer);
    }

    /** `deleteReview(id, ownerId)`: someone other than the review's author
        gets an alert and nothing else happens. For the author the review
        leaves the list before the delete is sent; when the delete fails
        the list is fetched again for the Pokémon shown, if any. */
    method DeleteReview(id: string, ownerId: string, deleteError: Option<string>, reviewsAnswer: Db<Option<seq<Review>>>)
      modifies this
      ensures userId != ownerId ==>
        && notices == old(notices) + [Alert(NoPermission)]
        && calls == old(calls) && reviews == old(reviews) && loading == old(loading)
      ensures userId == ownerId ==> notices == old(notices)
      ensures userId == ownerId && deleteError.None? ==>
        && calls == old(calls) + [DeleteReviewRow(id)]
        && reviews == WithoutReview(old(reviews), id) && loading == old(loading)
      ensures userId == ownerId && deleteError.Some? ==>
        && calls == old(calls) + [DeleteReviewRow(id), SelectReviews(NameOf(pokemon), ReviewOrder(sortBy), true)]
        && reviews == ReviewsAfter(reviewsAnswer) && !loading
      ensures search == old(search) && pokemon == old(pokemon) && newReview == old(newReview) && rating == old(rating)
      ensures sortBy == old(sortBy) && notFound == old(notFound)
    {
      if userId != ownerId {
        notices := notices + [Alert(NoPermission)];
        return;
      }
      reviews := WithoutReview(reviews, id);
      calls := calls + [DeleteReviewRow(id)];
      if deleteError.Some? {
        FetchReviews(NameOf(pokemon), reviewsAnswer);
      }
    }
  }

  /** `pokemon?.name`. */
  function NameOf(p: Option<Pokemon>): (r: Option<string>)
    ensures r.Some? <==> p.Some?
    ensures p.Some? ==> r.value == p.value.name
  {
    match p
    case None => None
    case Some(q) => Some(q.name)
  }

  /** An author deleting their own review with a successful backend call
      sees it gone, with every other review kept in order. */
  method OwnDeleteScenario(hook: ReviewsHook, id: string, reviewsAnswer: Db<Option<seq<Review>>>)
    modifies hook
    ensures forall r :: r in hook.reviews ==> r.id != id
    ensures Lists.SubsequenceOf(hook.reviews, old(hook.reviews))
  {
    hook.DeleteReview(id, hook.userId, None, reviewsAnswer);
    WithoutReviewSpec(old(hook.reviews), id);
  }
}
