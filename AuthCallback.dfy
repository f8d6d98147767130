/** The sign-in callback of app/auth/callback/route.ts: it exchanges the
    one-time code for a session, makes sure the signed-in user has a row in
    `profiles`, and redirects. The backend's answers are parameters. */
module AuthCallback {
  import opened Common
  import opened Text

  /** The user `auth.getUser()` returns. */
  datatype AuthUser = AuthUser(id: string, email: string, metadataUsername: Option<string>)

  datatype AuthCall =
    | ExchangeCode(code: string)
    | GetUser
    | SelectProfile(userId: string)
    | InsertProfile(userId: string, username: string, email: string)

  /** The calls made and the URL redirected to. */
  datatype Outcome = Outcome(calls: seq<AuthCall>, location: string)

  /** `user.user_metadata?.username || `user_${user.id.substring(0, 6)}``:
      the chosen name if it is non-empty, else `user_` and the first six
      characters of the user's id. Either way the name is not empty. */
  function ProfileName(u: AuthUser): (name: string)
    ensures Truthy(u.metadataUsername) ==> name == u.metadataUsername.value
    ensures !Truthy(u.metadataUsername) ==>
      StartsWith(name, "user_") && name[5..] == Take(u.id, 6) && |name| <= 11
    ensures name != ""
  {
    if Truthy(u.metadataUsername) then u.metadataUsername.value else "user_" + Take(u.id, 6)
  }

  /** Where the handler sends the browser when all went well: the origin
      followed by `redirect_to` if that is non-empty, else the origin's
      root. */
  function FinalLocation(origin: string, redirectTo: Option<string>): (url: string)
    ensures StartsWith(url, origin)
    ensures Truthy(redirectTo) ==> url[|origin|..] == redirectTo.value
    ensures !Truthy(redirectTo) ==> url[|origin|..] == "/"
  {
    origin + (if Truthy(redirectTo) then redirectTo.value else "/")
  }

  /** `GET` with the request's `code`, `origin` and `redirect_to`; the
      `getUser` answer (`Done(None)` for no user), whether a profile row was
      found, and the insert's error. */
  function Callback(origin: string, code: Option<string>, redirectTo: Option<string>,
                    user: Db<Option<AuthUser>>, profileFound: bool, insertError: Option<string>): (o: Outcome)
    ensures !Truthy(code) ==> o == Outcome([], FinalLocation(origin, redirectTo))
    ensures Truthy(code) && !(user.Done? && user.data.Some?) ==>
      o == Outcome([ExchangeCode(code.value), GetUser], origin + "/sign-in?error=auth_failed")
    ensures Truthy(code) && user.Done? && user.data.Some? && profileFound ==>
      o == Outcome([ExchangeCode(code.value), GetUser, SelectProfile(user.data.value.id)], FinalLocation(origin, redirectTo))
    ensures Truthy(code) && user.Done? && user.data.Some? && !profileFound ==>
      var u := user.data.value;
      && o.calls == [ExchangeCode(code.value), GetUser, SelectProfile(u.id), InsertProfile(u.id, ProfileName(u), u.email)]
      && o.location == if insertError.Some? then origin + "/sign-in?error=profile_insert_failed"
                       else FinalLocation(origin, redirectTo)
  {
    if !Truthy(code) then Outcome([], FinalLocation(origin, redirectTo))
    else
      var signIn := [ExchangeCode(code.value), GetUser];
      match user
      case Failed(_) => Outcome(signIn, origin + "/sign-in?error=auth_failed")
      case Done(None) => Outcome(signIn, origin + "/sign-in?error=auth_failed")
      case Done(Some(u)) =>
        var lookup := signIn + [SelectProfile(u.id)];
        if profileFound then Outcome(lookup, FinalLocation(origin, redirectTo))
        else
          var calls := lookup + [InsertProfile(u.id, ProfileName(u), u.email)];
          if insertError.Some? then Outcome(calls, origin + "/sign-in?error=profile_insert_failed")
          else Outcome(calls, FinalLocation(origin, redirectTo))
  }

  /** A profile is inserted exactly when a user signed in with a code and
      had none, and then under a non-empty name. */
  lemma InsertsProfileIff(origin: string, code: Option<string>, redirectTo: Option<string>,
                          user: Db<Option<AuthUser>>, profileFound: bool, insertError: Option<string>)
    ensures (exists c :: c in Callback(origin, code, redirectTo, user, profileFound, insertError).calls && c.InsertProfile?)
      <==> Truthy(code) && user.Done? && user.data.Some? && !profileFound
    ensures forall c :: c in Callback(origin, code, redirectTo, user, profileFound, insertError).calls && c.InsertProfile? ==>
      c.username != ""
  {
    var o := Callback(origin, code, redirectTo, user, profileFound, insertError);
    if Truthy(code) && user.Done? && user.data.Some? && !profileFound {
      assert o.calls[3].InsertProfile?;
    }
  }

  /** Every redirect stays on the request's origin. */
  lemma StaysOnOrigin(origin: string, code: Option<string>, redirectTo: Option<string>,
                      user: Db<Option<AuthUser>>, profileFound: bool, insertError: Option<string>)
    ensures StartsWith(Callback(origin, code, redirectTo, user, profileFound, insertError).location, origin)
  {
    var o := Callback(origin, code, redirectTo, user, profileFound, insertError);
    assert StartsWith(origin + "/sign-in?error=auth_failed", origin) by {
      assert (origin + "/sign-in?error=auth_failed")[..|origin|] == origin;
    }
    assert StartsWith(origin + "/sign-in?error=profile_insert_failed", origin) by {
      assert (origin + "/sign-in?error=profile_insert_failed")[..|origin|] == origin;
    }
  }
}
