/** The server actions of app/actions.ts behind the sign-up, sign-in,
    forgot-password and reset-password forms. Each is a chain of checks
    over the form's fields and the backend's answers that ends in a
    redirect: either to a page with a status and a message encoded in its
    query (`encodedRedirect`) or to a plain path. Both kinds of redirect end
    the action, so nothing after one runs. */
module Actions {
  import opened Common

  datatype Kind = Error | Success

  /** Where an action sends the browser. */
  datatype Redirect = Encoded(kind: Kind, path: string, message: string) | Plain(to: string)

  /** The auth and `profiles` calls the actions make. */
  datatype AuthCall =
    | FindUsername(username: string)
    | FindEmail(email: string)
    | SignUp(email: string, password: string)
    | InsertProfile(userId: string, username: string, profileEmail: string)
    | SignInWithPassword(loginEmail: Option<string>, loginPassword: Option<string>)
    | ResetPasswordForEmail(resetEmail: string, redirectTo: string)
    | UpdatePassword(newPassword: Option<string>)

  datatype Outcome = Outcome(calls: seq<AuthCall>, redirect: Redirect)

  const MaxUsernameLength := 12

  /** The answers `signUpAction` gets: whether the username and the email
      are already in `profiles`, the id of the user `auth.signUp` created
      (`None` when `data.user` is null) and the profile insert's error. */
  datatype SignUpAnswers = SignUpAnswers(usernameTaken: bool, emailTaken: bool, newUser: Option<string>, profileError: Option<string>)

  /** `signUpAction`. The checks run in this order, each ending the action:
      a missing username (before any query); a taken username; a username
      longer than 12; a missing email or password; a taken email; no user
      from `auth.signUp`; a profile insert error, whose message is shown.
      A sign-up that passes them all goes to `/`. */
  function SignUpAction(username: Option<string>, email: Option<string>, password: Option<string>, a: SignUpAnswers): (o: Outcome)
    ensures !Truthy(username) ==> o == Outcome([], Encoded(Error, "/sign-up", "Username is required"))
    ensures Truthy(username) ==> |o.calls| >= 1 && o.calls[0] == FindUsername(username.value)
    ensures Truthy(username) && a.usernameTaken ==>
      o == Outcome([FindUsername(username.value)], Encoded(Error, "/sign-up", "That username is already taken, try another one."))
    ensures Truthy(username) && !a.usernameTaken && |username.value| > MaxUsernameLength ==>
      o == Outcome([FindUsername(username.value)], Encoded(Error, "/sign-up", "Username must be 12 characters or less"))
    ensures Truthy(username) && !a.usernameTaken && |username.value| <= MaxUsernameLength && !(Truthy(email) && Truthy(password)) ==>
      o == Outcome([FindUsername(username.value)], Encoded(Error, "/sign-up", "Email and password are required"))
    ensures Truthy(username) && !a.usernameTaken && |username.value| <= MaxUsernameLength && Truthy(email) && Truthy(password) ==>
      && |o.calls| >= 2 && o.calls[..2] == [FindUsername(username.value), FindEmail(email.value)]
      && (a.emailTaken ==> o == Outcome(o.calls[..2], Encoded(Error, "/sign-up", "Email already exists")))
      && (!a.emailTaken && a.newUser.None? ==>
            o == Outcome(o.calls[..2] + [SignUp(email.value, password.value)], Encoded(Error, "/sign-up", "Something went wrong")))
      && (!a.emailTaken && a.newUser.Some? ==>
            && o.calls == o.calls[..2] + [SignUp(email.value, password.value), InsertProfile(a.newUser.value, username.value, email.value)]
            && o.redirect == if a.profileError.Some? then Encoded(Error, "/sign-up", a.profileError.value) else Plain("/"))
  {
    if !Truthy(username) then Outcome([], Encoded(Error, "/sign-up", "Username is required"))
    else
      var name := username.value;
      var c1 := [FindUsername(name)];
      if a.usernameTaken then Outcome(c1, Encoded(Error, "/sign-up", "That username is already taken, try another one."))
      else if |name| > MaxUsernameLength then Outcome(c1, Encoded(Error, "/sign-up", "Username must be 12 characters or less"))
      else if !Truthy(email) || !Truthy(password) then Outcome(c1, Encoded(Error, "/sign-up", "Email and password are required"))
      else
        var c2 := c1 + [FindEmail(email.value)];
        if a.emailTaken then Outcome(c2, Encoded(Error, "/sign-up", "Email already exists"))
        else
          var c3 := c2 + [SignUp(email.value, password.value)];
          match a.newUser
          case None => Outcome(c3, Encoded(Error, "/sign-up", "Something went wrong"))
          case Some(id) =>
            var c4 := c3 + [InsertProfile(id, name, email.value)];
            if a.profileError.Some? then Outcome(c4, Encoded(Error, "/sign-up", a.profileError.value))
            else Outcome(c4, Plain("/"))
  }

  /** The taken check comes first: a taken name of any length reports
      "taken"; of the free names, 12 characters pass the length check and
      13 do not. (A profile insert error could carry any message, so the
      length refusal is told apart by its single call.) */
  lemma UsernameCheckOrder(email: Option<string>, password: Option<string>, a: SignUpAnswers, name: string)
    requires |name| > 0
    ensures a.usernameTaken ==>
      SignUpAction(Some(name), email, password, a).redirect == Encoded(Error, "/sign-up", "That username is already taken, try another one.")
    ensures !a.usernameTaken ==>
      (SignUpAction(Some(name), email, password, a)
         == Outcome([FindUsername(name)], Encoded(Error, "/sign-up", "Username must be 12 characters or less"))
       <==> |name| > MaxUsernameLength)
  {
  }

  /** An account is created only for a free, short username, a present
      email and password, and a free email; a profile is inserted only for a
      created account. */
  lemma SignUpCallsOnlyAfterChecks(username: Option<string>, email: Option<string>, password: Option<string>, a: SignUpAnswers)
    ensures (exists c :: c in SignUpAction(username, email, password, a).calls && c.SignUp?) <==>
      Truthy(username) && !a.usernameTaken && |username.value| <= MaxUsernameLength
      && Truthy(email) && Truthy(password) && !a.emailTaken
    ensures (exists c :: c in SignUpAction(username, email, password, a).calls && c.InsertProfile?) ==> a.newUser.Some?
  {
    var o := SignUpAction(username, email, password, a);
    if Truthy(username) && !a.usernameTaken && |username.value| <= MaxUsernameLength
       && Truthy(email) && Truthy(password) && !a.emailTaken {
      assert o.calls[2].SignUp?;
    }
  }

  /** `signInAction`: the auth error's message back on `/sign-in`, or `/`. */
  function SignInAction(email: Option<string>, password: Option<string>, error: Option<string>): (o: Outcome)
    ensures o.calls == [SignInWithPassword(email, password)]
    ensures error.Some? ==> o.redirect == Encoded(Error, "/sign-in", error.value)
    ensures error.None? ==> o.redirect == Plain("/")
  {
    var calls := [SignInWithPassword(email, password)];
    if error.Some? then Outcome(calls, Encoded(Error, "/sign-in", error.value)) else Outcome(calls, Plain("/"))
  }

  /** The link in the reset mail: the callback, told to continue to the
      reset page. A missing `origin` header renders as `null`. */
  function ResetLink(origin: Option<string>): string {
    origin.GetOr("null") + "/auth/callback?redirect_to=/protected/reset-password"
  }

  /** `forgotPasswordAction`: a missing email is refused with no call; a
      failed reset request is reported without its message; otherwise the
      browser goes to `callbackUrl` if one was given, else back to the form
      with the success message. */
  function ForgotPasswordAction(origin: Option<string>, email: Option<string>, callbackUrl: Option<string>, error: Option<string>): (o: Outcome)
    ensures !Truthy(email) ==> o == Outcome([], Encoded(Error, "/forgot-password", "Email is required"))
    ensures Truthy(email) ==> o.calls == [ResetPasswordForEmail(email.value, ResetLink(origin))]
    ensures Truthy(email) && error.Some? ==> o.redirect == Encoded(Error, "/forgot-password", "Could not reset password")
    ensures Truthy(email) && error.None? && Truthy(callbackUrl) ==> o.redirect == Plain(callbackUrl.value)
    ensures Truthy(email) && error.None? && !Truthy(callbackUrl) ==>
      o.redirect == Encoded(Success, "/forgot-password", "Check your email for a link to reset your password.")
  {
    if !Truthy(email) then Outcome([], Encoded(Error, "/forgot-password", "Email is required"))
    else
      var calls := [ResetPasswordForEmail(email.value, ResetLink(origin))];
      if error.Some? then Outcome(calls, Encoded(Error, "/forgot-password", "Could not reset password"))
      else if Truthy(callbackUrl) then Outcome(calls, Plain(callbackUrl.value))
      else Outcome(calls, Encoded(Success, "/forgot-password", "Check your email for a link to reset your password."))
  }

  const ResetPage := "/protected/reset-password"

  /** `resetPasswordAction`: both fields present, then equal, then the
      update's result; since each `encodedRedirect` ends the action, the
      password is updated only once both checks passed. Every redirect goes
      back to `/protected/reset-password`. */
  function ResetPasswordAction(password: Option<string>, confirmPassword: Option<string>, error: Option<string>): (o: Outcome)
    ensures !(Truthy(password) && Truthy(confirmPassword)) ==>
      o == Outcome([], Encoded(Error, ResetPage, "Password and confirm password are required"))
    ensures Truthy(password) && Truthy(confirmPassword) && password != confirmPassword ==>
      o == Outcome([], Encoded(Error, ResetPage, "Passwords do not match"))
    ensures Truthy(password) && password == confirmPassword ==>
      && o.calls == [UpdatePassword(password)]
      && o.redirect == if error.Some? then Encoded(Error, ResetPage, "Password update failed")
                       else Encoded(Success, ResetPage, "Password updated")
  {
    if !Truthy(password) || !Truthy(confirmPassword) then
      Outcome([], Encoded(Error, ResetPage, "Password and confirm password are required"))
    else if password != confirmPassword then Outcome([], Encoded(Error, ResetPage, "Passwords do not match"))
    else
      var calls := [UpdatePassword(password)];
      if error.Some? then Outcome(calls, Encoded(Error, ResetPage, "Password update failed"))
      else Outcome(calls, Encoded(Success, ResetPage, "Password updated"))
  }

  /** The password is changed exactly when both fields hold the same
      non-empty text, and every outcome is on the reset page. */
  lemma ResetUpdatesIff(password: Option<string>, confirmPassword: Option<string>, error: Option<string>)
    ensures ResetPasswordAction(password, confirmPassword, error).calls != [] <==>
      Truthy(password) && password == confirmPassword
    ensures ResetPasswordAction(password, confirmPassword, error).redirect.Encoded?
    ensures ResetPasswordAction(password, confirmPassword, error).redirect.path == ResetPage
  {
  }
}
