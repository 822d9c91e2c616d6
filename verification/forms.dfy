/** The submit handlers of the four form screens. Two talk to the provider
    directly (`app/signup.tsx`, `app/login.tsx`); two go through the auth
    context (`app/signIn.js`, `app/signUp.js`). Each handler is a function
    from the form's fields and the outcomes of the calls it makes to what it
    shows, writes and navigates to, and the values it gives its loading
    flag, in order. */
module Forms {
  import opened Wrappers
  import opened JsString
  import opened Documents
  import AuthSession

  /** What a screen shows: an inline error line (`setError`), or an alert
      with its title and its message (`undefined` when the reply carried
      none). */
  datatype Notice = Inline(text: string) | Alert(title: string, message: Option<string>)

  datatype Nav = ReplaceWith(path: string) | PushTo(path: string)

  /** A value thrown by a provider or database call: an `Error`, with
      Firebase's `code` when it has one, or anything else. */
  datatype Thrown = ErrorObject(code: Option<string>, message: string) | OtherValue

  /** An account as the provider returns it. */
  datatype Credential = Credential(uid: string, email: Option<string>, displayName: Option<string>)

  /** What one press of a submit button does: the message it shows, whether
      it reached the provider, the document it writes, where it navigates,
      and the values it gives the loading flag, in order. */
  datatype Submission = Submission(
    shown: Option<Notice>,
    providerCalled: bool,
    write: Option<Write>,
    nav: Option<Nav>,
    loading: seq<bool>)

  /** The loading flag raised before the call and lowered after it. */
  const Busy: seq<bool> := [true, false]

  function StrOrNull(s: Option<string>): Atom {
    match s
    case Some(v) => Str(v)
    case None => Null
  }

  // ---------------------------------------------------------------------
  // app/signup.tsx

  const FillAllFields: string := "Please fill in all fields"
  const ShortPassword: string := "Password must be at least 6 characters"
  const EmailInUse: string := "Email already in use"
  const SignupFailed: string := "An error occurred during signup"

  /** The minimum password length checked before the provider is called. */
  const MinPasswordLength: nat := 6

  /** The error shown for a failed signup: only the in-use code has its own
      message. */
  function SignupError(e: Thrown): (r: string)
    ensures r == EmailInUse <==> e.ErrorObject? && e.code == Some("auth/email-already-in-use")
    ensures r == EmailInUse || r == SignupFailed
  {
    assert EmailInUse[0] != SignupFailed[0];
    if e.ErrorObject? && e.code == Some("auth/email-already-in-use") then EmailInUse else SignupFailed
  }

  /** The user document signup writes: a replacing write whose
      `displayName` is the username as typed and whose `username` is its
      lower-case form. `stamp1` and `stamp2` are the two clock reads. */
  function SignupProfile(c: Credential, username: string, stamp1: string, stamp2: string): (w: Write)
    ensures w.collection == "users" && w.id == c.uid && w.mode == Replace
    ensures w.data.Keys == {"email", "createdAt", "lastLogin", "displayName", "username"}
    ensures w.data["email"] == Leaf(StrOrNull(c.email))
    ensures w.data["createdAt"] == Leaf(Str(stamp1)) && w.data["lastLogin"] == Leaf(Str(stamp2))
    ensures w.data["displayName"] == Leaf(Str(username))
    ensures w.data["username"].Leaf? && w.data["username"].atom.Str?
    ensures |w.data["username"].atom.s| == |username|
    ensures forall i :: 0 <= i < |username| ==> w.data["username"].atom.s[i] == LowerChar(username[i])
  {
    Write("users", c.uid, map[
      "email" := Leaf(StrOrNull(c.email)),
      "createdAt" := Leaf(Str(stamp1)),
      "lastLogin" := Leaf(Str(stamp2)),
      "displayName" := Leaf(Str(username)),
      "username" := Leaf(Str(ToLower(username)))], Replace)
  }

  /** `handleSignup`: empty fields, then a short password, are refused
      before the provider is called; otherwise the account is created, its
      profile written, and the app goes to `/`. */
  function HandleSignup(email: string, password: string, username: string,
                        created: Result<Credential, Thrown>, written: Option<Thrown>,
                        stamp1: string, stamp2: string): (r: Submission)
    ensures email == "" || password == "" || username == "" ==>
      r.shown == Some(Inline(FillAllFields))
    ensures email != "" && password != "" && username != "" && |password| < MinPasswordLength ==>
      r.shown == Some(Inline(ShortPassword))
    ensures r.providerCalled <==> email != "" && password != "" && username != "" && |password| >= MinPasswordLength
    ensures !r.providerCalled ==> r.write.None? && r.nav.None? && r.loading == []
    ensures r.providerCalled ==> r.loading == Busy
    ensures r.write.Some? <==> r.providerCalled && created.Success?
    ensures r.write.Some? ==> r.write.value == SignupProfile(created.value, username, stamp1, stamp2)
    ensures r.nav.Some? <==> r.providerCalled && created.Success? && written.None?
    ensures r.nav.Some? ==> r.nav.value == ReplaceWith("/") && r.shown.None?
    ensures r.providerCalled && created.Failure? ==> r.shown == Some(Inline(SignupError(created.error)))
    ensures r.providerCalled && created.Success? && written.Some? ==>
      r.shown == Some(Inline(SignupError(written.value)))
  {
    if email == "" || password == "" || username == "" then
      Submission(Some(Inline(FillAllFields)), false, None, None, [])
    else if |password| < MinPasswordLength then
      Submission(Some(Inline(ShortPassword)), false, None, None, [])
    else
      match created
      case Failure(e) => Submission(Some(Inline(SignupError(e))), true, None, None, Busy)
      case Success(c) =>
        var w := SignupProfile(c, username, stamp1, stamp2);
        match written
        case Some(e) => Submission(Some(Inline(SignupError(e))), true, Some(w), None, Busy)
        case None => Submission(None, true, Some(w), Some(ReplaceWith("/")), Busy)
  }

  // ---------------------------------------------------------------------
  // app/login.tsx

  const FillAllToContinue: string := "Please fill in all fields to continue"
  const GenericLoginError: string := "An error occurred"

  /** The name stored at login: the provider's display name when it is a
      non-empty string, else the typed email up to its first `@`. */
  function LoginDisplayName(c: Credential, email: string): (r: string)
    ensures c.displayName.Some? && c.displayName.value != "" ==> r == c.displayName.value
    ensures c.displayName.None? || c.displayName.value == "" ==> r <= email && '@' !in r
    ensures c.displayName.None? || c.displayName.value == "" ==> |r| == |email| || email[|r|] == '@'
  {
    if c.displayName.Some? && c.displayName.value != "" then c.displayName.value else Before(email, '@')
  }

  /** The user document login writes: a merging upsert of the email, both
      time stamps and the display name. `stamp1` and `stamp2` are the two
      clock reads. */
  function LoginProfile(c: Credential, email: string, stamp1: string, stamp2: string): (w: Write)
    ensures w.collection == "users" && w.id == c.uid && w.mode == Merge
    ensures w.data.Keys == {"email", "lastLogin", "createdAt", "displayName"}
    ensures w.data["displayName"] == Leaf(Str(LoginDisplayName(c, email)))
    ensures w.data["email"] == Leaf(StrOrNull(c.email))
    ensures w.data["lastLogin"] == Leaf(Str(stamp1))
    ensures w.data["createdAt"] == Leaf(Str(stamp2))
  {
    Write("users", c.uid, map[
      "email" := Leaf(StrOrNull(c.email)),
      "lastLogin" := Leaf(Str(stamp1)),
      "createdAt" := Leaf(Str(stamp2)),
      "displayName" := Leaf(Str(LoginDisplayName(c, email)))], Merge)
  }

  /** The alert message for a failed login: an `Error`'s own message, or a
      generic one for anything else thrown. */
  function LoginFailureText(e: Thrown): (r: string)
    ensures e.ErrorObject? ==> r == e.message
    ensures e.OtherValue? ==> r == GenericLoginError
  {
    match e
    case ErrorObject(_, m) => m
    case OtherValue => GenericLoginError
  }

  /** `handleLogin` of the direct login screen: empty fields are refused
      before the provider is called; a signed-in user's document is upserted
      and the app goes to `/`; any failure raises an alert. */
  function HandleDirectLogin(email: string, password: string,
                             signedIn: Result<Credential, Thrown>, written: Option<Thrown>,
                             stamp1: string, stamp2: string): (r: Submission)
    ensures r.providerCalled <==> email != "" && password != ""
    ensures !r.providerCalled ==>
      r.shown == Some(Alert("Oops!", Some(FillAllToContinue))) && r.write.None? && r.nav.None? && r.loading == []
    ensures r.providerCalled ==> r.loading == Busy
    ensures r.write.Some? <==> r.providerCalled && signedIn.Success?
    ensures r.write.Some? ==> r.write.value == LoginProfile(signedIn.value, email, stamp1, stamp2)
    ensures r.nav.Some? <==> r.providerCalled && signedIn.Success? && written.None?
    ensures r.nav.Some? ==> r.nav.value == ReplaceWith("/") && r.shown.None?
    ensures r.providerCalled && signedIn.Failure? ==>
      r.shown == Some(Alert("Authentication Failed", Some(LoginFailureText(signedIn.error))))
    ensures r.providerCalled && signedIn.Success? && written.Some? ==>
      r.shown == Some(Alert("Authentication Failed", Some(LoginFailureText(written.value))))
  {
    if email == "" || password == "" then
      Submission(Some(Alert("Oops!", Some(FillAllToContinue))), false, None, None, [])
    else
      match signedIn
      case Failure(e) =>
        Submission(Some(Alert("Authentication Failed", Some(LoginFailureText(e)))), true, None, None, Busy)
      case Success(c) =>
        var w := LoginProfile(c, email, stamp1, stamp2);
        match written
        case Some(e) =>
          Submission(Some(Alert("Authentication Failed", Some(LoginFailureText(e)))), true, Some(w), None, Busy)
        case None => Submission(None, true, Some(w), Some(ReplaceWith("/")), Busy)
  }

  /** Signing up and then logging in keeps the signup fields the login does
      not write (the lower-case username), and replaces `createdAt` with the
      login's clock read. */
  lemma LoginAfterSignup(c: Credential, email: string, username: string,
                         s1: string, s2: string, t1: string, t2: string)
    ensures var stored := Apply(None, SignupProfile(c, username, s1, s2).data, Replace);
      var after := Apply(Some(stored), LoginProfile(c, email, t1, t2).data, Merge);
      && after.Keys == stored.Keys
      && after["username"] == stored["username"]
      && after["createdAt"] == Leaf(Str(t2))
  {
  }

  // ---------------------------------------------------------------------
  // app/signIn.js

  const SignInTitle: string := "Sign In"
  const FillAll: string := "Please fill all fields!"
  const SignInCrashed: string := "Something went wrong. Please try again."

  /** `handleLogin` of the context sign-in screen: empty fields are refused
      before `login` is called; a successful reply goes to `/home`, a failed
      one shows its message, a rejection shows a generic message. */
  function HandleSignIn(email: string, password: string, reply: AuthSession.Reply): (r: Submission)
    ensures r.providerCalled <==> email != "" && password != ""
    ensures !r.providerCalled ==> r.shown == Some(Alert(SignInTitle, Some(FillAll))) && r.loading == []
    ensures r.providerCalled ==> r.loading == Busy
    ensures r.nav.Some? <==> r.providerCalled && reply.Succeeded?
    ensures r.nav.Some? ==> r.nav.value == ReplaceWith("/home") && r.shown.None?
    ensures r.providerCalled && reply.Failed? ==> r.shown == Some(Alert(SignInTitle, reply.msg))
    ensures r.providerCalled && reply.Rejected? ==> r.shown == Some(Alert(SignInTitle, Some(SignInCrashed)))
    ensures r.write.None?
  {
    if email == "" || password == "" then
      Submission(Some(Alert(SignInTitle, Some(FillAll))), false, None, None, [])
    else
      match reply
      case Succeeded => Submission(None, true, None, Some(ReplaceWith("/home")), Busy)
      case Failed(msg) => Submission(Some(Alert(SignInTitle, msg)), true, None, None, Busy)
      case Rejected => Submission(Some(Alert(SignInTitle, Some(SignInCrashed))), true, None, None, Busy)
  }

  /** The sign-in screen over the auth context: a provider success signs
      the user in and goes home; a provider error shows the first matching
      fixed message, or the error's own message. */
  lemma SignInThroughContext(s: AuthSession.AuthState, email: string, password: string,
                             outcome: Result<Fields, AuthSession.ProviderError>)
    requires email != "" && password != ""
    ensures var (after, reply) := AuthSession.Login(s, outcome);
      var r := HandleSignIn(email, password, reply);
      && (outcome.Success? ==> after.isAuthenticated == AuthSession.SignedIn && r.nav == Some(ReplaceWith("/home")))
      && (outcome.Failure? ==> after == s && r.nav.None?)
      && (outcome.Failure? && outcome.error.message.Some? ==>
            r.shown == Some(Alert(SignInTitle, Some(AuthSession.FirstMatch(AuthSession.LoginRules, outcome.error.message.value)))))
  {
  }

  // ---------------------------------------------------------------------
  // app/signUp.js

  const SignUpTitle: string := "Sign Up"
  const SignUpCrashed: string := "An error occurred. Please try again."

  /** `handleRegister`: all four fields are required before `register` is
      called; a successful reply pushes `/app/home`, a failed one shows its
      message, a rejection shows a generic message. */
  function HandleRegister(email: string, password: string, username: string, profileUrl: string,
                          reply: AuthSession.Reply): (r: Submission)
    ensures r.providerCalled <==> email != "" && password != "" && username != "" && profileUrl != ""
    ensures !r.providerCalled ==> r.shown == Some(Alert(SignUpTitle, Some(FillAll))) && r.loading == []
    ensures r.providerCalled ==> r.loading == Busy
    ensures r.nav.Some? <==> r.providerCalled && reply.Succeeded?
    ensures r.nav.Some? ==> r.nav.value == PushTo("/app/home") && r.shown.None?
    ensures r.providerCalled && reply.Failed? ==> r.shown == Some(Alert(SignUpTitle, reply.msg))
    ensures r.providerCalled && reply.Rejected? ==> r.shown == Some(Alert(SignUpTitle, Some(SignUpCrashed)))
    ensures r.write.None?
  {
    if email == "" || password == "" || username == "" || profileUrl == "" then
      Submission(Some(Alert(SignUpTitle, Some(FillAll))), false, None, None, [])
    else
      match reply
      case Succeeded => Submission(None, true, None, Some(PushTo("/app/home")), Busy)
      case Failed(msg) => Submission(Some(Alert(SignUpTitle, msg)), true, None, None, Busy)
      case Rejected => Submission(Some(Alert(SignUpTitle, Some(SignUpCrashed))), true, None, None, Busy)
  }

  /** The sign-up screen over the auth context: only when the account is
      created and its profile written is the user signed in and sent on;
      the profile is written whenever the account was created. */
  lemma SignUpThroughContext(s: AuthSession.AuthState, email: string, password: string,
                             username: string, profileUrl: string,
                             created: Result<AuthSession.Account, AuthSession.ProviderError>,
                             written: Option<AuthSession.ProviderError>)
    requires email != "" && password != "" && username != "" && profileUrl != ""
    ensures var (after, reply, w) := AuthSession.Register(s, username, profileUrl, created, written);
      var r := HandleRegister(email, password, username, profileUrl, reply);
      && (r.nav.Some? <==> created.Success? && written.None?)
      && (r.nav.Some? ==> after.isAuthenticated == AuthSession.SignedIn)
      && (r.nav.None? ==> after == s)
      && (w.Some? <==> created.Success?)
  {
  }
}
