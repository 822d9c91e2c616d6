/** The auth context: the session state (`isAuthenticated` and `user`), its
    transitions on provider notifications, profile loads, login, logout and
    registration, the rewriting of provider error messages, and `useAuth`.
    Provider and database calls are replaced by their outcomes, passed in. */
module AuthSession {
  import opened Wrappers
  import opened JsString
  import opened Documents

  /** `isAuthenticated`: `undefined` until the provider first reports, then
      `true` or `false`. */
  datatype AuthFlag = Unknown | SignedIn | SignedOut

  /** The context state; `user` is the JavaScript user object, or `null`. */
  datatype AuthState = AuthState(isAuthenticated: AuthFlag, user: Option<Fields>)

  const Initial: AuthState := AuthState(Unknown, None)

  /** The state is coherent when a user object is held exactly while
      signed in. */
  predicate Coherent(s: AuthState) {
    s.user.Some? <==> s.isAuthenticated == SignedIn
  }

  /** A rejection by the provider or the database: its `message`, which
      JavaScript allows to be missing. */
  datatype ProviderError = ProviderError(message: Option<string>)

  /** What `login`, `logout` and `register` settle with: `{ success: true }`,
      `{ success: false, msg }`, or a rejected promise. */
  datatype Reply = Succeeded | Failed(msg: Option<string>) | Rejected

  // ---------------------------------------------------------------------
  // Provider notifications and profile loads

  /** `onAuthStateChanged`: a user signs the state in, none signs it out. */
  function OnAuthChanged(s: AuthState, current: Option<Fields>): (r: AuthState)
    ensures current.Some? ==> r.isAuthenticated == SignedIn && r.user == current
    ensures current.None? ==> r.isAuthenticated == SignedOut && r.user.None?
    ensures Coherent(r)
  {
    match current
    case Some(u) => AuthState(SignedIn, Some(u))
    case None => AuthState(SignedOut, None)
  }

  /** `updateUserData`: when the user's profile document exists, its
      `username` and `profileUrl` and the `userId` are laid over the
      current user object (an empty one when there is none). A missing
      document or a failed read changes nothing. */
  function UpdateUserData(s: AuthState, uid: string, profile: Option<Fields>): (r: AuthState)
    ensures r.isAuthenticated == s.isAuthenticated
    ensures profile.None? ==> r == s
    ensures profile.Some? ==> r.user.Some?
    ensures profile.Some? ==>
      && "username" in r.user.value && "profileUrl" in r.user.value && "userId" in r.user.value
      && r.user.value["username"] == Get(profile.value, "username")
      && r.user.value["profileUrl"] == Get(profile.value, "profileUrl")
      && r.user.value["userId"] == Leaf(Str(uid))
    ensures forall k ::
      (profile.Some? && s.user.Some? && k in s.user.value &&
       k != "username" && k != "profileUrl" && k != "userId") ==>
      k in r.user.value && r.user.value[k] == s.user.value[k]
    ensures forall k :: profile.Some? && k in r.user.value ==>
      k == "username" || k == "profileUrl" || k == "userId" || (s.user.Some? && k in s.user.value)
  {
    match profile
    case None => s
    case Some(data) =>
      var previous := s.user.GetOr(map[]);
      var merged := previous["username" := Get(data, "username")]
                            ["profileUrl" := Get(data, "profileUrl")]
                            ["userId" := Leaf(Str(uid))];
      s.(user := Some(merged))
  }

  /** A profile load for a signed-in user keeps the state coherent ... */
  lemma ProfileLoadKeepsCoherence(s: AuthState, uid: string, profile: Option<Fields>)
    requires Coherent(s) && s.isAuthenticated == SignedIn
    ensures Coherent(UpdateUserData(s, uid, profile))
  {
  }

  /** ... but one that lands after a sign-out leaves a user object behind
      while `isAuthenticated` is `false`. */
  lemma LateProfileLoadAfterSignOut(u: Fields, uid: string, profile: Fields)
    ensures var s := OnAuthChanged(OnAuthChanged(Initial, Some(u)), None);
      && Coherent(s)
      && !Coherent(UpdateUserData(s, uid, Some(profile)))
  {
  }

  // ---------------------------------------------------------------------
  // Error messages

  /** A provider error code and the message shown in its place. */
  datatype Rule = Rule(code: string, text: string)

  const InvalidEmailText: string := "Invalid email address!"
  const UserNotFoundText: string := "No user found with these credentials."
  const WrongPasswordText: string := "Incorrect password!"
  const EmailInUseText: string := "This email is already in use!"
  const WeakPasswordText: string := "Password should be at least 6 characters!"

  const LoginRules: seq<Rule> := [
    Rule("auth/invalid-email", InvalidEmailText),
    Rule("auth/user-not-found", UserNotFoundText),
    Rule("auth/wrong-password", WrongPasswordText)
  ]

  const RegisterRules: seq<Rule> := [
    Rule("auth/invalid-email", InvalidEmailText),
    Rule("auth/email-already-in-use", EmailInUseText),
    Rule("auth/weak-password", WeakPasswordText)
  ]

  /** The chain of `if (msg.includes(code)) msg = text;` statements, in
      rule order, each testing the message as left by the ones before. */
  function Rewrite(rules: seq<Rule>, msg: string): (r: string)
    ensures r == msg || exists i :: 0 <= i < |rules| && r == rules[i].text
    decreases |rules|
  {
    if |rules| == 0 then msg
    else
      var next := if Includes(msg, rules[0].code) then rules[0].text else msg;
      var r := Rewrite(rules[1..], next);
      assert r != next ==> exists i :: 1 <= i < |rules| && r == rules[i].text by {
        if r != next {
          var i :| 0 <= i < |rules[1..]| && r == rules[1..][i].text;
          assert r == rules[i + 1].text;
        }
      }
      r
  }

  /** The text of the first rule whose code the message holds, or the
      message itself when it holds none. */
  function FirstMatch(rules: seq<Rule>, msg: string): (r: string)
    ensures (forall i :: 0 <= i < |rules| ==> !Includes(msg, rules[i].code)) ==> r == msg
    ensures forall i ::
      (0 <= i < |rules| && Includes(msg, rules[i].code) &&
       (forall j :: 0 <= j < i ==> !Includes(msg, rules[j].code))) ==> r == rules[i].text
    decreases |rules|
  {
    if |rules| == 0 then msg
    else if Includes(msg, rules[0].code) then rules[0].text
    else FirstMatch(rules[1..], msg)
  }

  /** No replacement text holds any code of the table. */
  predicate Settled(rules: seq<Rule>) {
    forall i, j :: 0 <= i < |rules| && 0 <= j < |rules| ==> !Includes(rules[i].text, rules[j].code)
  }

  /** A message holding no code passes the chain unchanged. */
  lemma {:induction false} RewriteNoCode(rules: seq<Rule>, msg: string)
    requires forall j :: 0 <= j < |rules| ==> !Includes(msg, rules[j].code)
    ensures Rewrite(rules, msg) == msg
    decreases |rules|
  {
    if |rules| > 0 {
      RewriteNoCode(rules[1..], msg);
    }
  }

  /** When no replacement text holds a code, the chain of rewrites is a
      first-match lookup. */
  lemma {:induction false} RewriteIsFirstMatch(rules: seq<Rule>, msg: string)
    requires Settled(rules)
    ensures Rewrite(rules, msg) == FirstMatch(rules, msg)
    decreases |rules|
  {
    if |rules| > 0 {
      assert Settled(rules[1..]);
      if Includes(msg, rules[0].code) {
        assert forall j :: 0 <= j < |rules[1..]| ==> rules[1..][j] == rules[j + 1];
        RewriteNoCode(rules[1..], rules[0].text);
      } else {
        RewriteIsFirstMatch(rules[1..], msg);
      }
    }
  }

  /** A string holding a pattern holds each of the pattern's characters. */
  lemma IncludesChar(s: string, p: string, c: char)
    requires Includes(s, p) && c in p
    ensures c in s
  {
    var i: nat :| i <= |s| && OccursAt(s, p, i);
    var k :| 0 <= k < |p| && p[k] == c;
    assert s[i + k] == p[k];
  }

  /** A table whose codes all hold a character its texts never hold is
      settled. */
  lemma SettledBySeparator(rules: seq<Rule>, c: char)
    requires forall i :: 0 <= i < |rules| ==> c in rules[i].code && c !in rules[i].text
    ensures Settled(rules)
  {
    forall i, j | 0 <= i < |rules| && 0 <= j < |rules|
      ensures !Includes(rules[i].text, rules[j].code)
    {
      if Includes(rules[i].text, rules[j].code) {
        IncludesChar(rules[i].text, rules[j].code, c);
      }
    }
  }

  /** No replacement text holds a `/`. */
  lemma InvalidEmailTextLacksSlash() ensures '/' !in InvalidEmailText { }
  lemma UserNotFoundTextLacksSlash() ensures '/' !in UserNotFoundText { }
  lemma WrongPasswordTextLacksSlash() ensures '/' !in WrongPasswordText { }
  lemma EmailInUseTextLacksSlash() ensures '/' !in EmailInUseText { }
  lemma WeakPasswordTextLacksSlash() ensures '/' !in WeakPasswordText { }

  /** Every login code holds a `/` and no replacement text does. */
  lemma LoginRulesSettled()
    ensures Settled(LoginRules)
  {
    InvalidEmailTextLacksSlash();
    UserNotFoundTextLacksSlash();
    WrongPasswordTextLacksSlash();
    assert LoginRules[0].code[4] == '/' && LoginRules[1].code[4] == '/' && LoginRules[2].code[4] == '/';
    SettledBySeparator(LoginRules, '/');
  }

  /** Every register code holds a `/` and no replacement text does. */
  lemma RegisterRulesSettled()
    ensures Settled(RegisterRules)
  {
    InvalidEmailTextLacksSlash();
    EmailInUseTextLacksSlash();
    WeakPasswordTextLacksSlash();
    assert RegisterRules[0].code[4] == '/' && RegisterRules[1].code[4] == '/' && RegisterRules[2].code[4] == '/';
    SettledBySeparator(RegisterRules, '/');
  }

  /** The message `login` returns for a provider error message. */
  function LoginErrorText(msg: string): (r: string)
    ensures r == FirstMatch(LoginRules, msg)
  {
    LoginRulesSettled();
    RewriteIsFirstMatch(LoginRules, msg);
    Rewrite(LoginRules, msg)
  }

  /** The message `register` returns for a provider error message. */
  function RegisterErrorText(msg: string): (r: string)
    ensures r == FirstMatch(RegisterRules, msg)
  {
    RegisterRulesSettled();
    RewriteIsFirstMatch(RegisterRules, msg);
    Rewrite(RegisterRules, msg)
  }

  /** A failure reply carrying the rewritten message; without a message the
      call to `includes` throws and the promise is rejected. */
  function FailureReply(e: ProviderError, rewrite: string -> string): Reply {
    match e.message
    case Some(m) => Failed(Some(rewrite(m)))
    case None => Rejected
  }

  // ---------------------------------------------------------------------
  // login, logout, register

  /** `login`: on success the provider's user is signed in; on failure the
      state is kept and the error message is rewritten. */
  function Login(s: AuthState, outcome: Result<Fields, ProviderError>): (r: (AuthState, Reply))
    ensures outcome.Success? ==> r.0 == AuthState(SignedIn, Some(outcome.value)) && r.1 == Succeeded
    ensures outcome.Failure? ==> r.0 == s
    ensures outcome.Failure? && outcome.error.message.Some? ==>
      r.1 == Failed(Some(FirstMatch(LoginRules, outcome.error.message.value)))
    ensures outcome.Failure? && outcome.error.message.None? ==> r.1 == Rejected
  {
    match outcome
    case Success(u) => (AuthState(SignedIn, Some(u)), Succeeded)
    case Failure(e) => (s, FailureReply(e, LoginErrorText))
  }

  /** `logout`: on success the state is signed out; on failure it is kept
      and the raw message is returned. */
  function Logout(s: AuthState, outcome: Option<ProviderError>): (r: (AuthState, Reply))
    ensures outcome.None? ==> r.0 == AuthState(SignedOut, None) && r.1 == Succeeded
    ensures outcome.Some? ==> r.0 == s && r.1 == Failed(outcome.value.message)
  {
    match outcome
    case None => (AuthState(SignedOut, None), Succeeded)
    case Some(e) => (s, Failed(e.message))
  }

  /** A new account as the provider returns it: its uid and user object. */
  datatype Account = Account(uid: string, user: Fields)

  /** The profile document `register` writes for a new account: a
      replacing write of `users/{uid}`. */
  function RegisterProfile(uid: string, username: string, profileUrl: string): (w: Write)
    ensures w.collection == "users" && w.id == uid && w.mode == Replace
    ensures w.data.Keys == {"username", "profileUrl", "userId"}
    ensures w.data["username"] == Leaf(Str(username)) && w.data["profileUrl"] == Leaf(Str(profileUrl))
    ensures w.data["userId"] == Leaf(Str(uid))
  {
    Write("users", uid, map["username" := Leaf(Str(username)), "profileUrl" := Leaf(Str(profileUrl)),
                            "userId" := Leaf(Str(uid))], Replace)
  }

  /** `register`: create the account, then write its profile; only when
      both succeed is the new user signed in. The write is issued whenever
      the account was created. Either failure is rewritten like a provider
      error. */
  function Register(s: AuthState, username: string, profileUrl: string,
                    created: Result<Account, ProviderError>, written: Option<ProviderError>)
    : (r: (AuthState, Reply, Option<Write>))
    ensures r.2.Some? <==> created.Success?
    ensures created.Success? ==> r.2 == Some(RegisterProfile(created.value.uid, username, profileUrl))
    ensures r.1 == Succeeded <==> created.Success? && written.None?
    ensures r.1 == Succeeded ==> r.0 == AuthState(SignedIn, Some(created.value.user))
    ensures r.1 != Succeeded ==> r.0 == s
    ensures created.Failure? && created.error.message.Some? ==>
      r.1 == Failed(Some(FirstMatch(RegisterRules, created.error.message.value)))
    ensures created.Failure? && created.error.message.None? ==> r.1 == Rejected
    ensures created.Success? && written.Some? && written.value.message.Some? ==>
      r.1 == Failed(Some(FirstMatch(RegisterRules, written.value.message.value)))
    ensures created.Success? && written.Some? && written.value.message.None? ==> r.1 == Rejected
  {
    match created
    case Failure(e) => (s, FailureReply(e, RegisterErrorText), None)
    case Success(account) =>
      var w := RegisterProfile(account.uid, username, profileUrl);
      match written
      case Some(e) => (s, FailureReply(e, RegisterErrorText), Some(w))
      case None => (AuthState(SignedIn, Some(account.user)), Succeeded, Some(w))
  }

  // ---------------------------------------------------------------------
  // Runs of events

  datatype Event =
    | Notified(current: Option<Fields>)
    | ProfileLoaded(uid: string, profile: Option<Fields>)
    | LoginSettled(login: Result<Fields, ProviderError>)
    | LogoutSettled(logout: Option<ProviderError>)
    | RegisterSettled(username: string, profileUrl: string,
                      created: Result<Account, ProviderError>, written: Option<ProviderError>)

  function Step(s: AuthState, e: Event): AuthState {
    match e
    case Notified(u) => OnAuthChanged(s, u)
    case ProfileLoaded(uid, p) => UpdateUserData(s, uid, p)
    case LoginSettled(o) => Login(s, o).0
    case LogoutSettled(o) => Logout(s, o).0
    case RegisterSettled(n, p, c, w) => Register(s, n, p, c, w).0
  }

  function Run(s: AuthState, events: seq<Event>): AuthState
    decreases |events|
  {
    if |events| == 0 then s else Run(Step(s, events[0]), events[1..])
  }

  /** No event returns a decided state to `undefined`. */
  lemma StepKeepsDecided(s: AuthState, e: Event)
    requires s.isAuthenticated != Unknown
    ensures Step(s, e).isAuthenticated != Unknown
  {
  }

  /** Once decided, the state stays decided through any run of events. */
  lemma {:induction false} RunKeepsDecided(s: AuthState, events: seq<Event>)
    requires s.isAuthenticated != Unknown
    ensures Run(s, events).isAuthenticated != Unknown
    decreases |events|
  {
    if |events| > 0 {
      StepKeepsDecided(s, events[0]);
      RunKeepsDecided(Step(s, events[0]), events[1..]);
    }
  }

  /** A run of failed logins leaves the state exactly as it was. */
  lemma {:induction false} FailedLoginsKeepState(s: AuthState, events: seq<Event>)
    requires forall i :: 0 <= i < |events| ==> events[i].LoginSettled? && events[i].login.Failure?
    ensures Run(s, events) == s
    decreases |events|
  {
    if |events| > 0 {
      assert Step(s, events[0]) == s;
      FailedLoginsKeepState(s, events[1..]);
    }
  }

  /** The first provider notification decides the state for good. */
  lemma {:induction false} DecidedAfterNotification(s: AuthState, events: seq<Event>, i: nat)
    requires i < |events| && events[i].Notified?
    ensures Run(s, events).isAuthenticated != Unknown
    decreases i
  {
    if i == 0 {
      RunKeepsDecided(Step(s, events[0]), events[1..]);
    } else {
      DecidedAfterNotification(Step(s, events[0]), events[1..], i - 1);
    }
  }

  // ---------------------------------------------------------------------
  // useAuth

  const UseAuthMisuse: string := "useAuth must be used within a AuthContextProvider"

  /** `useAuth`: the provider's value, or a thrown error outside a provider. */
  function UseAuth(context: Option<AuthState>): (r: Result<AuthState, string>)
    ensures r.Failure? <==> context.None?
    ensures r.Failure? ==> r.error == UseAuthMisuse
    ensures r.Success? ==> r.value == context.value
  {
    match context
    case None => Failure(UseAuthMisuse)
    case Some(v) => Success(v)
  }
}
