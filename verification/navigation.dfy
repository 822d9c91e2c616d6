/** The two root layouts that gate navigation on the session: the auth
    context layout (`app/_layout.js`), which decides from `isAuthenticated`
    and the first route segment, and the direct layout (`app/_layout.tsx`),
    which waits out the first provider notification. Navigation is a
    returned route, not a side effect. */
module Navigation {
  import opened Wrappers
  import opened Documents
  import opened AuthSession

  // ---------------------------------------------------------------------
  // app/_layout.js

  /** What one run of the layout's effect does. */
  datatype Decision = Wait | Stay | Redirect(path: string)

  /** What the layout renders. */
  datatype LayoutView = Loading | Slot

  /** The user is on the sign-in or sign-up screen. */
  predicate InAuthRoutes(segments: seq<string>) {
    |segments| > 0 && (segments[0] == "signIn" || segments[0] == "signUp")
  }

  /** The effect: wait while the state is undecided, redirect a signed-in
      user to `/home` and a signed-out one to `/signIn` unless they are on
      an auth screen. */
  function Decide(flag: AuthFlag, segments: seq<string>): (d: Decision)
    ensures d == Wait <==> flag == Unknown
    ensures d == Stay <==> flag != Unknown && InAuthRoutes(segments)
    ensures d == Redirect("/home") <==> flag == SignedIn && !InAuthRoutes(segments)
    ensures d == Redirect("/signIn") <==> flag == SignedOut && !InAuthRoutes(segments)
  {
    if flag == Unknown then Wait
    else if InAuthRoutes(segments) then Stay
    else if flag == SignedIn then Redirect("/home")
    else
      assert flag == SignedOut;
      Redirect("/signIn")
  }

  /** The layout shows a spinner until the state is decided. */
  function View(flag: AuthFlag): (v: LayoutView)
    ensures v == Loading <==> flag == Unknown
  {
    if flag == Unknown then Loading else Slot
  }

  /** The route segments of the two redirect targets. */
  function SegmentsOf(path: string): seq<string> {
    if path == "/signIn" then ["signIn"]
    else if path == "/home" then ["(app)", "home"]
    else []
  }

  /** Redirecting settles: evaluating the layout again on the redirect
      target, under the same state, leaves the user there. */
  lemma RedirectSettles(flag: AuthFlag, segments: seq<string>)
    requires Decide(flag, segments).Redirect?
    ensures var target := Decide(flag, segments).path;
      Decide(flag, SegmentsOf(target)) in {Stay, Redirect(target)}
  {
  }

  /** A successful login on the sign-in screen keeps the user there for the
      screen to navigate; anywhere else the layout sends them home. */
  lemma LoginThenDecide(s: AuthState, u: Fields, segments: seq<string>)
    ensures var after := Login(s, Success(u)).0;
      && View(after.isAuthenticated) == Slot
      && (InAuthRoutes(segments) ==> Decide(after.isAuthenticated, segments) == Stay)
      && (!InAuthRoutes(segments) ==> Decide(after.isAuthenticated, segments) == Redirect("/home"))
  {
  }

  /** Until the provider's first notification nothing is decided, whatever
      login attempts fail in the meantime. */
  lemma WaitUntilNotified(events: seq<Event>, segments: seq<string>)
    requires forall i :: 0 <= i < |events| ==> events[i].LoginSettled? && events[i].login.Failure?
    ensures Decide(Run(Initial, events).isAuthenticated, segments) == Wait
  {
    FailedLoginsKeepState(Initial, events);
  }

  // ---------------------------------------------------------------------
  // app/_layout.tsx

  /** The direct layout's state: `initializing` as the current listener
      sees it, and the last notified user. */
  datatype RootState = RootState(initializing: bool, user: Option<Fields>)

  const RootInitial: RootState := RootState(true, None)

  /** What the direct layout renders: nothing while initializing, then the
      screen stack. */
  datatype RootView = Nothing | Stack

  function RenderRoot(s: RootState): (v: RootView)
    ensures v == Nothing <==> s.initializing
  {
    if s.initializing then Nothing else Stack
  }

  /** One notification: the user is recorded; the first one only ends
      initialization, later ones route to `/` or `/login`. */
  function OnRootAuthChanged(s: RootState, current: Option<Fields>): (r: (RootState, Option<string>))
    ensures r.0.user == current
    ensures !r.0.initializing
    ensures s.initializing ==> r.1.None?
    ensures !s.initializing && current.Some? ==> r.1 == Some("/")
    ensures !s.initializing && current.None? ==> r.1 == Some("/login")
  {
    var route := if s.initializing then None else if current.Some? then Some("/") else Some("/login");
    (RootState(false, current), route)
  }

  /** The routes a run of notifications produces, in order. */
  function RootRun(s: RootState, notes: seq<Option<Fields>>): (r: (RootState, seq<string>))
    ensures |notes| == 0 ==> r == (s, [])
    ensures |notes| > 0 ==> !r.0.initializing && r.0.user == notes[|notes| - 1]
    ensures |r.1| + (if s.initializing && |notes| > 0 then 1 else 0) == |notes|
    decreases |notes|
  {
    if |notes| == 0 then (s, [])
    else
      var (s', route) := OnRootAuthChanged(s, notes[0]);
      var (last, rest) := RootRun(s', notes[1..]);
      (last, (if route.Some? then [route.value] else []) + rest)
  }

  /** Route for a notification once initialization is over. */
  function RouteFor(current: Option<Fields>): string {
    if current.Some? then "/" else "/login"
  }

  /** After initialization every notification routes, according to the
      user it carries. */
  lemma {:induction false} RootRunInitialized(s: RootState, notes: seq<Option<Fields>>)
    requires !s.initializing
    ensures var (last, routes) := RootRun(s, notes);
      && |routes| == |notes|
      && (forall i :: 0 <= i < |notes| ==> routes[i] == RouteFor(notes[i]))
      && (|notes| > 0 ==> last.user == notes[|notes| - 1])
    decreases |notes|
  {
    if |notes| > 0 {
      var (s', _) := OnRootAuthChanged(s, notes[0]);
      RootRunInitialized(s', notes[1..]);
    }
  }

  /** From start-up, the first notification is swallowed and every later
      one routes; initialization never comes back. */
  lemma RootRunFromStart(notes: seq<Option<Fields>>)
    requires |notes| > 0
    ensures var (last, routes) := RootRun(RootInitial, notes);
      && !last.initializing
      && last.user == notes[|notes| - 1]
      && |routes| == |notes| - 1
      && (forall i :: 0 < i < |notes| ==> routes[i - 1] == RouteFor(notes[i]))
  {
    var (s', _) := OnRootAuthChanged(RootInitial, notes[0]);
    RootRunInitialized(s', notes[1..]);
    if |notes| > 1 {
      assert notes[1..][|notes[1..]| - 1] == notes[|notes| - 1];
    }
  }
}
