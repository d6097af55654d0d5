/** The navigation guard: the fixed route table with its meta flags and the
    decision taken before every navigation, which waits for the session check
    and then redirects guests away from protected pages and signed-in users
    away from the guest-only ones. */
module Router {
  import opened Wrappers
  import opened Io
  import opened AuthStore

  /** The meta flags a route declares. */
  datatype RouteMeta = RouteMeta(requiresAuth: bool, guestOnly: bool)

  datatype Route = Route(path: string, name: string, meta: RouteMeta)

  const HomePath: string := "/"
  const LoginPath: string := "/login"
  const RegisterPath: string := "/register"
  const ProfilePath: string := "/profile"

  /** The application's routes. */
  const Routes: seq<Route> := [
    Route(HomePath, "home", RouteMeta(true, false)),
    Route(LoginPath, "login", RouteMeta(false, true)),
    Route(RegisterPath, "register", RouteMeta(false, true)),
    Route(ProfilePath, "profile", RouteMeta(true, false))
  ]

  /** An ASCII capital letter in lower case; every other character as it is. */
  function LowerChar(c: char): char {
    if 'A' <= c <= 'Z' then (c as int + 32) as char else c
  }

  /** A path with its ASCII letters in lower case. */
  function LowerAscii(path: string): (q: string)
    ensures |q| == |path|
    ensures forall i :: 0 <= i < |path| ==> q[i] == LowerChar(path[i])
  {
    seq(|path|, i requires 0 <= i < |path| => LowerChar(path[i]))
  }

  /** The router's default matching of a path (without query or hash) against
      a route: ASCII letters match in either case and one trailing slash is
      optional, so the root route matches `/` and the empty path. */
  predicate Matches(r: Route, path: string) {
    var q := LowerAscii(path);
    if r.path == HomePath then q == "" || q == HomePath else q == r.path || q == r.path + "/"
  }

  /** The meta of the first route the path matches; a path no route matches
      carries no flags. */
  function MetaOf(path: string): RouteMeta {
    match Find(Routes, (r: Route) => Matches(r, path))
    case Some(r) => r.meta
    case None => RouteMeta(false, false)
  }

  /** The spellings, once lower-cased, that reach a protected page. */
  const ProtectedSpellings: set<string> := {"", "/", "/profile", "/profile/"}

  /** The spellings, once lower-cased, that reach a guest-only page. */
  const GuestOnlySpellings: set<string> := {"/login", "/login/", "/register", "/register/"}

  /** What the table says of each path, in any letter case and with or
      without a trailing slash. */
  lemma RouteTable(path: string)
    ensures LowerAscii(path) in ProtectedSpellings ==> MetaOf(path) == RouteMeta(true, false)
    ensures LowerAscii(path) in GuestOnlySpellings ==> MetaOf(path) == RouteMeta(false, true)
    ensures LowerAscii(path) !in ProtectedSpellings + GuestOnlySpellings ==> MetaOf(path) == RouteMeta(false, false)
  {
    var q := LowerAscii(path);
    var p := (r: Route) => Matches(r, path);
    if q == "" || q == "/" {
      assert p(Routes[0]);
    } else if q == "/login" || q == "/login/" {
      assert !p(Routes[0]) && p(Routes[1]);
    } else if q == "/register" || q == "/register/" {
      assert !p(Routes[0]) && !p(Routes[1]) && p(Routes[2]);
    } else if q == "/profile" || q == "/profile/" {
      assert !p(Routes[0]) && !p(Routes[1]) && !p(Routes[2]) && p(Routes[3]);
    } else {
      assert forall j :: 0 <= j < |Routes| ==> !p(Routes[j]);
    }
  }

  /** The guard's verdict. */
  datatype Decision = Proceed | Redirect(path: string)

  /** The decision for a target's meta: a guest-only page for a signed-in user
      goes to `/`, which takes precedence; a protected page for a guest goes
      to `/login`; everything else proceeds. */
  function Decide(meta: RouteMeta, isAuthenticated: bool): (d: Decision)
    ensures d == Redirect(HomePath) <==> meta.guestOnly && isAuthenticated
    ensures d == Redirect(LoginPath) <==> meta.requiresAuth && !isAuthenticated
    ensures d == Proceed <==> !(meta.guestOnly && isAuthenticated) && !(meta.requiresAuth && !isAuthenticated)
    ensures d.Redirect? ==> d.path in {HomePath, LoginPath}
  {
    if meta.guestOnly && isAuthenticated then Redirect(HomePath)
    else if meta.requiresAuth && !isAuthenticated then Redirect(LoginPath)
    else Proceed
  }

  /** Signed in means the session holds a user. */
  predicate IsAuthenticated(s: Session) {
    s.authUser.Some?
  }

  /** The guard either waits for the pending session check or decides. */
  datatype GuardResult = Waiting | Decided(decision: Decision)

  /** `beforeEach`: no decision while the session check is pending; after it,
      the decision for the target's meta and the session's user. */
  function BeforeEach(s: Session, to: string): (g: GuardResult)
    ensures g.Decided? <==> !s.isCheckingAuth
    ensures g.Decided? ==> g.decision == Decide(MetaOf(to), IsAuthenticated(s))
  {
    if s.isCheckingAuth then Waiting else Decided(Decide(MetaOf(to), IsAuthenticated(s)))
  }

  /** A redirect's target never redirects again for the same session: the
      guard cannot loop. */
  lemma NoRedirectLoop(s: Session, to: string)
    requires BeforeEach(s, to).Decided? && BeforeEach(s, to).decision.Redirect?
    ensures BeforeEach(s, BeforeEach(s, to).decision.path) == Decided(Proceed)
  {
  }

  /** Before the session check completes, every navigation waits. */
  lemma InitialNavigationWaits(to: string)
    ensures BeforeEach(Initial, to) == Waiting
  {
  }

  /** A guest who types the profile page's path in capitals and with a
      trailing slash is still sent to the login page. */
  lemma GuestSentToLoginFromAnySpelling(s: Session)
    requires !s.isCheckingAuth && s.authUser.None?
    ensures BeforeEach(s, "/Profile/") == Decided(Redirect(LoginPath))
  {
    assert LowerAscii("/Profile/") == "/profile/";
    RouteTable("/Profile/");
  }

  /** Once the session check has completed, whatever its outcome, the guard
      decides; a failed check sends protected pages to the login page. */
  lemma GuardDecidesAfterCheck(s: Session, res: Response<AuthUser>, to: string)
    ensures BeforeEach(CheckAuth(s, res), to).Decided?
    ensures res.Failed? && MetaOf(to).requiresAuth ==>
      BeforeEach(CheckAuth(s, res), to) == Decided(Redirect(LoginPath))
  {
  }
}
