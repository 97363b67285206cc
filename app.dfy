/**
 * The route table (src/App.tsx) and what a visit to a path resolves to once
 * the guard, the post-grant redirects and the login page's own redirect have run.
 */
module App {
  import opened Common
  import opened AuthContext
  import opened ProtectedRoute
  import AuthPage

  datatype Screen =
    | AuthScreen | DashboardScreen | PortfolioScreen | StudentsScreen
    | AdminsScreen | UnauthorizedScreen | NotFoundScreen

  /** What a route renders: a page, or a `<Navigate to=...>`. */
  datatype Element = Page(screen: Screen) | NavigateTo(target: string)

  /** A route is rendered as is, or wrapped in the guard with an optional role list. */
  datatype Access = Open | Guarded(allowedRoles: Option<seq<Role>>)

  datatype Route = Route(path: string, access: Access, element: Element)

  const StudentOnly: Option<seq<Role>> := Some([Student])
  const Staff: Option<seq<Role>> := Some([Admin, SuperAdmin])
  const SuperAdminOnly: Option<seq<Role>> := Some([SuperAdmin])

  const Routes: seq<Route> := [
    Route("/auth", Open, Page(AuthScreen)),
    Route("/", Guarded(None), Page(DashboardScreen)),
    Route("/portfolio", Guarded(StudentOnly), Page(PortfolioScreen)),
    Route("/projects", Guarded(StudentOnly), NavigateTo("/portfolio")),
    Route("/achievements", Guarded(StudentOnly), NavigateTo("/portfolio")),
    Route("/students", Guarded(Staff), Page(StudentsScreen)),
    Route("/portfolios", Guarded(Staff), NavigateTo("/students")),
    Route("/department", Guarded(Staff), NavigateTo("/students")),
    Route("/analytics", Guarded(Staff), NavigateTo("/")),
    Route("/admins", Guarded(SuperAdminOnly), Page(AdminsScreen)),
    Route("/departments", Guarded(SuperAdminOnly), NavigateTo("/admins")),
    Route("/settings", Guarded(SuperAdminOnly), NavigateTo("/")),
    Route("/unauthorized", Open, Page(UnauthorizedScreen)),
    Route("/profile", Open, NavigateTo("/"))
  ]

  /** The `*` route: anything not listed renders NotFound. */
  const CatchAll: Route := Route("*", Open, Page(NotFoundScreen))

  /** The index of the first route at or after `from` whose path equals `path`. */
  function FindRoute(table: seq<Route>, path: string, from: nat): (r: Option<nat>)
    requires from <= |table|
    ensures r.Some? ==> from <= r.value < |table|
    decreases |table| - from
  {
    if from == |table| then None
    else if table[from].path == path then Some(from)
    else FindRoute(table, path, from + 1)
  }

  /** Exact-path matching: the first listed route with that path, else the catch-all. */
  function Lookup(path: string): Route {
    match FindRoute(Routes, path, 0)
    case Some(i) => Routes[i]
    case None => CatchAll
  }

  /** The search finds the first route with exactly that path, and finds none only when no route has it. */
  lemma {:induction false} FindRouteFirstMatch(table: seq<Route>, path: string, from: nat)
    requires from <= |table|
    ensures var r := FindRoute(table, path, from);
      && (r.Some? ==> table[r.value].path == path && forall k :: from <= k < r.value ==> table[k].path != path)
      && (r.None? <==> forall j :: from <= j < |table| ==> table[j].path != path)
    decreases |table| - from
  {
    if from < |table| && table[from].path != path {
      FindRouteFirstMatch(table, path, from + 1);
    }
  }

  /** One step of a visit: wait, go elsewhere (with the `from` state, if any), or show a screen. */
  datatype Step = Wait | Go(target: string, from: Option<string>) | Show(screen: Screen)

  /** Rendering an element once the guard, if any, has let it through. */
  function Render(e: Element, user: Option<User>): Step {
    match e
    case NavigateTo(t) => Go(t, None)
    case Page(s) =>
      if s == AuthScreen && AuthPage.ViewFor(IsAuthenticated(user)) == AuthPage.NavigateHome then Go("/", None)
      else Show(s)
  }

  function StepAt(isLoading: bool, user: Option<User>, path: string): Step {
    var route := Lookup(path);
    match route.access
    case Open => Render(route.element, user)
    case Guarded(roles) =>
      match Decide(isLoading, user, roles, path)
      case ShowLoading => Wait
      case RedirectToAuth(from) => Go("/auth", Some(from))
      case RedirectToUnauthorized => Go("/unauthorized", None)
      case RenderChildren => Render(route.element, user)
  }

  datatype Landing = Pending | Landed(path: string, screen: Screen, from: Option<string>) | TooManyHops

  /** Follows at most `hops` redirects from `path`. */
  function Visit(isLoading: bool, user: Option<User>, path: string, from: Option<string>, hops: nat): Landing
    decreases hops
  {
    match StepAt(isLoading, user, path)
    case Wait => Pending
    case Show(s) => Landed(path, s, from)
    case Go(t, f) => if hops == 0 then TooManyHops else Visit(isLoading, user, t, f, hops - 1)
  }

  const MaxHops: nat := 2

  /** Opening `path` with no location state. */
  function OpenPath(isLoading: bool, user: Option<User>, path: string): Landing {
    Visit(isLoading, user, path, None, MaxHops)
  }

  // ---------------------------------------------------------------------------
  // Properties of the table

  /** No two routes share a path, so every listed path finds its own route. */
  lemma LookupListed(i: nat)
    requires i < |Routes|
    ensures Lookup(Routes[i].path) == Routes[i]
  {
    assert forall j, k :: 0 <= j < k < |Routes| ==> Routes[j].path != Routes[k].path;
    FindRouteFirstMatch(Routes, Routes[i].path, 0);
  }

  /** A path the table does not list renders NotFound, whoever asks. */
  lemma UnlistedIsNotFound(isLoading: bool, user: Option<User>, path: string)
    requires forall j :: 0 <= j < |Routes| ==> Routes[j].path != path
    ensures OpenPath(isLoading, user, path) == Landed(path, NotFoundScreen, None)
  {
    FindRouteFirstMatch(Routes, path, 0);
  }

  /** Every listed path, looked up. */
  lemma Table()
    ensures Lookup("/auth") == Routes[0] && Lookup("/") == Routes[1]
    ensures Lookup("/portfolio") == Routes[2] && Lookup("/projects") == Routes[3]
    ensures Lookup("/achievements") == Routes[4] && Lookup("/students") == Routes[5]
    ensures Lookup("/portfolios") == Routes[6] && Lookup("/department") == Routes[7]
    ensures Lookup("/analytics") == Routes[8] && Lookup("/admins") == Routes[9]
    ensures Lookup("/departments") == Routes[10] && Lookup("/settings") == Routes[11]
    ensures Lookup("/unauthorized") == Routes[12] && Lookup("/profile") == Routes[13]
  {
    LookupListed(0); LookupListed(1); LookupListed(2); LookupListed(3); LookupListed(4);
    LookupListed(5); LookupListed(6); LookupListed(7); LookupListed(8); LookupListed(9);
    LookupListed(10); LookupListed(11); LookupListed(12); LookupListed(13);
  }

  /** The listed route a guarded path resolves to. */
  lemma GuardedIsListed(path: string) returns (i: nat)
    requires Lookup(path).access.Guarded?
    ensures i < |Routes| && Routes[i] == Lookup(path) && Routes[i].path == path
  {
    FindRouteFirstMatch(Routes, path, 0);
    i :| 0 <= i < |Routes| && Routes[i] == Lookup(path) && Routes[i].path == path;
  }

  /** The route at `path` is guarded and lets through exactly the roles in `roles`. */
  predicate GuardedFor(path: string, roles: set<Role>) {
    var access := Lookup(path).access;
    && access.Guarded?
    && (Permits(access.allowedRoles, SuperAdmin) <==> SuperAdmin in roles)
    && (Permits(access.allowedRoles, Admin) <==> Admin in roles)
    && (Permits(access.allowedRoles, Student) <==> Student in roles)
  }

  /** Which role may open which path. */
  lemma RouteRoles()
    ensures Lookup("/auth").access == Open && Lookup("/unauthorized").access == Open
    ensures Lookup("/").access == Guarded(None)
    ensures GuardedFor("/portfolio", {Student})
    ensures GuardedFor("/projects", {Student})
    ensures GuardedFor("/achievements", {Student})
    ensures GuardedFor("/students", {Admin, SuperAdmin})
    ensures GuardedFor("/portfolios", {Admin, SuperAdmin})
    ensures GuardedFor("/department", {Admin, SuperAdmin})
    ensures GuardedFor("/analytics", {Admin, SuperAdmin})
    ensures GuardedFor("/admins", {SuperAdmin})
    ensures GuardedFor("/departments", {SuperAdmin})
    ensures GuardedFor("/settings", {SuperAdmin})
    ensures Lookup("/profile") == Route("/profile", Open, NavigateTo("/"))
  {
    Table();
  }

  /** Where each guarded redirect leads once the guard lets it through. */
  lemma PostGrantRedirects()
    ensures Lookup("/projects").element == NavigateTo("/portfolio")
    ensures Lookup("/achievements").element == NavigateTo("/portfolio")
    ensures Lookup("/portfolios").element == NavigateTo("/students")
    ensures Lookup("/department").element == NavigateTo("/students")
    ensures Lookup("/analytics").element == NavigateTo("/")
    ensures Lookup("/settings").element == NavigateTo("/")
    ensures Lookup("/departments").element == NavigateTo("/admins")
  {
    Table();
  }

  /** Every role the guard lets through a redirect route is also let through at its target. */
  predicate NoStricterTarget(r: Route) {
    r.access.Guarded? && r.element.NavigateTo? ==>
      var target := Lookup(r.element.target).access;
      target.Guarded? && forall role: Role :: Permits(r.access.allowedRoles, role) ==> Permits(target.allowedRoles, role)
  }

  /** So a redirect the guard granted is never forbidden at its target. */
  lemma RedirectTargetsNoStricter()
    ensures forall r :: r in Routes ==> NoStricterTarget(r)
  {
    Table();
  }

  predicate IsContent(s: Screen) {
    s == DashboardScreen || s == PortfolioScreen || s == StudentsScreen || s == AdminsScreen
  }

  /** What a signed-in user who passes a guarded route's role check ends up seeing there. */
  predicate GrantedLandsOnContent(user: User, r: Route) {
    r.access.Guarded? && Permits(r.access.allowedRoles, user.role) ==>
      OpenPath(false, Some(user), r.path).Landed? && IsContent(OpenPath(false, Some(user), r.path).screen)
  }

  lemma GrantedListedRoutes(user: User)
    ensures forall r :: r in Routes ==> GrantedLandsOnContent(user, r)
  {
    Table();
    assert GrantedLandsOnContent(user, Routes[0]);
    assert GrantedLandsOnContent(user, Routes[1]);
    assert GrantedLandsOnContent(user, Routes[2]);
    assert GrantedLandsOnContent(user, Routes[3]);
    assert GrantedLandsOnContent(user, Routes[4]);
    assert GrantedLandsOnContent(user, Routes[5]);
    assert GrantedLandsOnContent(user, Routes[6]);
    assert GrantedLandsOnContent(user, Routes[7]);
    assert GrantedLandsOnContent(user, Routes[8]);
    assert GrantedLandsOnContent(user, Routes[9]);
    assert GrantedLandsOnContent(user, Routes[10]);
    assert GrantedLandsOnContent(user, Routes[11]);
    assert GrantedLandsOnContent(user, Routes[12]);
    assert GrantedLandsOnContent(user, Routes[13]);
  }

  /** A signed-in user whom the guard lets through ends on a content screen, never on an error page. */
  lemma GrantedReachesContent(user: User, path: string)
    requires Lookup(path).access.Guarded? && Permits(Lookup(path).access.allowedRoles, user.role)
    ensures OpenPath(false, Some(user), path).Landed?
    ensures IsContent(OpenPath(false, Some(user), path).screen)
  {
    var i := GuardedIsListed(path);
    GrantedListedRoutes(user);
    assert GrantedLandsOnContent(user, Routes[i]);
  }

  lemma ListedPathsNonEmpty()
    ensures forall r :: r in Routes ==> r.path != ""
  {
  }

  /**
   * The round trip through the login page: a signed-out visit to a guarded path
   * lands on `/auth` carrying that path, and the login page reads it back as
   * the path to return to.
   */
  lemma SignedOutVisitCarriesPath(path: string)
    requires Lookup(path).access.Guarded?
    ensures OpenPath(false, None, path) == Landed("/auth", AuthScreen, Some(path))
    ensures AuthPage.ReturnPath(Some(path)) == path
  {
    var i := GuardedIsListed(path);
    ListedPathsNonEmpty();
    assert Routes[i] in Routes;
    assert StepAt(false, None, path) == Go("/auth", Some(path));
    Table();
    assert StepAt(false, None, "/auth") == Show(AuthScreen);
  }

  /** While the session is loading, every guarded path shows the placeholder. */
  lemma LoadingWaits(user: Option<User>, path: string)
    requires Lookup(path).access.Guarded?
    ensures OpenPath(true, user, path) == Pending
  {
  }

  /** A signed-in user whose role a guarded path does not list lands on `/unauthorized`, with no return state. */
  lemma ForbiddenLandsOnUnauthorized(user: User, path: string)
    requires Lookup(path).access.Guarded? && !Permits(Lookup(path).access.allowedRoles, user.role)
    ensures OpenPath(false, Some(user), path) == Landed("/unauthorized", UnauthorizedScreen, None)
  {
    Table();
  }

  /** Who may see each screen. */
  predicate MaySee(user: Option<User>, s: Screen) {
    match s
    case DashboardScreen => IsAuthenticated(user)
    case PortfolioScreen => IsStudent(user)
    case StudentsScreen => IsAdmin(user) || IsSuperAdmin(user)
    case AdminsScreen => IsSuperAdmin(user)
    case AuthScreen => !IsAuthenticated(user)
    case UnauthorizedScreen => true
    case NotFoundScreen => true
  }

  /** Opening a path settles within the hop bound, on a screen the session may see. */
  predicate SettlesSafely(isLoading: bool, user: Option<User>, path: string) {
    var landing := OpenPath(isLoading, user, path);
    landing != TooManyHops && (landing.Landed? ==> MaySee(user, landing.screen))
  }

  lemma ListedRoutesSettleWhileLoading(user: Option<User>)
    ensures forall r :: r in Routes ==> SettlesSafely(true, user, r.path)
  {
    Table();
    // one case per route
    assert SettlesSafely(true, user, Routes[0].path);
    assert SettlesSafely(true, user, Routes[1].path);
    assert SettlesSafely(true, user, Routes[2].path);
    assert SettlesSafely(true, user, Routes[3].path);
    assert SettlesSafely(true, user, Routes[4].path);
    assert SettlesSafely(true, user, Routes[5].path);
    assert SettlesSafely(true, user, Routes[6].path);
    assert SettlesSafely(true, user, Routes[7].path);
    assert SettlesSafely(true, user, Routes[8].path);
    assert SettlesSafely(true, user, Routes[9].path);
    assert SettlesSafely(true, user, Routes[10].path);
    assert SettlesSafely(true, user, Routes[11].path);
    assert SettlesSafely(true, user, Routes[12].path);
    assert SettlesSafely(true, user, Routes[13].path);
  }

  lemma ListedRoutesSettleSignedOut()
    ensures forall r :: r in Routes ==> SettlesSafely(false, None, r.path)
  {
    Table();
    // one case per route
    assert SettlesSafely(false, None, Routes[0].path);
    assert SettlesSafely(false, None, Routes[1].path);
    assert SettlesSafely(false, None, Routes[2].path);
    assert SettlesSafely(false, None, Routes[3].path);
    assert SettlesSafely(false, None, Routes[4].path);
    assert SettlesSafely(false, None, Routes[5].path);
    assert SettlesSafely(false, None, Routes[6].path);
    assert SettlesSafely(false, None, Routes[7].path);
    assert SettlesSafely(false, None, Routes[8].path);
    assert SettlesSafely(false, None, Routes[9].path);
    assert SettlesSafely(false, None, Routes[10].path);
    assert SettlesSafely(false, None, Routes[11].path);
    assert SettlesSafely(false, None, Routes[12].path);
    assert SettlesSafely(false, None, Routes[13].path);
  }

  lemma ListedRoutesSettleAsSuperAdmin(user: User)
    requires user.role == SuperAdmin
    ensures forall r :: r in Routes ==> SettlesSafely(false, Some(user), r.path)
  {
    Table();
    // one case per route
    assert SettlesSafely(false, Some(user), Routes[0].path);
    assert SettlesSafely(false, Some(user), Routes[1].path);
    assert SettlesSafely(false, Some(user), Routes[2].path);
    assert SettlesSafely(false, Some(user), Routes[3].path);
    assert SettlesSafely(false, Some(user), Routes[4].path);
    assert SettlesSafely(false, Some(user), Routes[5].path);
    assert SettlesSafely(false, Some(user), Routes[6].path);
    assert SettlesSafely(false, Some(user), Routes[7].path);
    assert SettlesSafely(false, Some(user), Routes[8].path);
    assert SettlesSafely(false, Some(user), Routes[9].path);
    assert SettlesSafely(false, Some(user), Routes[10].path);
    assert SettlesSafely(false, Some(user), Routes[11].path);
    assert SettlesSafely(false, Some(user), Routes[12].path);
    assert SettlesSafely(false, Some(user), Routes[13].path);
  }

  lemma ListedRoutesSettleAsAdmin(user: User)
    requires user.role == Admin
    ensures forall r :: r in Routes ==> SettlesSafely(false, Some(user), r.path)
  {
    Table();
    // one case per route
    assert SettlesSafely(false, Some(user), Routes[0].path);
    assert SettlesSafely(false, Some(user), Routes[1].path);
    assert SettlesSafely(false, Some(user), Routes[2].path);
    assert SettlesSafely(false, Some(user), Routes[3].path);
    assert SettlesSafely(false, Some(user), Routes[4].path);
    assert SettlesSafely(false, Some(user), Routes[5].path);
    assert SettlesSafely(false, Some(user), Routes[6].path);
    assert SettlesSafely(false, Some(user), Routes[7].path);
    assert SettlesSafely(false, Some(user), Routes[8].path);
    assert SettlesSafely(false, Some(user), Routes[9].path);
    assert SettlesSafely(false, Some(user), Routes[10].path);
    assert SettlesSafely(false, Some(user), Routes[11].path);
    assert SettlesSafely(false, Some(user), Routes[12].path);
    assert SettlesSafely(false, Some(user), Routes[13].path);
  }

  lemma ListedRoutesSettleAsStudent(user: User)
    requires user.role == Student
    ensures forall r :: r in Routes ==> SettlesSafely(false, Some(user), r.path)
  {
    Table();
    // one case per route
    assert SettlesSafely(false, Some(user), Routes[0].path);
    assert SettlesSafely(false, Some(user), Routes[1].path);
    assert SettlesSafely(false, Some(user), Routes[2].path);
    assert SettlesSafely(false, Some(user), Routes[3].path);
    assert SettlesSafely(false, Some(user), Routes[4].path);
    assert SettlesSafely(false, Some(user), Routes[5].path);
    assert SettlesSafely(false, Some(user), Routes[6].path);
    assert SettlesSafely(false, Some(user), Routes[7].path);
    assert SettlesSafely(false, Some(user), Routes[8].path);
    assert SettlesSafely(false, Some(user), Routes[9].path);
    assert SettlesSafely(false, Some(user), Routes[10].path);
    assert SettlesSafely(false, Some(user), Routes[11].path);
    assert SettlesSafely(false, Some(user), Routes[12].path);
    assert SettlesSafely(false, Some(user), Routes[13].path);
  }

  lemma ListedRoutesSettleSignedIn(user: User)
    ensures forall r :: r in Routes ==> SettlesSafely(false, Some(user), r.path)
  {
    match user.role
    case SuperAdmin => ListedRoutesSettleAsSuperAdmin(user);
    case Admin => ListedRoutesSettleAsAdmin(user);
    case Student => ListedRoutesSettleAsStudent(user);
  }

  /**
   * Whatever the path and the session, a visit ends within two redirects, and
   * never on a screen the session's role may not see.
   */
  lemma EveryVisitSettlesSafely(isLoading: bool, user: Option<User>, path: string)
    ensures SettlesSafely(isLoading, user, path)
  {
    FindRouteFirstMatch(Routes, path, 0);
    match FindRoute(Routes, path, 0)
    case None =>
    case Some(i) =>
      if isLoading {
        ListedRoutesSettleWhileLoading(user);
      } else if user.None? {
        ListedRoutesSettleSignedOut();
      } else {
        ListedRoutesSettleSignedIn(user.value);
      }
      assert Routes[i] in Routes;
  }
}

