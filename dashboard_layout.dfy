/**
 * The dashboard shell (src/components/DashboardLayout.tsx): the role-indexed
 * navigation entries and the logout handler.
 */
module DashboardLayout {
  import opened Common
  import opened AuthContext
  import App

  /** A sidebar entry; the icon is presentation only and is not modelled. */
  datatype NavItem = NavItem(name: string, href: string)

  const CommonItems: seq<NavItem> := [NavItem("Dashboard", "/"), NavItem("My Profile", "/profile")]

  /** `getNavItems()`, over the flags the layout reads. */
  function NavItems(isSuperAdmin: bool, isAdmin: bool): seq<NavItem> {
    if isSuperAdmin then
      CommonItems + [
        NavItem("Admins", "/admins"),
        NavItem("Students", "/students"),
        NavItem("Departments", "/departments"),
        NavItem("Settings", "/settings"),
        NavItem("Analytics", "/analytics")]
    else if isAdmin then
      CommonItems + [
        NavItem("Students", "/students"),
        NavItem("Portfolios", "/portfolios"),
        NavItem("Department", "/department"),
        NavItem("Analytics", "/analytics")]
    else
      CommonItems + [
        NavItem("Portfolio", "/portfolio"),
        NavItem("Projects", "/projects"),
        NavItem("Achievements", "/achievements")]
  }

  function NavItemsFor(user: Option<User>): seq<NavItem> {
    NavItems(IsSuperAdmin(user), IsAdmin(user))
  }

  function Names(items: seq<NavItem>): (names: seq<string>)
    ensures |names| == |items|
    ensures forall i :: 0 <= i < |items| ==> names[i] == items[i].name
  {
    if items == [] then [] else [items[0].name] + Names(items[1..])
  }

  /** Every list starts with Dashboard and My Profile. */
  lemma NavStartsWithCommon(user: Option<User>)
    ensures |NavItemsFor(user)| >= 2 && NavItemsFor(user)[..2] == CommonItems
  {
  }

  const SuperAdminNames: seq<string> :=
    ["Dashboard", "My Profile", "Admins", "Students", "Departments", "Settings", "Analytics"]
  const AdminNames: seq<string> := ["Dashboard", "My Profile", "Students", "Portfolios", "Department", "Analytics"]
  const StudentNames: seq<string> := ["Dashboard", "My Profile", "Portfolio", "Projects", "Achievements"]

  /** The entries each role sees, in order; the student list is also what a signed-out layout shows. */
  lemma NavEntriesPerRole(user: Option<User>)
    ensures IsSuperAdmin(user) ==> Names(NavItemsFor(user)) == SuperAdminNames
    ensures IsAdmin(user) ==> Names(NavItemsFor(user)) == AdminNames
    ensures IsStudent(user) || !IsAuthenticated(user) ==> Names(NavItemsFor(user)) == StudentNames
  {
    var names := Names(NavItemsFor(user));
    var expected := if IsSuperAdmin(user) then SuperAdminNames else if IsAdmin(user) then AdminNames else StudentNames;
    assert |names| == |expected|;
    forall i | 0 <= i < |names| ensures names[i] == expected[i] {
    }
  }

  /** The hrefs of a list are pairwise distinct (they are the React keys). */
  lemma NavHrefsDistinct(user: Option<User>)
    ensures var items := NavItemsFor(user);
      forall i, j :: 0 <= i < j < |items| ==> items[i].href != items[j].href
  {
  }

  /** Opening the entry lands the user on a content screen. */
  predicate LeadsToContent(user: User, item: NavItem) {
    var landing := App.OpenPath(false, Some(user), item.href);
    landing.Landed? && App.IsContent(landing.screen)
  }

  lemma SuperAdminEntriesReachContent(user: User)
    requires user.role == SuperAdmin
    ensures forall item :: item in NavItemsFor(Some(user)) ==> LeadsToContent(user, item)
  {
    App.Table();
    var items := NavItemsFor(Some(user));
    // one case per entry
    assert LeadsToContent(user, items[0]);
    assert LeadsToContent(user, items[1]);
    assert LeadsToContent(user, items[2]);
    assert LeadsToContent(user, items[3]);
    assert LeadsToContent(user, items[4]);
    assert LeadsToContent(user, items[5]);
    assert LeadsToContent(user, items[6]);
  }

  lemma AdminEntriesReachContent(user: User)
    requires user.role == Admin
    ensures forall item :: item in NavItemsFor(Some(user)) ==> LeadsToContent(user, item)
  {
    App.Table();
    var items := NavItemsFor(Some(user));
    // one case per entry
    assert LeadsToContent(user, items[0]);
    assert LeadsToContent(user, items[1]);
    assert LeadsToContent(user, items[2]);
    assert LeadsToContent(user, items[3]);
    assert LeadsToContent(user, items[4]);
    assert LeadsToContent(user, items[5]);
  }

  lemma StudentEntriesReachContent(user: User)
    requires user.role == Student
    ensures forall item :: item in NavItemsFor(Some(user)) ==> LeadsToContent(user, item)
  {
    App.Table();
    var items := NavItemsFor(Some(user));
    // one case per entry
    assert LeadsToContent(user, items[0]);
    assert LeadsToContent(user, items[1]);
    assert LeadsToContent(user, items[2]);
    assert LeadsToContent(user, items[3]);
    assert LeadsToContent(user, items[4]);
  }

  /** Every entry offered to a signed-in user opens a page the route table grants that user. */
  lemma EveryEntryReachesContent(user: User)
    ensures forall item :: item in NavItemsFor(Some(user)) ==> LeadsToContent(user, item)
  {
    match user.role
    case SuperAdmin => SuperAdminEntriesReachContent(user);
    case Admin => AdminEntriesReachContent(user);
    case Student => StudentEntriesReachContent(user);
  }

  /** `handleLogout`: log out, then navigate to `/auth`; returns the navigation target. */
  method HandleLogout(auth: AuthProvider) returns (target: string)
    modifies auth
    ensures auth.State() == LoggedOut(old(auth.State()))
    ensures target == "/auth"
  {
    auth.Logout();
    target := "/auth";
  }

  /** After logging out, the layout's target shows the login form. */
  lemma LogoutLandsOnLoginForm(s: Session)
    ensures App.OpenPath(false, LoggedOut(s).user, "/auth") == App.Landed("/auth", App.AuthScreen, None)
  {
    App.Table();
  }
}
