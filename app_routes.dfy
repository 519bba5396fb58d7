/**
 * The application's routes: the public pages, the protected pages with the
 * one role each admits, the catch-all redirect home, and the guard that
 * stands in front of every protected page.
 */
module AppRoutes {
  import opened Wrappers

  /** The signed-in user, as far as routing looks at it. */
  datatype User = User(role: string)

  /** What a route shows: the page itself, or a redirect elsewhere. */
  datatype Outcome = Render | RedirectTo(path: string)

  const LoginPath: string := "/login"
  const HomePath: string := "/"

  const Student: string := "student"
  const Institution: string := "institution"
  const Company: string := "company"
  const Admin: string := "admin"

  const Roles: seq<string> := [Student, Institution, Company, Admin]

  /** `ProtectedRoute`: no user goes to the login page; a user whose role the
      route does not list goes home; everyone else sees the page. A list of
      roles, even an empty one, is checked; only an absent list lets every
      signed-in user through. */
  function Guard(currentUser: Option<User>, allowedRoles: Option<seq<string>>): (r: Outcome)
    ensures currentUser.None? ==> r == RedirectTo(LoginPath)
    ensures currentUser.Some? && allowedRoles.Some? && currentUser.value.role !in allowedRoles.value ==>
      r == RedirectTo(HomePath)
    ensures r == Render <==>
      currentUser.Some? && (allowedRoles.None? || currentUser.value.role in allowedRoles.value)
    ensures r.RedirectTo? ==> r.path in {LoginPath, HomePath}
  {
    if currentUser.None? then RedirectTo(LoginPath)
    else if allowedRoles.Some? && currentUser.value.role !in allowedRoles.value then RedirectTo(HomePath)
    else Render
  }

  /** With no signed-in user the guard sends to the login page whatever the
      route allows, and with an absent role list it admits every user. */
  lemma GuardCases(allowedRoles: Option<seq<string>>, user: User)
    ensures Guard(None, allowedRoles) == RedirectTo(LoginPath)
    ensures Guard(Some(user), None) == Render
    ensures Guard(Some(user), Some([])) == RedirectTo(HomePath)
  {
  }

  datatype Route = Route(path: string, allowedRoles: seq<string>)

  const PublicPaths: seq<string> := [HomePath, LoginPath, "/register"]

  const StudentRoutes: seq<Route> := [
    Route("/student/dashboard", [Student]),
    Route("/student/profile", [Student]),
    Route("/student/apply", [Student]),
    Route("/student/grades", [Student]),
    Route("/student/jobs", [Student]),
    Route("/student/admissions", [Student])
  ]

  const InstitutionRoutes: seq<Route> := [
    Route("/institution/dashboard", [Institution]),
    Route("/institution/courses", [Institution]),
    Route("/institution/faculties", [Institution]),
    Route("/institution/applications", [Institution]),
    Route("/institution/profile", [Institution]),
    Route("/institution/admissions", [Institution])
  ]

  const CompanyRoutes: seq<Route> := [
    Route("/company/dashboard", [Company]),
    Route("/company/post-job", [Company]),
    Route("/company/applicants", [Company]),
    Route("/company/profile", [Company])
  ]

  const AdminRoutes: seq<Route> := [
    Route("/admin/dashboard", [Admin]),
    Route("/admin/institutions", [Admin]),
    Route("/admin/companies", [Admin]),
    Route("/admin/reports", [Admin])
  ]

  /** The protected routes, in the order they are declared. */
  const ProtectedRoutes: seq<Route> := StudentRoutes + InstitutionRoutes + CompanyRoutes + AdminRoutes

  /** The path segment that names a role's part of the application. */
  function Area(role: string): string {
    "/" + role + "/"
  }

  /** The protected route declared for `path`, if any. */
  function RouteOf(path: string): (r: Option<Route>)
    ensures r.Some? ==> r.value in ProtectedRoutes && r.value.path == path
    ensures r.None? ==> forall i :: 0 <= i < |ProtectedRoutes| ==> ProtectedRoutes[i].path != path
  {
    FirstRoute(path, ProtectedRoutes)
  }

  function FirstRoute(path: string, routes: seq<Route>): (r: Option<Route>)
    ensures r.Some? ==> r.value in routes && r.value.path == path
    ensures r.None? ==> forall i :: 0 <= i < |routes| ==> routes[i].path != path
    decreases |routes|
  {
    if routes == [] then None
    else if routes[0].path == path then Some(routes[0])
    else
      assert forall i :: 1 <= i < |routes| ==> routes[i] == routes[1..][i - 1];
      FirstRoute(path, routes[1..])
  }

  /** What the router shows at `path`: a public page as is, a protected page
      behind its guard, and anything else redirects home. */
  function Resolve(path: string, currentUser: Option<User>): (r: Outcome)
    ensures path in PublicPaths ==> r == Render
    ensures path !in PublicPaths && RouteOf(path).None? ==> r == RedirectTo(HomePath)
    ensures path !in PublicPaths && RouteOf(path).Some? ==>
      r == Guard(currentUser, Some(RouteOf(path).value.allowedRoles))
  {
    if path in PublicPaths then Render
    else match RouteOf(path)
      case None => RedirectTo(HomePath)
      case Some(route) => Guard(currentUser, Some(route.allowedRoles))
  }

  /** A route admits one known role, its path lies in that role's area,
      and it is not a public page. */
  predicate AdmitsOneRole(route: Route) {
    && |route.allowedRoles| == 1
    && route.allowedRoles[0] in Roles
    && Area(route.allowedRoles[0]) <= route.path
    && route.path !in PublicPaths
  }

  /** Every route of a group admits exactly `role` and lies in its area. */
  predicate InArea(routes: seq<Route>, role: string) {
    forall i :: 0 <= i < |routes| ==> routes[i].allowedRoles == [role] && Area(role) <= routes[i].path
  }

  predicate AllAdmitOneRole(routes: seq<Route>) {
    forall i :: 0 <= i < |routes| ==> AdmitsOneRole(routes[i])
  }

  lemma StudentRoutesInArea()
    ensures InArea(StudentRoutes, Student)
  {
    assert Area(Student) == "/student/";
  }

  lemma InstitutionRoutesInArea()
    ensures InArea(InstitutionRoutes, Institution)
  {
    assert Area(Institution) == "/institution/";
  }

  lemma CompanyRoutesInArea()
    ensures InArea(CompanyRoutes, Company)
  {
    assert Area(Company) == "/company/";
  }

  lemma AdminRoutesInArea()
    ensures InArea(AdminRoutes, Admin)
  {
    assert Area(Admin) == "/admin/";
  }

  lemma GroupAdmitsOneRole(routes: seq<Route>, role: string)
    requires role in Roles && InArea(routes, role)
    ensures AllAdmitOneRole(routes)
  {
    forall i | 0 <= i < |routes|
      ensures AdmitsOneRole(routes[i])
    {
      var p := routes[i].path;
      assert Area(role) <= p;
      assert p[0] == '/' && |p| > 1 && p[1] != '/';
      assert p != HomePath && p != "/register" && p != LoginPath by {
        assert p[1..|Area(role)| - 1] == role;
      }
    }
  }

  lemma AllAdmitOneRoleConcat(a: seq<Route>, b: seq<Route>)
    requires AllAdmitOneRole(a) && AllAdmitOneRole(b)
    ensures AllAdmitOneRole(a + b)
  {
    forall i | 0 <= i < |a + b|
      ensures AdmitsOneRole((a + b)[i])
    {
      if i >= |a| {
        assert (a + b)[i] == b[i - |a|];
      }
    }
  }

  /** Every protected route admits exactly one role, a known one, and its
      path lies in that role's area; no protected path is also public. */
  lemma RoutesAdmitOneRole()
    ensures AllAdmitOneRole(ProtectedRoutes)
  {
    StudentRoutesInArea();
    InstitutionRoutesInArea();
    CompanyRoutesInArea();
    AdminRoutesInArea();
    GroupAdmitsOneRole(StudentRoutes, Student);
    GroupAdmitsOneRole(InstitutionRoutes, Institution);
    GroupAdmitsOneRole(CompanyRoutes, Company);
    GroupAdmitsOneRole(AdminRoutes, Admin);
    AllAdmitOneRoleConcat(StudentRoutes, InstitutionRoutes);
    AllAdmitOneRoleConcat(StudentRoutes + InstitutionRoutes, CompanyRoutes);
    AllAdmitOneRoleConcat(StudentRoutes + InstitutionRoutes + CompanyRoutes, AdminRoutes);
  }

  /** A path lies in the area of at most one role. */
  lemma AreasDisjoint(path: string, a: string, b: string)
    requires a in Roles && b in Roles
    requires Area(a) <= path && Area(b) <= path
    ensures a == b
  {
    assert Area(a)[1] == path[1] == Area(b)[1];
  }

  /** Looking a path up in routes that each admit one role finds a route
      that admits a known role exactly when the path lies in its area. */
  lemma FirstRouteAdmits(routes: seq<Route>, route: Route, role: string)
    requires AllAdmitOneRole(routes) && route in routes && role in Roles
    ensures FirstRoute(route.path, routes).Some?
    ensures role in FirstRoute(route.path, routes).value.allowedRoles <==> Area(role) <= route.path
    ensures route.path !in PublicPaths
  {
    var k :| 0 <= k < |routes| && routes[k] == route;
    assert AdmitsOneRole(route);
    var r := FirstRoute(route.path, routes).value;
    var j :| 0 <= j < |routes| && routes[j] == r;
    assert AdmitsOneRole(r);
    var a := r.allowedRoles[0];
    assert r.allowedRoles == [a];
    if Area(role) <= route.path {
      AreasDisjoint(route.path, role, a);
    }
    assert role in r.allowedRoles <==> role == a;
  }

  /** A signed-in user with a known role may open a protected page exactly
      when the page lies in that role's area; a signed-out visitor is always
      sent to the login page. */
  lemma ProtectedAccess(route: Route, role: string)
    requires route in ProtectedRoutes && role in Roles
    ensures Resolve(route.path, Some(User(role))) == Render <==> Area(role) <= route.path
    ensures Resolve(route.path, None) == RedirectTo(LoginPath)
    ensures RouteOf(route.path).Some?
  {
    RoutesAdmitOneRole();
    FirstRouteAdmits(ProtectedRoutes, route, role);
  }

  /** A route of one of the four groups is a protected route. */
  lemma InGroup(route: Route)
    requires route in StudentRoutes || route in InstitutionRoutes || route in CompanyRoutes || route in AdminRoutes
    ensures route in ProtectedRoutes
  {
  }

  /** The dashboard of each role. */
  function DashboardPath(role: string): string {
    Area(role) + "dashboard"
  }

  lemma DashboardPathsSpelled()
    ensures DashboardPath(Student) == "/student/dashboard"
    ensures DashboardPath(Institution) == "/institution/dashboard"
    ensures DashboardPath(Company) == "/company/dashboard"
    ensures DashboardPath(Admin) == "/admin/dashboard"
  {
    assert Area(Student) == "/student/";
    assert Area(Institution) == "/institution/";
    assert Area(Company) == "/company/";
    assert Area(Admin) == "/admin/";
  }

  /** Each role's dashboard is declared among the protected routes, for
      that role alone. */
  lemma DashboardDeclared(role: string)
    requires role in Roles
    ensures Route(DashboardPath(role), [role]) in ProtectedRoutes
  {
    var route := Route(DashboardPath(role), [role]);
    DashboardPathsSpelled();
    if role == Student {
      assert StudentRoutes[0] == route;
    } else if role == Institution {
      assert InstitutionRoutes[0] == route;
    } else if role == Company {
      assert CompanyRoutes[0] == route;
    } else {
      assert AdminRoutes[0] == route;
    }
    InGroup(route);
  }

  /** A role's dashboard lies in that role's area and in no other's. */
  lemma DashboardInArea(role: string, other: string)
    requires role in Roles && other in Roles
    ensures Area(other) <= DashboardPath(role) <==> other == role
  {
    if Area(other) <= DashboardPath(role) {
      AreasDisjoint(DashboardPath(role), role, other);
    }
  }

  /** Each role's dashboard admits that role and no other known role. */
  lemma DashboardAdmitsItsRole(role: string, other: string)
    requires role in Roles && other in Roles
    ensures RouteOf(DashboardPath(role)).Some?
    ensures Resolve(DashboardPath(role), Some(User(other))) == Render <==> other == role
  {
    DashboardDeclared(role);
    ProtectedAccess(Route(DashboardPath(role), [role]), other);
    DashboardInArea(role, other);
  }

  /** A user whose role is none of the four sees no protected page: every
      protected route admits one known role only. */
  lemma UnknownRoleSeesNoProtectedPage(path: string, role: string)
    requires role !in Roles && path !in PublicPaths
    ensures Resolve(path, Some(User(role))) == RedirectTo(HomePath)
  {
    RoutesAdmitOneRole();
    if RouteOf(path).Some? {
      var route := RouteOf(path).value;
      var k :| 0 <= k < |ProtectedRoutes| && ProtectedRoutes[k] == route;
      assert AdmitsOneRole(route);
    }
  }
}
