/**
 * The header's "Dashboard" link: the dashboard of the signed-in user's
 * role, or `#` when there is none to go to.
 */
module Header {
  import opened Wrappers
  import opened AppRoutes

  const NoLink: string := "#"

  /** `getDashboardLink` */
  function DashboardLink(currentUser: Option<User>): (r: string)
    ensures currentUser.None? ==> r == NoLink
    ensures currentUser.Some? && currentUser.value.role in Roles ==> r == DashboardPath(currentUser.value.role)
    ensures currentUser.Some? && currentUser.value.role !in Roles ==> r == NoLink
  {
    if currentUser.None? then NoLink
    else
      var role := currentUser.value.role;
      DashboardPathsSpelled();
      if role == Student then "/student/dashboard"
      else if role == Institution then "/institution/dashboard"
      else if role == Company then "/company/dashboard"
      else if role == Admin then "/admin/dashboard"
      else NoLink
  }

  /** The link is always one of five strings. */
  lemma DashboardLinkValues(currentUser: Option<User>)
    ensures DashboardLink(currentUser) in
      {NoLink, "/student/dashboard", "/institution/dashboard", "/company/dashboard", "/admin/dashboard"}
  {
  }

  /** Whenever the link leads somewhere, it leads to a page the router shows
      that user rather than redirecting; otherwise it is `#`. */
  lemma DashboardLinkOpens(currentUser: Option<User>)
    ensures DashboardLink(currentUser) != NoLink ==> Resolve(DashboardLink(currentUser), currentUser) == Render
    ensures DashboardLink(currentUser) == NoLink <==> currentUser.None? || currentUser.value.role !in Roles
  {
    if currentUser.Some? && currentUser.value.role in Roles {
      var role := currentUser.value.role;
      DashboardAdmitsItsRole(role, role);
      assert DashboardPath(role) != NoLink;
    }
  }
}
