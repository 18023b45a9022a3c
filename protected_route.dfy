/** The client's route guard: what a protected page renders for the
    signed-in user. */
module ProtectedRoute {
  import opened Common
  import opened Ledger

  /** What the guard returns: the loading placeholder, a redirect, or the
      protected page itself. */
  datatype Screen = Loading | RedirectTo(path: string) | Children

  /** The page a user of `role` is sent to when a page is not theirs. */
  function HomeOf(role: Role): (r: string)
    ensures r == "/artist" <==> role == Artist
    ensures r == "/artist" || r == "/collector"
  {
    if role == Artist then "/artist" else "/collector"
  }

  /** ProtectedRoute: `user` is the signed-in user's role, if anyone is
      signed in; `requiredRole` the page's own requirement, if any. */
  function Guard(isLoading: bool, user: Option<Role>, requiredRole: Option<Role>): (r: Screen)
    ensures isLoading <==> r == Loading
    ensures !isLoading && user.None? <==> r == RedirectTo("/login")
    ensures r == Children <==> !isLoading && user.Some? && (requiredRole.None? || requiredRole.value == user.value)
    ensures r.RedirectTo? && user.Some? ==> r.path == HomeOf(user.value) && requiredRole.Some? && requiredRole.value != user.value
  {
    if isLoading then Loading
    else if user.None? then RedirectTo("/login")
    else if requiredRole.Some? && user.value != requiredRole.value then RedirectTo(HomeOf(user.value))
    else Children
  }

  /** The role each role-restricted page requires. */
  function RequiredRoleOf(path: string): Option<Role>
  {
    if path == "/artist" then Some(Artist)
    else if path == "/collector" then Some(Collector)
    else None
  }

  /** An artist or a collector turned away from a page lands on a page
      that admits them. */
  lemma RedirectAdmits(role: Role, requiredRole: Option<Role>)
    requires role != Admin
    requires Guard(false, Some(role), requiredRole).RedirectTo?
    ensures Guard(false, Some(role), RequiredRoleOf(Guard(false, Some(role), requiredRole).path)) == Children
  {
  }

  /** An administrator is admitted by no role-restricted page: the
      redirect for them leads to the collector page, which redirects them
      to itself again. */
  lemma AdminRedirectsToItself(requiredRole: Role)
    requires requiredRole != Admin
    ensures Guard(false, Some(Admin), Some(requiredRole)) == RedirectTo("/collector")
    ensures Guard(false, Some(Admin), RequiredRoleOf("/collector")) == RedirectTo("/collector")
  {
  }
}
