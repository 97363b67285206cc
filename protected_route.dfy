/**
 * The route guard (src/components/ProtectedRoute.tsx): a decision over the
 * loading flag, the current user and the route's optional list of allowed roles.
 */
module ProtectedRoute {
  import opened Common
  import opened AuthContext

  datatype Decision =
    | ShowLoading                  // the "Loading..." placeholder
    | RedirectToAuth(from: string) // to `/auth`, carrying the requested location
    | RedirectToUnauthorized       // to `/unauthorized`, with no return state
    | RenderChildren               // the protected content

  /** `allowedRoles` is absent, or lists the role. */
  predicate Permits(allowedRoles: Option<seq<Role>>, role: Role) {
    allowedRoles.None? || role in allowedRoles.value
  }

  /** The guard, rendered at `location` for the given session. */
  function Decide(isLoading: bool, user: Option<User>, allowedRoles: Option<seq<Role>>, location: string): (d: Decision)
    ensures d == ShowLoading <==> isLoading
    ensures d == RedirectToAuth(location) <==> !isLoading && !IsAuthenticated(user)
    ensures d == RedirectToUnauthorized
            <==> !isLoading && IsAuthenticated(user) && !Permits(allowedRoles, user.value.role)
    ensures d == RenderChildren
            <==> !isLoading && IsAuthenticated(user) && Permits(allowedRoles, user.value.role)
  {
    if isLoading then ShowLoading
    else if !IsAuthenticated(user) then RedirectToAuth(location)
    else if allowedRoles.Some? && user.Some? && user.value.role !in allowedRoles.value then RedirectToUnauthorized
    else RenderChildren
  }

  /** Every input gets exactly one of the four outcomes, and a redirect to `/auth` always carries the location. */
  lemma DecideTotal(isLoading: bool, user: Option<User>, allowedRoles: Option<seq<Role>>, location: string)
    ensures var d := Decide(isLoading, user, allowedRoles, location);
      Count(d == ShowLoading) + Count(d == RedirectToAuth(location))
      + Count(d == RedirectToUnauthorized) + Count(d == RenderChildren) == 1
  {
  }

  /** An empty role list turns every signed-in user away. */
  lemma EmptyRolesDenyAll(user: User, location: string)
    ensures Decide(false, Some(user), Some([]), location) == RedirectToUnauthorized
  {
  }

  /** Granting access with a role list, the guard also grants it with any longer list. */
  lemma GrantMonotone(user: Option<User>, roles: seq<Role>, more: seq<Role>, location: string)
    requires forall r :: r in roles ==> r in more
    requires Decide(false, user, Some(roles), location) == RenderChildren
    ensures Decide(false, user, Some(more), location) == RenderChildren
  {
  }
}
