// client/src/lib/protected-route.tsx: what a protected route renders for the
// signed-in state and the current location.
module ProtectedRoute {
  import opened Wrappers
  import opened Text
  import opened Schema

  datatype RouteOutcome = Spinner | RedirectTo(path: string) | RenderComponent

  const ChangePasswordPath := "/admin-aut/change-password"

  /**
   * `ProtectedRoute`: the spinner while the session loads, `/auth` without a
   * user, the password change for a first login anywhere else, and the
   * component otherwise.
   */
  function Decide(isLoading: bool, user: Option<User>, location: string): RouteOutcome {
    if isLoading then Spinner
    else if user.None? then RedirectTo("/auth")
    else if user.value.isFirstLogin && !Contains(location, ChangePasswordPath) then RedirectTo(ChangePasswordPath)
    else RenderComponent
  }

  /** Each outcome happens exactly in its own case. */
  lemma DecideSpec(isLoading: bool, user: Option<User>, location: string)
    ensures Decide(isLoading, user, location) == Spinner <==> isLoading
    ensures Decide(isLoading, user, location) == RedirectTo("/auth") <==> !isLoading && user.None?
    ensures Decide(isLoading, user, location) == RedirectTo(ChangePasswordPath) <==>
      !isLoading && user.Some? && user.value.isFirstLogin && !Contains(location, ChangePasswordPath)
    ensures Decide(isLoading, user, location) == RenderComponent <==>
      !isLoading && user.Some? && (!user.value.isFirstLogin || Contains(location, ChangePasswordPath))
  {
  }

  /** A first-login user reaches a component only on the password-change page (or a path containing it). */
  lemma FirstLoginConfined(user: User, location: string)
    requires user.isFirstLogin
    ensures Decide(false, Some(user), location) == RenderComponent ==> Contains(location, ChangePasswordPath)
    ensures Decide(false, Some(user), ChangePasswordPath) == RenderComponent
  {
    assert OccursAt(ChangePasswordPath, ChangePasswordPath, 0);
  }

  /** Following the redirect settles: at the redirect target the route no longer redirects there. */
  lemma RedirectSettles(isLoading: bool, user: Option<User>, location: string)
    requires Decide(isLoading, user, location) == RedirectTo(ChangePasswordPath)
    ensures Decide(isLoading, user, ChangePasswordPath) == RenderComponent
  {
    assert OccursAt(ChangePasswordPath, ChangePasswordPath, 0);
  }
}
