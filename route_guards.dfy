/** The three wrappers that decide, from the session store, whether a page renders, waits or
    redirects home. */
module RouteGuards {
  import opened Common
  import opened AuthStore

  datatype View = Nothing | RedirectHome | Children

  /** What a wrapper renders, and the error toast it raises, if any. */
  datatype Decision = Decision(view: View, toast: Option<string>)

  const NotSignedInToast := "You must be authenticated to do this!"
  const AdminOnlyToast := "Forbidden. Admin only!"

  /** RedirectAuthUser: a signed-in user with a verified email is sent home. */
  function RedirectAuthUser(s: AuthState): (d: Decision)
    ensures d.view == RedirectHome <==> s.isAuthenticated && s.user.Some? && s.user.value.isVerified
    ensures d.view != RedirectHome ==> d.view == Children
    ensures d.toast.None?
  {
    if s.isAuthenticated && s.user.Some? && s.user.value.isVerified then Decision(RedirectHome, None)
    else Decision(Children, None)
  }

  /** UserNotLogged: without a session, a toast and a redirect home. */
  function UserNotLogged(s: AuthState): (d: Decision)
    ensures d.view == RedirectHome <==> !s.isAuthenticated
    ensures d.view == Children <==> s.isAuthenticated
    ensures d.toast.Some? <==> !s.isAuthenticated
    ensures d.toast.Some? ==> d.toast.value == NotSignedInToast
  {
    if !s.isAuthenticated then Decision(RedirectHome, Some(NotSignedInToast))
    else Decision(Children, None)
  }

  /** CheckUserRole: nothing while the session check runs, then admins only. */
  function CheckUserRole(s: AuthState): (d: Decision)
    ensures s.isCheckingAuth ==> d == Decision(Nothing, None)
    ensures !s.isCheckingAuth ==> (d.view == Children <==> s.user.Some? && s.user.value.role == "admin")
    ensures !s.isCheckingAuth && d.view != Children ==> d == Decision(RedirectHome, Some(AdminOnlyToast))
  {
    if s.isCheckingAuth then Decision(Nothing, None)
    else if !(s.user.Some? && s.user.value.role == "admin") then Decision(RedirectHome, Some(AdminOnlyToast))
    else Decision(Children, None)
  }

  /** Each wrapper reads only its own fields of the store. */
  lemma GuardsReadOnlyTheirFields(s: AuthState, t: AuthState)
    ensures s.isAuthenticated == t.isAuthenticated && (s.user.Some? && s.user.value.isVerified <==> t.user.Some? && t.user.value.isVerified)
            ==> RedirectAuthUser(s) == RedirectAuthUser(t)
    ensures s.isAuthenticated == t.isAuthenticated ==> UserNotLogged(s) == UserNotLogged(t)
    ensures s.isCheckingAuth == t.isCheckingAuth && (s.user.Some? && s.user.value.role == "admin" <==> t.user.Some? && t.user.value.role == "admin")
            ==> CheckUserRole(s) == CheckUserRole(t)
  {
  }

  /** A signed-in user whose email is not verified still reaches the sign-in forms. */
  lemma UnverifiedUserSeesForms(s: AuthState)
    requires s.isAuthenticated && s.user.Some? && !s.user.value.isVerified
    ensures RedirectAuthUser(s).view == Children
  {
  }
}
