/** The application shell: which paths hide the header, mobile navigation and footer, and which
    wrapper guards each page. */
module AppShell {
  import opened Common
  import opened AuthStore
  import opened RouteGuards

  const HiddenRoutes: seq<string> := ["/login", "/signup", "/forgot-password", "/reset-password", "/verify-email"]

  /** `hiddenRoutes.some(route => pathname.startsWith(route))`. */
  predicate HideRoute(pathname: string)
  {
    exists i :: 0 <= i < |HiddenRoutes| && StartsWith(pathname, HiddenRoutes[i])
  }

  /** Which of header, mobile navigation and footer are rendered. */
  datatype Chrome = Chrome(header: bool, mobileNav: bool, footer: bool)

  function ChromeFor(pathname: string): (c: Chrome)
    ensures c.header <==> !HideRoute(pathname)
    ensures c.mobileNav <==> !HideRoute(pathname)
    ensures c.footer <==> !HideRoute(pathname)
  {
    var shown := !HideRoute(pathname);
    Chrome(shown, shown, shown)
  }

  /** Every reset link, whatever its token, is shown without the chrome. */
  lemma ResetLinksHideChrome(token: string)
    ensures HideRoute("/reset-password/" + token)
    ensures ChromeFor("/reset-password/" + token) == Chrome(false, false, false)
  {
    StartsWithAppend("/reset-password", "/" + token);
    assert "/reset-password/" + token == "/reset-password" + ("/" + token);
    assert StartsWith("/reset-password/" + token, HiddenRoutes[3]);
  }

  /** The test is a plain prefix test: "/loginx" is hidden too, while the home, listing, wishlist and
      admin pages are not. */
  lemma PrefixMatching()
    ensures HideRoute("/loginx")
    ensures !HideRoute("/") && !HideRoute("/books") && !HideRoute("/wishlist") && !HideRoute("/admin")
  {
    assert StartsWith("/loginx", HiddenRoutes[0]);
    NotHidden("/");
    NotHidden("/books");
    NotHidden("/wishlist");
    NotHidden("/admin");
  }

  /** Hiding is a prefix test: every path that extends a hidden path is hidden too. */
  lemma HideRouteExtends(pathname: string, suffix: string)
    requires HideRoute(pathname)
    ensures HideRoute(pathname + suffix)
  {
    var i :| 0 <= i < |HiddenRoutes| && StartsWith(pathname, HiddenRoutes[i]);
    assert (pathname + suffix)[..|HiddenRoutes[i]|] == pathname[..|HiddenRoutes[i]|];
    assert StartsWith(pathname + suffix, HiddenRoutes[i]);
  }

  lemma NotHidden(pathname: string)
    requires forall i :: 0 <= i < |HiddenRoutes| ==> |HiddenRoutes[i]| > |pathname| || pathname[1] != HiddenRoutes[i][1]
    requires |pathname| >= 2 || pathname == "/"
    ensures !HideRoute(pathname)
  {
    forall i | 0 <= i < |HiddenRoutes| ensures !StartsWith(pathname, HiddenRoutes[i]) {
      if |HiddenRoutes[i]| <= |pathname| {
        assert pathname[..|HiddenRoutes[i]|][1] != HiddenRoutes[i][1];
      }
    }
  }

  /** The wrapper each page sits in. */
  datatype Guard = Open | SignInForms | SignedInOnly | AdminOnly

  /** The page table, path pattern first. */
  const Pages: seq<(string, Guard)> := [
    ("/", Open),
    ("/signup", SignInForms),
    ("/login", SignInForms),
    ("/verify-email", Open),
    ("/forgot-password", SignInForms),
    ("/reset-password/:token", SignInForms),
    ("/genres/:slug", Open),
    ("/books", Open),
    ("/books/:slug", Open),
    ("/books/search", Open),
    ("/wishlist", SignedInOnly),
    ("/admin", AdminOnly)
  ]

  function Render(g: Guard, s: AuthState): (d: Decision)
    ensures g == Open ==> d == Decision(Children, None)
  {
    match g
    case Open => Decision(Children, None)
    case SignInForms => RedirectAuthUser(s)
    case SignedInOnly => UserNotLogged(s)
    case AdminOnly => CheckUserRole(s)
  }

  /** The dashboard renders only for an admin once the session check is over. */
  lemma DashboardOnlyForAdmins(s: AuthState)
    ensures Pages[11] == ("/admin", AdminOnly)
    ensures Render(Pages[11].1, s).view == Children <==> !s.isCheckingAuth && s.user.Some? && s.user.value.role == "admin"
  {
  }

  /** A successful logout leaves the session flag set, so the wishlist page still renders afterwards. */
  lemma WishlistRendersAfterLogout(s: AuthState, d: AuthData)
    requires s.isAuthenticated
    ensures Pages[10] == ("/wishlist", SignedInOnly)
    ensures Render(Pages[10].1, LogoutSpec(s, Succeeded(d))).view == Children
  {
    LogoutKeepsSessionFlag(s, d);
  }

  /** After a successful logout the sign-in forms render again, since no user is left to be verified. */
  lemma FormsReachableAfterLogout(s: AuthState, d: AuthData)
    ensures Render(SignInForms, LogoutSpec(s, Succeeded(d))).view == Children
  {
  }
}
