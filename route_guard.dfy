/** The front end's request middleware: a request for a protected page
    without a session cookie is sent to the sign-in page, which is told
    where to return; every other request goes through. */
module RouteGuard {
  import opened Wrappers
  import opened Text

  /** `NextResponse.next()` or a redirect to `path?redirect=<back>`. */
  datatype Decision = Next | Redirect(path: string, back: string)

  const ProtectedRoutes: seq<string> := ["/dashboard"]
  const SignInPath := "/signin"

  /** `protectedRoutes.some(route => pathname.startsWith(route))`. */
  predicate IsProtected(pathname: string) {
    exists i :: 0 <= i < |ProtectedRoutes| && StartsWith(pathname, ProtectedRoutes[i])
  }

  /** `!token`: an absent cookie and an empty one are the same. */
  predicate MissingToken(token: Option<string>) {
    token.None? || token.value == ""
  }

  /** `middleware`: redirect exactly when the path is protected and the
      token is missing; the redirect always goes to the sign-in page and
      carries the requested path. */
  function Middleware(pathname: string, token: Option<string>): (d: Decision)
    ensures d.Redirect? <==> StartsWith(pathname, "/dashboard") && MissingToken(token)
    ensures d.Redirect? ==> d.path == SignInPath && d.back == pathname
  {
    ProtectedIffDashboardPrefix(pathname);
    if IsProtected(pathname) && MissingToken(token) then Redirect(SignInPath, pathname) else Next
  }

  /** With the one protected route, protection is a prefix test for
      `/dashboard`. */
  lemma ProtectedIffDashboardPrefix(pathname: string)
    ensures IsProtected(pathname) <==> StartsWith(pathname, "/dashboard")
  {
    if StartsWith(pathname, "/dashboard") {
      assert StartsWith(pathname, ProtectedRoutes[0]);
    }
  }

  /** The test is a prefix test, not a path-segment test: `/dashboardX` is
      guarded too, while the public routes are never consulted. */
  lemma PrefixNotSegment()
    ensures Middleware("/dashboardX", None) == Redirect(SignInPath, "/dashboardX")
    ensures Middleware("/dashboard/tasks", Some("")) == Redirect(SignInPath, "/dashboard/tasks")
    ensures Middleware("/signin", None) == Next && Middleware("/", None) == Next
  {
    assert StartsWith("/dashboardX", ProtectedRoutes[0]);
    assert StartsWith("/dashboard/tasks", ProtectedRoutes[0]);
  }

  /** The token is not checked: any non-empty value lets any path through. */
  lemma AnyTokenPasses(pathname: string, token: string)
    requires token != ""
    ensures Middleware(pathname, Some(token)) == Next
  {
  }

  /** Unprotected paths pass whatever the token. */
  lemma UnprotectedPasses(pathname: string, token: Option<string>)
    requires !StartsWith(pathname, "/dashboard")
    ensures Middleware(pathname, token) == Next
  {
  }
}
