/**
 * The application's route table and the guard that wraps its private pages:
 * which screen a path shows, and whether a visitor sees it, a spinner or a
 * redirect.
 */
module Routes {
  import opened Types
  import opened Seqs
  import opened HomePage

  /** What the guard renders: the loading spinner, a redirect, or the wrapped page. */
  datatype Guard = Spinner | Navigate(to: string) | Children

  /**
   * Where a signed-in user goes by the `role` of the stored user record:
   * /admin, /operator, or / for any other value and for no value at all.
   * The login screen sends a user to the same place after signing in.
   */
  function RoleHome(storedRole: Option<string>): (to: string)
    ensures to == "/admin" <==> storedRole == Some(RoleName(Admin))
    ensures to == "/operator" <==> storedRole == Some(RoleName(Operator))
    ensures to != "/admin" && to != "/operator" ==> to == "/"
  {
    match storedRole
    case Some(r) =>
      if r == RoleName(Admin) then "/admin"
      else if r == RoleName(Operator) then "/operator"
      else "/"
    case None => "/"
  }

  /**
   * PrivateRoute. `isAuthorized` is the authentication context's check of the
   * signed-in user against a list of roles; `storedRole` is the role of the
   * user record kept in local storage.
   */
  function PrivateRoute(loading: bool, isAuthenticated: bool, isAuthorized: seq<string> -> bool,
                        allowedRoles: seq<string>, storedRole: Option<string>): (g: Guard)
    ensures loading ==> g == Spinner
    ensures !loading && !isAuthenticated ==> g == Navigate("/login")
    ensures !loading && isAuthenticated && allowedRoles != [] && !isAuthorized(allowedRoles) ==>
      g == Navigate(RoleHome(storedRole))
    ensures g == Children <==>
      !loading && isAuthenticated && (allowedRoles == [] || isAuthorized(allowedRoles))
  {
    if loading then Spinner
    else if !isAuthenticated then Navigate("/login")
    else if |allowedRoles| > 0 && !isAuthorized(allowedRoles) then Navigate(RoleHome(storedRole))
    else Children
  }

  /** The screens the router can show. */
  datatype Screen = LoginScreen | HomeScreen | BookingScreen(movieId: string) | AdminDashboard | MovieManagement

  /** A route's element: a public screen, a screen behind PrivateRoute, or a redirect. */
  datatype Element = Public(screen: Screen) | Private(allowedRoles: seq<string>, screen: Screen) | Redirect(to: string)

  /** A path segment as `:movieId` matches it: non-empty and without '/'. */
  predicate IsSegment(s: string) {
    s != [] && forall i :: 0 <= i < |s| ==> s[i] != '/'
  }

  /** The route table, tried from the top; anything else falls through to `*`, which redirects home. */
  function Route(path: string): (e: Element)
    ensures e == Public(LoginScreen) <==> path == "/login"
    ensures e == Public(HomeScreen) <==> path == "/"
    ensures e.Private? && e.screen.BookingScreen? ==>
      e.allowedRoles == [RoleName(Customer)] && path == "/booking/" + e.screen.movieId && IsSegment(e.screen.movieId)
    ensures e.Private? && !e.screen.BookingScreen? ==>
      e.allowedRoles == [RoleName(Admin)] && (path == "/admin" || path == "/admin/movies")
    ensures e.Redirect? <==>
      !(path in {"/login", "/", "/admin", "/admin/movies"} || (|path| > 9 && path[..9] == "/booking/" && IsSegment(path[9..])))
    ensures e.Redirect? ==> e.to == "/"
    ensures path == "/admin" ==> e == Private([RoleName(Admin)], AdminDashboard)
    ensures path == "/admin/movies" ==> e == Private([RoleName(Admin)], MovieManagement)
    ensures |path| > 9 && path[..9] == "/booking/" && IsSegment(path[9..]) ==>
      e == Private([RoleName(Customer)], BookingScreen(path[9..]))
  {
    assert |path| > 9 ==> path == path[..9] + path[9..];
    assert path == "/admin/movies" ==> path[..9][1] == 'a';
    if path == "/login" then Public(LoginScreen)
    else if path == "/" then Public(HomeScreen)
    else if |path| > 9 && path[..9] == "/booking/" && IsSegment(path[9..]) then
      Private([RoleName(Customer)], BookingScreen(path[9..]))
    else if path == "/admin" then Private([RoleName(Admin)], AdminDashboard)
    else if path == "/admin/movies" then Private([RoleName(Admin)], MovieManagement)
    else Redirect("/")
  }

  /** What a visitor ends up with at `path`: a screen, the spinner, or a redirect. */
  datatype Outcome = Show(screen: Screen) | Wait | GoTo(to: string)

  function Visit(path: string, loading: bool, isAuthenticated: bool, isAuthorized: seq<string> -> bool,
                 storedRole: Option<string>): Outcome
  {
    match Route(path)
    case Public(s) => Show(s)
    case Redirect(to) => GoTo(to)
    case Private(roles, s) =>
      match PrivateRoute(loading, isAuthenticated, isAuthorized, roles, storedRole)
      case Spinner => Wait
      case Navigate(to) => GoTo(to)
      case Children => Show(s)
  }

  /** The booking link of a movie card reaches the booking screen of that movie, for customers only. */
  lemma BookingLinkRoutes(movieId: string)
    requires IsSegment(movieId)
    ensures Route(BookingPath(movieId)) == Private([RoleName(Customer)], BookingScreen(movieId))
  {
    var p := BookingPath(movieId);
    assert p[..9] == "/booking/";
  }

  /** The details link of a movie card has no route of its own: it redirects to the home page. */
  lemma DetailsLinkRedirectsHome(movieId: string)
    ensures Route(DetailsPath(movieId)) == Redirect("/")
  {
    var p := DetailsPath(movieId);
    assert p[..8] == "/movies/";
    assert p[1] == 'm';
    assert p != "/login" && p != "/" && p != "/admin" && p != "/admin/movies";
    if |p| > 9 {
      assert p[..9][1] == 'm';
    }
  }

  /** No screen behind the guard is shown to a visitor who is not signed in. */
  lemma PrivateScreensNeedSignIn(path: string, isAuthorized: seq<string> -> bool, storedRole: Option<string>)
    requires Route(path).Private?
    ensures Visit(path, false, false, isAuthorized, storedRole) == GoTo("/login")
    ensures Visit(path, true, false, isAuthorized, storedRole) == Wait
  {
  }

  /**
   * A screen is shown exactly for public routes, or for guarded routes once
   * loading has finished and the context accepts the signed-in user's role.
   */
  lemma ShownScreens(path: string, loading: bool, isAuthenticated: bool,
                     isAuthorized: seq<string> -> bool, storedRole: Option<string>)
    ensures Visit(path, loading, isAuthenticated, isAuthorized, storedRole).Show? <==>
      (Route(path).Public? ||
       (Route(path).Private? && !loading && isAuthenticated && isAuthorized(Route(path).allowedRoles)))
  {
    if Route(path).Private? {
      assert Route(path).allowedRoles != [];
    }
  }
}
