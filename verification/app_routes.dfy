/** The route table of src/App.jsx: the root and every unknown path go to
    /login, /login is public (an admin already signed in is sent on to
    /dashboard), and /dashboard and /restaurants are protected. */
module AppRoutes {
  import opened Common

  /** The screens the router can render. */
  datatype Screen = LoginScreen | DashboardScreen | RestaurantsScreen

  /** What one route does: render a screen or navigate elsewhere. */
  datatype RouteResult = Render(screen: Screen) | Redirect(to: string)

  /** `ProtectedRoute`: the screen when signed in, else a redirect to /login. */
  function Protected(authenticated: bool, screen: Screen): (r: RouteResult)
    ensures r.Render? <==> authenticated
    ensures r.Render? ==> r.screen == screen
    ensures r.Redirect? ==> r.to == "/login"
  {
    if !authenticated then Redirect("/login") else Render(screen)
  }

  /** `PublicRoute`: the screen when signed out, else a redirect to /dashboard. */
  function Public(authenticated: bool, screen: Screen): (r: RouteResult)
    ensures r.Render? <==> !authenticated
    ensures r.Render? ==> r.screen == screen
    ensures r.Redirect? ==> r.to == "/dashboard"
  {
    if authenticated then Redirect("/dashboard") else Render(screen)
  }

  /** The four declared paths. */
  predicate IsDeclared(path: string) {
    path == "/" || path == "/login" || path == "/dashboard" || path == "/restaurants"
  }

  /** The element the router picks for a path. */
  function Route(path: string, authenticated: bool): (r: RouteResult)
    ensures !IsDeclared(path) ==> r == Redirect("/login")
    ensures r.Render? ==> (r.screen == LoginScreen <==> path == "/login")
    ensures r.Redirect? ==> r.to == "/login" || r.to == "/dashboard"
  {
    if path == "/" then Redirect("/login")
    else if path == "/login" then Public(authenticated, LoginScreen)
    else if path == "/dashboard" then Protected(authenticated, DashboardScreen)
    else if path == "/restaurants" then Protected(authenticated, RestaurantsScreen)
    else Redirect("/login")
  }

  /** Follows redirects for at most `fuel` steps; `None` when the fuel runs
      out before a screen is rendered. */
  function Land(path: string, authenticated: bool, fuel: nat): Option<Screen>
    decreases fuel
  {
    match Route(path, authenticated)
    case Render(screen) => Some(screen)
    case Redirect(to) => if fuel == 0 then None else Land(to, authenticated, fuel - 1)
  }

  /** The screen a path ends on after redirects, with the two steps every
      path needs at most. */
  function Destination(path: string, authenticated: bool): (r: Option<Screen>)
    ensures r.Some?
  {
    Land(path, authenticated, 2)
  }

  /** Signed out, every path ends on the login screen. */
  lemma SignedOutLandsOnLogin(path: string)
    ensures Destination(path, false) == Some(LoginScreen)
  {
  }

  /** Signed in, /restaurants shows the restaurants and every other path
      ends on the dashboard; the login screen is never shown. */
  lemma SignedInLandsInside(path: string)
    ensures path == "/restaurants" ==> Destination(path, true) == Some(RestaurantsScreen)
    ensures path != "/restaurants" ==> Destination(path, true) == Some(DashboardScreen)
  {
  }

  /** No path redirects in a cycle: two steps always suffice, so more fuel
      changes nothing. */
  lemma {:induction false} RedirectsSettle(path: string, authenticated: bool, fuel: nat)
    requires fuel >= 2
    ensures Land(path, authenticated, fuel) == Destination(path, authenticated)
  {
    match Route(path, authenticated)
    case Render(_) =>
    case Redirect(to) =>
      assert Land(path, authenticated, fuel) == Land(to, authenticated, fuel - 1);
      assert Destination(path, authenticated) == Land(to, authenticated, 1);
      match Route(to, authenticated)
      case Render(_) =>
      case Redirect(next) =>
        assert Land(to, authenticated, fuel - 1) == Land(next, authenticated, fuel - 2);
        assert Land(to, authenticated, 1) == Land(next, authenticated, 0);
        assert Route(next, authenticated).Render?;
  }
}
