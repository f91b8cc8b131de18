/** The application's route table and its `PrivateRoute` guard, and what
    following the redirects of the two guards leads to. */
module App {
  import opened Common
  import opened Router
  import opened LoginPage
  import Text

  const LoginPath: string := "/login"
  const UsersPath: string := "/users"
  const RootPath: string := "/"

  /** The element each route declares. */
  datatype RouteElement = LoginRoute | PrivateUsersRoute | NavigateRoute(to: string, replace: bool)

  /** The path without the `/` characters at its end. */
  function DropTrailingSlashes(path: string): (r: string)
    ensures |r| <= |path| && r == path[..|r|]
    ensures forall i :: |r| <= i < |path| ==> path[i] == '/'
    ensures r == [] || r[|r| - 1] != '/'
  {
    if path != [] && path[|path| - 1] == '/' then DropTrailingSlashes(path[..|path| - 1]) else path
  }

  /** The route `<Routes>` picks for `path`. React Router matches a route path
      ignoring letter case (`caseSensitive` is off) and accepts any number of
      trailing slashes; `/` matches a path made of slashes only. */
  function RouteFor(path: string): (r: Option<RouteElement>)
    ensures r == Some(LoginRoute) <==> Text.ToLower(DropTrailingSlashes(path)) == LoginPath
    ensures r == Some(PrivateUsersRoute) <==> Text.ToLower(DropTrailingSlashes(path)) == UsersPath
    ensures r == Some(NavigateRoute(UsersPath, false)) <==> path != [] && DropTrailingSlashes(path) == []
    ensures r.None? || r in [Some(LoginRoute), Some(PrivateUsersRoute), Some(NavigateRoute(UsersPath, false))]
  {
    var p := Text.ToLower(DropTrailingSlashes(path));
    if p == LoginPath then Some(LoginRoute)
    else if p == UsersPath then Some(PrivateUsersRoute)
    else if path != [] && p == [] then Some(NavigateRoute(UsersPath, false))
    else None
  }

  /** The three declared paths reach their own routes. */
  lemma DeclaredPathsRoute()
    ensures RouteFor(LoginPath) == Some(LoginRoute)
    ensures RouteFor(UsersPath) == Some(PrivateUsersRoute)
    ensures RouteFor(RootPath) == Some(NavigateRoute(UsersPath, false))
  {
    assert DropTrailingSlashes(LoginPath) == LoginPath;
    assert DropTrailingSlashes(UsersPath) == UsersPath;
    assert DropTrailingSlashes(RootPath) == [] by { assert RootPath[..0] == []; }
    Text.ToLowerOfLowercase(LoginPath);
    Text.ToLowerOfLowercase(UsersPath);
  }

  /** One more trailing slash never changes the route. */
  lemma RouteIgnoresTrailingSlash(path: string)
    requires path != []
    ensures RouteFor(path + "/") == RouteFor(path)
  {
    assert (path + "/")[..|path|] == path;
  }

  /** Letter case never changes the route. */
  lemma RouteIgnoresCase(path: string)
    ensures RouteFor(Text.ToLower(path)) == RouteFor(path)
  {
    DropCommutesWithLower(path);
    Text.ToLowerIdempotent(DropTrailingSlashes(path));
  }

  lemma {:induction false} DropCommutesWithLower(path: string)
    ensures DropTrailingSlashes(Text.ToLower(path)) == Text.ToLower(DropTrailingSlashes(path))
    decreases |path|
  {
    var lower := Text.ToLower(path);
    if path != [] {
      assert lower[..|lower| - 1] == Text.ToLower(path[..|path| - 1]);
      DropCommutesWithLower(path[..|path| - 1]);
    }
  }

  /** So `/Users/` and `/LOGIN` reach the same pages as `/users` and `/login`. */
  lemma VariantPathsRoute()
    ensures RouteFor("/Users/") == Some(PrivateUsersRoute)
    ensures RouteFor("/LOGIN") == Some(LoginRoute)
  {
    assert DropTrailingSlashes("/Users/") == "/Users" by {
      assert "/Users/"[..6] == "/Users";
      assert DropTrailingSlashes("/Users") == "/Users";
    }
    LowerUsers();
    assert DropTrailingSlashes("/LOGIN") == "/LOGIN";
    LowerLogin();
  }

  lemma LowerUsers()
    ensures Text.ToLower("/Users") == UsersPath
  {
    var r := Text.ToLower("/Users");
    assert r[1] == 'u';
  }

  lemma LowerLogin()
    ensures Text.ToLower("/LOGIN") == LoginPath
  {
    var r := Text.ToLower("/LOGIN");
    assert r[1] == 'l' && r[2] == 'o' && r[3] == 'g' && r[4] == 'i' && r[5] == 'n';
  }

  /** `token ? children : <Navigate to="/login" replace />`, with the token read
      from local storage. */
  function PrivateRoute(storedToken: Option<string>, child: Screen): (e: Element)
    ensures Truthy(storedToken) ==> e == Render(child)
    ensures !Truthy(storedToken) ==> e == Navigate(LoginPath, true)
  {
    if Truthy(storedToken) then Render(child) else Navigate(LoginPath, true)
  }

  /** What visiting `path` evaluates to, given the stored token and the
      session context's user. */
  function Resolve(path: string, storedToken: Option<string>, user: Option<SessionUser>): (e: Element)
    ensures e == Blank <==> RouteFor(path).None?
    ensures e.Navigate? ==> e.to == LoginPath || e.to == UsersPath
  {
    match RouteFor(path)
    case None => Blank
    case Some(LoginRoute) => LoginElement(user)
    case Some(PrivateUsersRoute) => PrivateRoute(storedToken, UserManagementScreen)
    case Some(NavigateRoute(to, replace)) => Navigate(to, replace)
  }

  /** `/users` shows the management screen iff the stored token is truthy, and otherwise replaces itself with `/login`. */
  lemma UsersGate(storedToken: Option<string>, user: Option<SessionUser>)
    ensures Resolve(UsersPath, storedToken, user) == Render(UserManagementScreen) <==> Truthy(storedToken)
    ensures !Truthy(storedToken) ==> Resolve(UsersPath, storedToken, user) == Navigate(LoginPath, true)
  {
    DeclaredPathsRoute();
  }

  /** `/` always redirects to `/users`, without replacing the history entry. */
  lemma RootRedirects(storedToken: Option<string>, user: Option<SessionUser>)
    ensures Resolve(RootPath, storedToken, user) == Navigate(UsersPath, false)
  {
    DeclaredPathsRoute();
  }

  /** `/login` does not look at the stored token: it is the login page's own guard. */
  lemma LoginIgnoresStoredToken(t1: Option<string>, t2: Option<string>, user: Option<SessionUser>)
    ensures Resolve(LoginPath, t1, user) == Resolve(LoginPath, t2, user) == LoginElement(user)
  {
    DeclaredPathsRoute();
  }

  /** Where following redirects from a path ends: on the path that renders, or
      still redirecting when the step budget runs out. */
  datatype Landing = Landed(path: string, element: Element) | StillRedirecting(path: string)

  function Follow(path: string, storedToken: Option<string>, user: Option<SessionUser>, steps: nat): (l: Landing)
    ensures l.Landed? ==> l.element == Resolve(l.path, storedToken, user) && !l.element.Navigate?
    ensures l.StillRedirecting? ==> Resolve(l.path, storedToken, user).Navigate?
    ensures l.path == path || l.path == LoginPath || l.path == UsersPath
    decreases steps
  {
    match Resolve(path, storedToken, user)
    case Navigate(to, _) => if steps == 0 then StillRedirecting(path) else Follow(to, storedToken, user, steps - 1)
    case e => Landed(path, e)
  }

  /** Signed out, `/` reaches the login form in two redirects. */
  lemma SignedOutRootReachesLogin(storedToken: Option<string>, user: Option<SessionUser>)
    requires !Truthy(storedToken) && !HasToken(user)
    ensures Follow(RootPath, storedToken, user, 2) == Landed(LoginPath, Render(LoginScreen))
    ensures Follow(RootPath, storedToken, user, 1).StillRedirecting?
  {
    DeclaredPathsRoute();
  }

  /** When the stored token and the context's token agree, every path settles
      within two redirects: on the management screen when signed in, on the
      login form when signed out, or on nothing for an unknown path. */
  lemma NoLoopWhenGuardsAgree(path: string, storedToken: Option<string>, user: Option<SessionUser>)
    requires Truthy(storedToken) <==> HasToken(user)
    ensures Follow(path, storedToken, user, 2).Landed?
    ensures RouteFor(path).Some? ==>
      var l := Follow(path, storedToken, user, 2);
      if Truthy(storedToken) then l.element == Render(UserManagementScreen) && RouteFor(l.path) == Some(PrivateUsersRoute)
      else l.element == Render(LoginScreen) && RouteFor(l.path) == Some(LoginRoute)
  {
    DeclaredPathsRoute();
  }

  /** When the context still holds a token that local storage no longer has,
      `/users` and `/login` send the browser back and forth forever. */
  lemma {:induction false} LoopWhenOnlyContextHasToken(storedToken: Option<string>, user: Option<SessionUser>, steps: nat)
    requires !Truthy(storedToken) && HasToken(user)
    ensures Follow(UsersPath, storedToken, user, steps).StillRedirecting?
    ensures Follow(LoginPath, storedToken, user, steps).StillRedirecting?
  {
    DeclaredPathsRoute();
    if steps > 0 {
      LoopWhenOnlyContextHasToken(storedToken, user, steps - 1);
    }
  }

  /** When only local storage holds a token, nothing loops: `/users` shows
      the management screen and `/login` the form. */
  lemma NoLoopWhenOnlyStorageHasToken(storedToken: Option<string>, user: Option<SessionUser>)
    requires Truthy(storedToken) && !HasToken(user)
    ensures Follow(UsersPath, storedToken, user, 0) == Landed(UsersPath, Render(UserManagementScreen))
    ensures Follow(LoginPath, storedToken, user, 0) == Landed(LoginPath, Render(LoginScreen))
  {
    DeclaredPathsRoute();
  }
}
