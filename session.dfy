/** How the pieces of the session fit together: what the login page
    writes, what the request interceptor reads, where the login page sends
    the browser and what the router does there, and what is left after a
    logout or a 401. */
module Session {
  import opened Common
  import Storage
  import Api
  import Login
  import NavBar
  import RouteGuard
  import App

  /** Signing in never writes `token`, so the headers the interceptor
      produces are the same before and after a login, whatever its
      outcome. */
  lemma LoginLeavesRequestHeaders(storage: map<string, string>, response: AuthResponse, headers: map<string, string>)
    ensures Api.RequestHeaders(Login.StorageAfter(storage, response), headers) == Api.RequestHeaders(storage, headers)
  {
    var after := Login.StorageAfter(storage, response);
    assert Api.GetToken(after) == Api.GetToken(storage);
  }

  /** Storage that holds no token (a fresh browser, or one after logout or
      a 401) never gets a bearer credential added: the request leaves with
      its own headers less `Cookie`. */
  lemma NoTokenNoBearer(storage: map<string, string>, headers: map<string, string>)
    requires Api.TokenKey !in storage
    ensures Api.RequestHeaders(storage, headers) == headers - {Api.CookieHeader}
  {
    var r := Api.RequestHeaders(storage, headers);
    assert r.Keys == (headers - {Api.CookieHeader}).Keys;
  }

  /** In a fresh browser, a login of any outcome followed by a request
      that carries no `Authorization` of its own sends none. */
  lemma FreshLoginSendsNoAuthorization(response: AuthResponse, headers: map<string, string>)
    requires Api.AuthorizationHeader !in headers
    ensures Api.AuthorizationHeader !in Api.RequestHeaders(Login.StorageAfter(map[], response), headers)
  {
    LoginLeavesRequestHeaders(map[], response, headers);
    NoTokenNoBearer(map[], headers);
  }

  /** After a 401 the storage holds no token, so no later request gets a
      bearer credential. */
  lemma NoBearerAfterUnauthorized(s: Api.State, settled: Api.Settled, headers: map<string, string>)
    requires Api.IsUnauthorized(settled)
    ensures Api.RequestHeaders(Api.AfterResponse(s, settled).storage, headers) == headers - {Api.CookieHeader}
  {
    NoTokenNoBearer(map[], headers);
  }

  /** The page a successful login goes to is behind the guard that `App`
      gives no prop, so the browser ends up back on the login page. */
  lemma LandingPageRedirectsToLogin()
    ensures App.Resolve(LandingPath).Guard?
    ensures RouteGuard.Render(App.Resolve(LandingPath)) == RouteGuard.Redirect(LoginPath, true)
  {
    assert App.GuardedPaths[1] == LandingPath;
    App.GuardedPathsRedirect(1);
  }

  /** Every link of the side bar points at a guarded path of the route
      table, and so renders as the redirect to the login page. */
  lemma NavLinksAreGuarded(i: nat)
    requires i < |NavBar.LinkTargets|
    ensures NavBar.LinkTargets[i] in App.GuardedPaths
    ensures RouteGuard.Render(App.Resolve(NavBar.LinkTargets[i])) == RouteGuard.Redirect(LoginPath, true)
  {
    var k := if i == 0 then 7
      else if i == 1 then 1
      else if i == 2 then 2
      else if i == 3 then 3
      else if i == 4 then 5
      else if i == 5 then 4
      else if i == 6 then 6
      else 8;
    assert App.GuardedPaths[k] == NavBar.LinkTargets[i];
    App.GuardedPathsRedirect(k);
  }

  /** A browser session: a fresh storage area, a login with the given
      answer, one request through the interceptor, a logout, and one more
      request. Neither request carries a bearer credential, both lose
      `Cookie`, the login goes to the landing page only on success, and
      the logout always replaces the page with the login page and leaves
      nothing stored. */
  method SignInAndOut(response: AuthResponse, headers: map<string, string>, logoutThrowsAt: Option<nat>)
    returns (loginNav: Option<Nav>, sentAfterLogin: map<string, string>, logoutNav: Nav,
             sentAfterLogout: map<string, string>, storedAfterLogout: map<string, string>)
    ensures loginNav == if Succeeded(response) then Some(Push(LandingPath)) else None
    ensures sentAfterLogin == headers - {Api.CookieHeader}
    ensures logoutNav == Replace(LoginPath)
    ensures sentAfterLogout == headers - {Api.CookieHeader}
    ensures storedAfterLogout == map[]
  {
    var store := new Storage.Store();
    var form := new Login.LoginForm();
    loginNav := form.HandleSubmit(store, response);
    LoginLeavesRequestHeaders(map[], response, headers);
    NoTokenNoBearer(map[], headers);

    var config := new Api.RequestConfig(headers);
    var sent := Api.InterceptRequest(store, config);
    sentAfterLogin := sent.headers;

    logoutNav := NavBar.HandleLogout(store, logoutThrowsAt);
    storedAfterLogout := store.entries;

    var next := new Api.RequestConfig(headers);
    var sentNext := Api.InterceptRequest(store, next);
    sentAfterLogout := sentNext.headers;
  }
}
