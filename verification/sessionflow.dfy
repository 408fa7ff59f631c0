/**
  How the pieces fit together: the login page, the app shell, the header,
  the sidebar and the fetch helper each read or write the session through
  different storage keys and routes.
 */
module SessionFlow {
  import opened JsValues
  import opened Http
  import opened Session
  import App
  import Login
  import Header
  import Sidebar
  import Api

  /**
    A successful login survives a reload: for a valid form and an ok
    answer with a non-null body, the startup check finds the stored token
    and profile and restores the profile `handleLogin` set, provided the
    token's text is not empty and JSON.parse undoes JSON.stringify on the
    profile.
   */
  lemma LoginThenReload(st: Login.LoginState, store: Store, answer: FetchOutcome,
                        stringify: Value -> string, parse: string -> Value)
    requires |Login.ValidateForm(st.credentials)| == 0
    requires answer.Answered? && IsOk(answer.response.status) && answer.response.body.Some?
    requires var data := answer.response.body.value;
      && !Nullish(data)
      && ToJsString(Prop(data, "token")) != ""
      && stringify(UserRecord(data)) != ""
      && parse(stringify(UserRecord(data))) == UserRecord(data)
    ensures var run := Login.HandleSubmit(st, store, answer, stringify);
      var reloaded := App.Startup(run.store, parse);
      && run.loggedIn == Some(answer.response.body.value)
      && reloaded.isAuthenticated
      && reloaded.userData == App.HandleLogin(App.Initial, answer.response.body.value).userData
  {
    var data := answer.response.body.value;
    StoredSessionAuthenticates(store, ToJsString(Prop(data, "token")), stringify(UserRecord(data)), parse);
  }

  /**
    A login answer without a token still signs the user in for good: the
    missing token is stored as the text "undefined", which the startup
    check accepts.
   */
  lemma MissingTokenStoredAsUndefined(st: Login.LoginState, store: Store, answer: FetchOutcome,
                                      stringify: Value -> string, parse: string -> Value)
    requires |Login.ValidateForm(st.credentials)| == 0
    requires answer.Answered? && IsOk(answer.response.status) && answer.response.body.Some?
    requires var data := answer.response.body.value;
      !Nullish(data) && Prop(data, "token") == Undefined && stringify(UserRecord(data)) != ""
    ensures var run := Login.HandleSubmit(st, store, answer, stringify);
      run.store[AuthTokenKey] == "undefined" && App.Startup(run.store, parse).isAuthenticated
  {
    var data := answer.response.body.value;
    StoredSessionAuthenticates(store, ToJsString(Prop(data, "token")), stringify(UserRecord(data)), parse);
  }

  /** A store holding a non-empty token and a non-empty profile passes the startup check, which parses that profile. */
  lemma StoredSessionAuthenticates(store: Store, token: string, profile: string, parse: string -> Value)
    requires token != "" && profile != ""
    ensures App.Startup(store[AuthTokenKey := token][UserDataKey := profile], parse).isAuthenticated
    ensures App.Startup(store[AuthTokenKey := token][UserDataKey := profile], parse).userData == parse(profile)
  {
    var s := store[AuthTokenKey := token][UserDataKey := profile];
    assert s[AuthTokenKey] == token;
  }

  /** After the app's logout a reload is signed out, and every protected page sends the user to the login page. */
  lemma LogoutThenReload(st: App.AppState, store: Store, parse: string -> Value, path: string)
    requires App.ProtectedPage(path).Some?
    ensures var reloaded := App.Startup(App.HandleLogout(st, store).store, parse);
      !reloaded.isAuthenticated && App.Route(reloaded, path) == App.RedirectTo(App.LoginRoute)
  {
  }

  /**
    The header's logout removes only the login page's keys: the fetch
    helper keeps sending the old access token afterwards.
   */
  lemma HeaderLogoutKeepsApiToken(hs: Header.HeaderState, store: Store, url: string, opts: Api.Options)
    ensures var after := Header.HandleLogout(hs, store).store;
      Api.DispatchWith(after, url, opts) == Api.DispatchWith(store, url, opts)
  {
    var after := Header.HandleLogout(hs, store).store;
    assert GetItem(after, AccessTokenKey) == GetItem(store, AccessTokenKey);
  }

  /**
    Every sidebar link but one leads to its page for a signed-in user; the
    "/staffmanagement" link has no route and lands on the dashboard.
   */
  lemma SidebarLinksRouted(st: App.AppState, link: string)
    requires st.isAuthenticated && !st.isLoading
    requires link in Sidebar.TopLinks || link in Sidebar.MediaLinks
    ensures link != "/staffmanagement" ==> App.Route(st, link).Render?
    ensures link == "/staffmanagement" ==> App.Route(st, link) == App.RedirectTo(App.DashboardRoute)
  {
  }
}
