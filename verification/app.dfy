/**
  The application shell: the startup authentication check, the login and
  logout transitions, and the route table, which acts as the route guard.
 */
module App {
  import opened JsValues
  import opened Session

  datatype AppState = AppState(isAuthenticated: bool, userData: Value, isLoading: bool)

  /** Before the startup check has run. */
  const Initial := AppState(false, Null, true)

  /**
    The startup effect: the user counts as signed in when both "authToken"
    and "userData" are stored with non-empty text; the cached profile is
    `parse(text)` (JSON.parse, a parameter of the model).
   */
  function Startup(store: Store, parse: string -> Value): (st: AppState)
    ensures !st.isLoading
    ensures st.isAuthenticated <==> Has(store, AuthTokenKey) && Has(store, UserDataKey)
    ensures st.isAuthenticated ==> st.userData == parse(store[UserDataKey])
    ensures !st.isAuthenticated ==> st == Initial.(isLoading := false)
  {
    if Has(store, AuthTokenKey) && Has(store, UserDataKey) then
      AppState(true, parse(store[UserDataKey]), false)
    else
      Initial.(isLoading := false)
  }

  /** `handleLogin(loginData)`: signed in, with the profile built from the login response. */
  function HandleLogin(st: AppState, loginData: Value): (st': AppState)
    requires !Nullish(loginData)
    ensures st'.isAuthenticated && st'.isLoading == st.isLoading
    ensures Prop(st'.userData, "userId") == Prop(loginData, "user_id")
    ensures Prop(st'.userData, "username") == Prop(loginData, "username")
    ensures Prop(st'.userData, "email") == Prop(loginData, "email")
  {
    st.(isAuthenticated := true, userData := UserRecord(loginData))
  }

  datatype Logout = Logout(state: AppState, store: Store)

  /** `handleLogout()`: forget "authToken" and "userData", then sign out with no profile. */
  function HandleLogout(st: AppState, store: Store): (r: Logout)
    ensures !r.state.isAuthenticated && r.state.userData == Null && r.state.isLoading == st.isLoading
    ensures AuthTokenKey !in r.store && UserDataKey !in r.store
    ensures forall k :: k != AuthTokenKey && k != UserDataKey ==>
      (k in r.store <==> k in store) && (k in store ==> r.store[k] == store[k])
  {
    Logout(AppState(false, Null, st.isLoading), store - {AuthTokenKey, UserDataKey})
  }

  // ---------------------------------------------------------------------
  // Routes
  // ---------------------------------------------------------------------

  datatype Page =
    | LoginPage | DashboardPage | NewsPage | EventsPage | GalleryPage
    | ResearchesPage | ProjectsPage | PublicationsPage | ServicesPage | SettingsPage

  datatype View = Loading | Render(page: Page) | RedirectTo(path: string)

  const LoginRoute := "/login"
  const DashboardRoute := "/dashboard"

  /** The nine protected routes, each wrapped in the layout. */
  function ProtectedPage(path: string): Option<Page> {
    if path == "/dashboard" then Some(DashboardPage)
    else if path == "/news" then Some(NewsPage)
    else if path == "/events" then Some(EventsPage)
    else if path == "/gallery" then Some(GalleryPage)
    else if path == "/researches" then Some(ResearchesPage)
    else if path == "/projects" then Some(ProjectsPage)
    else if path == "/publications" then Some(PublicationsPage)
    else if path == "/services" then Some(ServicesPage)
    else if path == "/settings" then Some(SettingsPage)
    else None
  }

  /** What the app shows for `path`. */
  function Route(st: AppState, path: string): (v: View)
    ensures st.isLoading <==> v == Loading
    ensures !st.isLoading && path == LoginRoute ==>
      v == if st.isAuthenticated then RedirectTo(DashboardRoute) else Render(LoginPage)
    ensures !st.isLoading && ProtectedPage(path).Some? ==>
      v == if st.isAuthenticated then Render(ProtectedPage(path).value) else RedirectTo(LoginRoute)
    ensures !st.isLoading && path != LoginRoute && ProtectedPage(path).None? ==>
      v == RedirectTo(if st.isAuthenticated then DashboardRoute else LoginRoute)
  {
    if st.isLoading then Loading
    else if path == LoginRoute then
      if st.isAuthenticated then RedirectTo(DashboardRoute) else Render(LoginPage)
    else if path == "/" then
      if st.isAuthenticated then RedirectTo(DashboardRoute) else RedirectTo(LoginRoute)
    else match ProtectedPage(path)
      case Some(page) => if st.isAuthenticated then Render(page) else RedirectTo(LoginRoute)
      case None => if st.isAuthenticated then RedirectTo(DashboardRoute) else RedirectTo(LoginRoute)
  }

  /**
    The guard: a signed-out user sees only the login page, and a signed-in
    user never sees it.
   */
  lemma GuardSeparatesLogin(st: AppState, path: string)
    requires !st.isLoading
    ensures Route(st, path).Render? ==> (Route(st, path).page == LoginPage <==> !st.isAuthenticated)
    ensures !st.isAuthenticated ==> Route(st, path) in {Render(LoginPage), RedirectTo(LoginRoute)}
  {
  }

  /** Redirects never chain: following one lands on a rendered page. */
  lemma RedirectsSettle(st: AppState, path: string)
    requires Route(st, path).RedirectTo?
    ensures Route(st, Route(st, path).path).Render?
  {
    var target := Route(st, path).path;
    assert target == DashboardRoute || target == LoginRoute;
    assert ProtectedPage(DashboardRoute) == Some(DashboardPage);
  }
}
