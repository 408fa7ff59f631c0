/**
  The top bar: the user shown (derived from the cached profile, with
  defaults), the profile menu, the notification badges and the logout
  button.
 */
module Header {
  import opened JsValues
  import opened JsStrings
  import opened Session

  const DefaultName := "Admin User"
  const DefaultEmail := "admin@example.com"
  const NotificationsCount := 3
  const MessagesCount := 1

  datatype User = User(name: Value, role: string, email: Value)

  /**
    `user`: the profile's username or "Admin User"; "Administrator" when
    the profile has a truthy email, "User" otherwise; the email or a
    default address. A `null` profile reads as all-missing.
   */
  function DeriveUser(userData: Value): (u: User)
    ensures Truthy(Prop(userData, "username")) ==> u.name == Prop(userData, "username")
    ensures !Truthy(Prop(userData, "username")) ==> u.name == Str(DefaultName)
    ensures u.role == (if Truthy(Prop(userData, "email")) then "Administrator" else "User")
    ensures Truthy(u.name) && Truthy(u.email)
  {
    User(Or(Prop(userData, "username"), Str(DefaultName)),
         if Truthy(Prop(userData, "email")) then "Administrator" else "User",
         Or(Prop(userData, "email"), Str(DefaultEmail)))
  }

  /** The role says whether the shown address is the user's own or the placeholder. */
  lemma AdministratorIffOwnEmail(userData: Value)
    ensures DeriveUser(userData).role == "Administrator" <==> DeriveUser(userData).email == Prop(userData, "email")
    ensures DeriveUser(userData).role == "User" <==> DeriveUser(userData).email == Str(DefaultEmail) && !Truthy(Prop(userData, "email"))
  {
  }

  /** Without a profile every field takes its default. */
  lemma NoProfileDefaults()
    ensures DeriveUser(Null) == User(Str(DefaultName), "User", Str(DefaultEmail))
  {
  }

  datatype HeaderState = HeaderState(showProfileMenu: bool)

  /** `toggleProfileMenu()` */
  function ToggleProfileMenu(st: HeaderState): (st': HeaderState)
    ensures st'.showProfileMenu != st.showProfileMenu
  {
    HeaderState(!st.showProfileMenu)
  }

  lemma ToggleTwice(st: HeaderState)
    ensures ToggleProfileMenu(ToggleProfileMenu(st)) == st
  {
  }

  datatype LogoutRun = LogoutRun(state: HeaderState, store: Store, calledOnLogout: bool)

  /**
    `handleLogout()`: forget "authToken" and "userData", close the menu and
    hand over to the app's `onLogout`. The fetch helper's tokens stay.
   */
  function HandleLogout(st: HeaderState, store: Store): (r: LogoutRun)
    ensures !r.state.showProfileMenu && r.calledOnLogout
    ensures AuthTokenKey !in r.store && UserDataKey !in r.store
    ensures forall k :: k != AuthTokenKey && k != UserDataKey ==>
      (k in r.store <==> k in store) && (k in store ==> r.store[k] == store[k])
  {
    LogoutRun(HeaderState(false), store - {AuthTokenKey, UserDataKey}, true)
  }

  /**
    `{count > 0 && <span className="badge">{count}</span>}`: the badge's
    text, or nothing. The counts are the constants 3 and 1, so both badges
    always show.
   */
  function Badge(count: int): (b: Option<string>)
    ensures b.Some? <==> count > 0
    ensures b.Some? ==> (forall i :: 0 <= i < |b.value| ==> IsDigit(b.value[i])) && DecimalValue(b.value) == count
    ensures b.Some? ==> b.value[0] != '0'
  {
    if count > 0 then
      DecimalRoundTrip(count);
      Some(IntToDecimal(count))
    else None
  }
}
