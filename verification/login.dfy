/**
  The login page: credential validation, error clearing while typing, and
  the handling of the login endpoint's answer.
 */
module Login {
  import opened JsValues
  import opened JsStrings
  import opened Http
  import opened Session

  datatype Credentials = Credentials(username: string, password: string)

  datatype FieldName = UsernameField | PasswordField

  function KeyOf(f: FieldName): string {
    match f
    case UsernameField => "username"
    case PasswordField => "password"
  }

  /** `errors` maps an input's name to its message; `loginError` is the banner text. */
  datatype LoginState = LoginState(credentials: Credentials, errors: map<string, string>, loginError: Value)

  const Initial := LoginState(Credentials("", ""), map[], Str(""))

  const UsernameRequired := "Username is required"
  const PasswordRequired := "Password is required"
  const PasswordTooShort := "Password must be at least 6 characters"
  const DefaultLoginError := "Invalid username or password"
  const NetworkErrorMessage := "Network error. Please try again."
  const LoginUrl := "http://localhost:8000/api/login/"
  const DashboardRoute := "/dashboard"

  /**
    `validateForm()`: the username must not be blank after `trim()`; the
    password, untrimmed, must be non-empty and at least 6 UTF-16 code units long.
   */
  function ValidateForm(c: Credentials): (errors: map<string, string>)
    ensures errors.Keys <= {"username", "password"}
    ensures "username" in errors <==> AllWhiteSpace(c.username)
    ensures "username" in errors ==> errors["username"] == UsernameRequired
    ensures "password" in errors <==> Utf16Length(c.password) < 6
    ensures c.password == "" ==> errors["password"] == PasswordRequired
    ensures c.password != "" && Utf16Length(c.password) < 6 ==> errors["password"] == PasswordTooShort
  {
    TrimEmptyIff(c.username);
    var u: map<string, string> := if Trim(c.username) == "" then map["username" := UsernameRequired] else map[];
    if c.password == "" then u["password" := PasswordRequired]
    else if Utf16Length(c.password) < 6 then u["password" := PasswordTooShort]
    else u
  }

  /** The form is valid exactly when no message was produced. */
  lemma ValidIff(c: Credentials)
    ensures |ValidateForm(c)| == 0 <==> !AllWhiteSpace(c.username) && Utf16Length(c.password) >= 6
  {
    var e := ValidateForm(c);
    if |e| == 0 {
      assert "username" !in e && "password" !in e;
    } else {
      var k :| k in e;
    }
  }

  /** Whitespace-only usernames are refused although their length is positive. */
  lemma BlankUsernameRefused()
    ensures "username" in ValidateForm(Credentials(" \t", "secret1"))
    ensures ValidateForm(Credentials("admin", "secret1")) == map[]
  {
    var blank := " \t";
    assert AllWhiteSpace(blank) by {
      assert blank[0] == ' ' && blank[1] == '\t';
    }
    var good := Credentials("admin", "secret1");
    assert !AllWhiteSpace("admin") by { assert "admin"[0] == 'a'; }
    assert Utf16Length("secret1") == 7;
    var e := ValidateForm(good);
    assert "username" !in e && "password" !in e;
    assert e.Keys == {};
  }

  /**
    `handleChange(e)`: the edited credential takes the new text, its own
    error is blanked if it was showing, and the banner is cleared.
   */
  function HandleChange(st: LoginState, field: FieldName, value: string): (st': LoginState)
    ensures field.UsernameField? ==> st'.credentials == st.credentials.(username := value)
    ensures field.PasswordField? ==> st'.credentials == st.credentials.(password := value)
    ensures st'.errors.Keys == st.errors.Keys
    ensures KeyOf(field) in st'.errors ==> st'.errors[KeyOf(field)] == ""
    ensures forall k :: k in st.errors && k != KeyOf(field) ==> st'.errors[k] == st.errors[k]
    ensures !Truthy(st'.loginError)
    ensures !Truthy(st.loginError) ==> st'.loginError == st.loginError
  {
    var key := KeyOf(field);
    var creds := match field
      case UsernameField => st.credentials.(username := value)
      case PasswordField => st.credentials.(password := value);
    var errors := if key in st.errors && st.errors[key] != "" then st.errors[key := ""] else st.errors;
    var banner := if Truthy(st.loginError) then Str("") else st.loginError;
    LoginState(creds, errors, banner)
  }

  /** What a submit did: the new page state, the storage, the call made, and the follow-ups. */
  datatype LoginRun = LoginRun(
    state: LoginState,
    store: Store,
    request: Option<Call>,       // the POST to the login endpoint
    loggedIn: Option<Value>,     // argument of `onLogin`
    navigate: Option<string>)

  function RequestBody(c: Credentials): Value {
    Obj([("username", Str(c.username)), ("password", Str(c.password))])
  }

  /** The POST of the credentials, as JSON, with the JSON content type the page sets. */
  function LoginCall(c: Credentials): Call {
    Call(Request(POST, LoginUrl, Json(RequestBody(c))), [("Content-Type", "application/json")])
  }

  /**
    `handleSubmit(e)`. `answer` is the outcome of the POST; `stringify`
    is JSON.stringify, a parameter of the model.
   */
  function HandleSubmit(st: LoginState, store: Store, answer: FetchOutcome, stringify: Value -> string): (run: LoginRun)
    // invalid input: messages shown, nothing sent, nothing stored
    ensures |ValidateForm(st.credentials)| != 0 ==>
      run == LoginRun(st.(errors := ValidateForm(st.credentials)), store, None, None, None)
    ensures |ValidateForm(st.credentials)| == 0 ==>
      run.request == Some(LoginCall(st.credentials)) && run.state.errors == map[]
    // storage is written only on an accepted login, and then only the two keys
    ensures run.store != store ==> run.loggedIn.Some?
    ensures run.loggedIn.Some? ==>
      && !Nullish(run.loggedIn.value)
      && run.store == store[AuthTokenKey := ToJsString(Prop(run.loggedIn.value, "token"))]
                           [UserDataKey := stringify(UserRecord(run.loggedIn.value))]
      && run.navigate == Some(DashboardRoute)
      && answer.Answered? && IsOk(answer.response.status) && answer.response.body == Some(run.loggedIn.value)
    // an ok answer with a readable, non-null body logs the user in
    ensures |ValidateForm(st.credentials)| == 0 && answer.Answered? && IsOk(answer.response.status)
            && answer.response.body.Some? && !Nullish(answer.response.body.value) ==>
      run.loggedIn == Some(answer.response.body.value)
    // a refused login shows the server's `error`, or the default text
    ensures |ValidateForm(st.credentials)| == 0 && answer.Answered? && !IsOk(answer.response.status)
            && answer.response.body.Some? && !Nullish(answer.response.body.value) ==>
      && run.state.loginError == Or(Prop(answer.response.body.value, "error"), Str(DefaultLoginError))
      && run.store == store && run.loggedIn == None && run.navigate == None
    // a network failure, or a body that is unreadable or null
    ensures |ValidateForm(st.credentials)| == 0
            && (answer.NetworkFailure? || answer.response.body.None? || Nullish(answer.response.body.value)) ==>
      run.state.loginError == Str(NetworkErrorMessage) && run.store == store && run.loggedIn == None
  {
    var errors := ValidateForm(st.credentials);
    if |errors| != 0 then LoginRun(st.(errors := errors), store, None, None, None)
    else
      var st1 := st.(errors := errors, loginError := Str(""));
      var req := Some(LoginCall(st.credentials));
      var failed := LoginRun(st1.(loginError := Str(NetworkErrorMessage)), store, req, None, None);
      match answer
      case NetworkFailure => failed
      case Answered(resp) =>
        match resp.body
        case None => failed
        case Some(data) =>
          // `data.token` and `data.error` throw on a null body; the catch shows the network message
          if Nullish(data) then failed
          else if IsOk(resp.status) then
            var store' := store[AuthTokenKey := ToJsString(Prop(data, "token"))]
                               [UserDataKey := stringify(UserRecord(data))];
            LoginRun(st1, store', req, Some(data), Some(DashboardRoute))
          else
            LoginRun(st1.(loginError := Or(Prop(data, "error"), Str(DefaultLoginError))), store, req, None, None)
  }
}
