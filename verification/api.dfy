/**
  The authenticated fetch helper and the token refresh it falls back on.

  A call is dispatched once with `Authorization: Bearer <access_token>`; on
  a 401 answer the refresh token is exchanged once for a new access token.
  If that works the call is dispatched exactly once more and its answer,
  whatever its status, is returned; otherwise the stored session is torn
  down, the browser is sent to the login page and the call fails.
 */
module Api {
  import opened JsValues
  import opened JsStrings
  import opened Http
  import opened Session

  const RefreshUrl := "http://localhost:8000/api/token/refresh/"
  const LoginPath := "/login"

  /**
    What the caller's `options.headers` is: not given, given as `undefined`,
    or a header object. The rest of `options` is passed through untouched.
   */
  datatype CallerHeaders = NotGiven | GivenUndefined | Given(headers: Headers)

  datatype Options = Options(headers: CallerHeaders, verb: Value, body: Value)

  /** One call of `fetch` as the network sees it. */
  datatype Dispatch = Dispatch(url: string, verb: Value, headers: Headers, body: Value)

  /**
    The headers `fetch` receives for `{ ...defaultOptions, ...options }`:
    `options` is spread last, so a caller's `headers` property replaces the
    merged default set wholesale.
   */
  function SentHeaders(token: Value, opts: Options): Headers {
    match opts.headers
    case NotGiven => [("Authorization", Bearer(token)), ("Content-Type", "application/json")]
    case GivenUndefined => []
    case Given(h) => h
  }

  function DispatchWith(store: Store, url: string, opts: Options): Dispatch {
    Dispatch(url, opts.verb, SentHeaders(GetItem(store, AccessTokenKey), opts), opts.body)
  }

  // ---------------------------------------------------------------------
  // refreshToken
  // ---------------------------------------------------------------------

  datatype RefreshRun = RefreshRun(refreshed: bool, store: Store, requests: seq<Dispatch>)

  function RefreshRequest(refresh: string): Dispatch {
    Dispatch(RefreshUrl, Str("POST"), [("Content-Type", "application/json")], Obj([("refresh", Str(refresh))]))
  }

  /**
    `refreshToken()`: `answer` is what the one POST to the refresh endpoint
    yields. Every failure (no refresh token, a non-ok status, a body that is
    not JSON, a network error, a `null` body) is caught and reported as false.
   */
  function RefreshToken(store: Store, answer: FetchOutcome): (run: RefreshRun)
    ensures !Has(store, RefreshTokenKey) ==> run == RefreshRun(false, store, [])
    ensures Has(store, RefreshTokenKey) ==> run.requests == [RefreshRequest(store[RefreshTokenKey])]
    ensures run.refreshed <==>
      && Has(store, RefreshTokenKey)
      && answer.Answered? && IsOk(answer.response.status)
      && answer.response.body.Some? && !Nullish(answer.response.body.value)
    ensures run.refreshed ==>
      run.store == store[AccessTokenKey := ToJsString(Prop(answer.response.body.value, "access"))]
    ensures !run.refreshed ==> run.store == store
  {
    if !Has(store, RefreshTokenKey) then RefreshRun(false, store, [])
    else
      var req := [RefreshRequest(store[RefreshTokenKey])];
      match answer
      case NetworkFailure => RefreshRun(false, store, req)
      case Answered(resp) =>
        if !IsOk(resp.status) then RefreshRun(false, store, req)
        else match resp.body
          case None => RefreshRun(false, store, req)
          case Some(data) =>
            if Nullish(data) then RefreshRun(false, store, req)
            else RefreshRun(true, store[AccessTokenKey := ToJsString(Prop(data, "access"))], req)
  }

  // ---------------------------------------------------------------------
  // apiRequest
  // ---------------------------------------------------------------------

  datatype Failure = NetworkError | AuthenticationFailed

  /** The promise `apiRequest` returns: a response handed back as is, or a rejection. */
  datatype Reply = Returned(response: Response) | Threw(reason: Failure)

  datatype ApiRun = ApiRun(
    reply: Reply,
    store: Store,
    dispatches: seq<Dispatch>,   // calls of `fetch(url, …)`
    refreshCalls: nat,           // calls of `refreshToken()`
    refreshRequests: seq<Dispatch>,
    redirect: Option<string>)    // `window.location.href`

  const SessionKeys: set<string> := {AccessTokenKey, RefreshTokenKey, UserDataKey}

  function ReplyOf(o: FetchOutcome): Reply {
    match o
    case Answered(r) => Returned(r)
    case NetworkFailure => Threw(NetworkError)
  }

  /**
    `apiRequest(url, options)`. `first` is the answer to the first dispatch,
    `refresh` the answer to the refresh POST, `retry` the answer to the
    second dispatch; an answer is consulted only if that request is made.
   */
  function ApiRequest(store: Store, url: string, opts: Options,
                      first: FetchOutcome, refresh: FetchOutcome, retry: FetchOutcome): (run: ApiRun)
    // a network failure or any status but 401: one dispatch, no refresh, nothing stored
    ensures (first.NetworkFailure? || first.response.status != 401) ==>
      run == ApiRun(ReplyOf(first), store, [DispatchWith(store, url, opts)], 0, [], None)
    // on 401 the refresh helper runs exactly once
    ensures first.Answered? && first.response.status == 401 ==>
      run.refreshCalls == 1 && run.refreshRequests == RefreshToken(store, refresh).requests
    // refreshed: exactly one retry, with the token just stored, and its answer returned as is
    ensures first.Answered? && first.response.status == 401 && RefreshToken(store, refresh).refreshed ==>
      && |run.dispatches| == 2
      && run.dispatches[0] == DispatchWith(store, url, opts)
      && run.dispatches[1] == DispatchWith(run.store, url, opts)
      && run.store == RefreshToken(store, refresh).store
      && run.reply == ReplyOf(retry)
      && run.redirect == None
    // not refreshed: the three session keys are removed, the page goes to /login, the call fails
    ensures first.Answered? && first.response.status == 401 && !RefreshToken(store, refresh).refreshed ==>
      && run.dispatches == [DispatchWith(store, url, opts)]
      && run.store == store - SessionKeys
      && run.reply == Threw(AuthenticationFailed)
      && run.redirect == Some(LoginPath)
  {
    var d1 := DispatchWith(store, url, opts);
    match first
    case NetworkFailure => ApiRun(Threw(NetworkError), store, [d1], 0, [], None)
    case Answered(resp) =>
      if resp.status != 401 then ApiRun(Returned(resp), store, [d1], 0, [], None)
      else
        var rr := RefreshToken(store, refresh);
        if rr.refreshed then
          ApiRun(ReplyOf(retry), rr.store, [d1, DispatchWith(rr.store, url, opts)], 1, rr.requests, None)
        else
          ApiRun(Threw(AuthenticationFailed), rr.store - SessionKeys, [d1], 1, rr.requests, Some(LoginPath))
  }

  /** Without caller headers a request carries the stored access token and a JSON content type. */
  lemma DefaultHeadersCarryToken(store: Store, url: string, verb: Value, body: Value)
    requires AccessTokenKey in store
    ensures DispatchWith(store, url, Options(NotGiven, verb, body)).headers ==
      [("Authorization", "Bearer " + store[AccessTokenKey]), ("Content-Type", "application/json")]
  {
  }

  /**
    The only storage keys a call ever changes are the access token (set by a
    refresh) and the three session keys (removed on a failed refresh): the
    login page's "authToken", for one, always survives.
   */
  lemma {:induction false} OnlySessionKeysChange(store: Store, url: string, opts: Options,
                                                 first: FetchOutcome, refresh: FetchOutcome, retry: FetchOutcome, k: string)
    requires k !in SessionKeys
    ensures var run := ApiRequest(store, url, opts, first, refresh, retry);
      (k in run.store <==> k in store) && (k in store ==> run.store[k] == store[k])
  {
    var run := ApiRequest(store, url, opts, first, refresh, retry);
    if first.Answered? && first.response.status == 401 {
      var rr := RefreshToken(store, refresh);
      assert k != AccessTokenKey;
      if rr.refreshed {
        assert run.store == store[AccessTokenKey := rr.store[AccessTokenKey]];
      } else {
        assert run.store == store - SessionKeys;
      }
    }
  }

  /** A call never stores a refresh token or a user profile it did not already have. */
  lemma {:induction false} NeverWritesRefreshOrProfile(store: Store, url: string, opts: Options,
                                                       first: FetchOutcome, refresh: FetchOutcome, retry: FetchOutcome)
    ensures var run := ApiRequest(store, url, opts, first, refresh, retry);
      && (RefreshTokenKey in run.store ==> RefreshTokenKey in store && run.store[RefreshTokenKey] == store[RefreshTokenKey])
      && (UserDataKey in run.store ==> UserDataKey in store && run.store[UserDataKey] == store[UserDataKey])
  {
    var run := ApiRequest(store, url, opts, first, refresh, retry);
    if first.Answered? && first.response.status == 401 {
      var rr := RefreshToken(store, refresh);
      if rr.refreshed {
        assert run.store == store[AccessTokenKey := rr.store[AccessTokenKey]];
      }
    }
  }

  /**
    A 401 answered by a refresh that returns `{ access: "tok2" }` makes the
    second dispatch carry `Bearer tok2`.
   */
  lemma RetryCarriesRefreshedToken(store: Store, url: string, verb: Value, body: Value, retry: FetchOutcome)
    requires Has(store, RefreshTokenKey)
    ensures var refresh := Answered(Response(200, Some(Obj([("access", Str("tok2"))]))));
      var run := ApiRequest(store, url, Options(NotGiven, verb, body), Answered(Response(401, None)), refresh, retry);
      |run.dispatches| == 2 && run.dispatches[1].headers[0] == ("Authorization", "Bearer tok2")
  {
    var data := Obj([("access", Str("tok2"))]);
    assert Prop(data, "access") == Str("tok2");
    var refresh := Answered(Response(200, Some(data)));
    var rr := RefreshToken(store, refresh);
    assert rr.refreshed && rr.store[AccessTokenKey] == "tok2";
    assert GetItem(rr.store, AccessTokenKey) == Str("tok2");
    var opts := Options(NotGiven, verb, body);
    var run := ApiRequest(store, url, opts, Answered(Response(401, None)), refresh, retry);
    assert run.store == rr.store;
    assert run.dispatches[1] == DispatchWith(rr.store, url, opts);
    assert Bearer(Str("tok2")) == "Bearer tok2";
  }

  /**
    With caller headers, the retry is sent with exactly the caller's headers:
    the fresh token written to `defaultOptions.headers` is overridden by the
    `options` spread.
   */
  lemma RetryKeepsCallerHeaders(store: Store, url: string, h: Headers, verb: Value, body: Value,
                                first: FetchOutcome, refresh: FetchOutcome, retry: FetchOutcome)
    ensures var run := ApiRequest(store, url, Options(Given(h), verb, body), first, refresh, retry);
      forall i :: 0 <= i < |run.dispatches| ==> run.dispatches[i].headers == h
  {
  }
}
