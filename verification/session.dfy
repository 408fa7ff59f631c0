/**
  Browser storage as the dashboard uses it. `localStorage` is a map from key
  to text; `getItem` yields the text or `null`. Three different token keys
  are in use: the login page and the app shell use "authToken", the
  authenticated fetch helper uses "access_token" and "refresh_token".
 */
module Session {
  import opened JsValues

  type Store = map<string, string>

  const AccessTokenKey := "access_token"
  const RefreshTokenKey := "refresh_token"
  const AuthTokenKey := "authToken"
  const UserDataKey := "userData"

  /** `localStorage.getItem(k)` */
  function GetItem(s: Store, k: string): (v: Value)
    ensures v.Str? || v.Null?
    ensures v.Null? <==> k !in s
    ensures v.Str? ==> v.s == s[k]
  {
    if k in s then Str(s[k]) else Null
  }

  /** `if (localStorage.getItem(k))`: the key is stored with non-empty text. */
  predicate Has(s: Store, k: string) {
    Truthy(GetItem(s, k))
  }

  lemma HasIff(s: Store, k: string)
    ensures Has(s, k) <==> k in s && s[k] != ""
  {
  }

  /** The cached profile `{ userId, username, email }` built from a login response. */
  function UserRecord(data: Value): (u: Value)
    requires !Nullish(data)
    ensures Prop(u, "userId") == Prop(data, "user_id")
    ensures Prop(u, "username") == Prop(data, "username")
    ensures Prop(u, "email") == Prop(data, "email")
  {
    var r := [("userId", Prop(data, "user_id")), ("username", Prop(data, "username")), ("email", Prop(data, "email"))];
    assert r[0].0 != r[1].0 && r[0].0 != r[2].0 && r[1].0 != r[2].0;
    var u := Literal(r);
    assert Prop(u, r[0].0) == r[0].1 && Prop(u, r[1].0) == r[1].1 && Prop(u, r[2].0) == r[2].1;
    u
  }
}
