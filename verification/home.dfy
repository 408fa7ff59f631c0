/**
  The home-page manager: six sections (slides, the vice-chancellor's
  message, services, marine sections, events, impact figures), each with a
  list and a form, sharing one save, one delete and one edit handler. The
  access token falls back to the login page's "authToken".
 */
module Home {
  import opened JsValues
  import opened JsStrings
  import opened Http
  import opened Dom
  import opened FormEncoding
  import opened Session

  /** The media host; the API base is the host followed by "/api", which `replace("/api", "")` strips off again. */
  const Host := "http://localhost:8000"
  const ApiBase := Host + "/api"
  const Saved := "Saved successfully!"
  const SaveFailed := "Error saving. See console for details."
  const Deleted := "Deleted successfully!"
  const DeleteFailed := "Failed to delete item."
  const ToggleFailed := "Failed to toggle active state"

  datatype Section = Slides | VcMessage | Services | Marine | Events | Impact

  function Endpoint(sec: Section): string {
    match sec
    case Slides => "home-slides"
    case VcMessage => "home-vc-message"
    case Services => "home-services"
    case Marine => "home-marine"
    case Events => "home-events"
    case Impact => "home-impact"
  }

  /** The empty form of each section, which is also what its reset callback restores. */
  function DefaultForm(sec: Section): Record {
    match sec
    case Slides => [("id", Null), ("text", Str("")), ("image", Null), ("order_index", Num(0)), ("is_active", Bool(true))]
    case VcMessage => [("id", Null), ("name", Str("")), ("title", Str("")), ("image", Null), ("video", Null), ("message_text", Str(""))]
    case Services => [("id", Null), ("title", Str("")), ("description", Str("")), ("image", Null)]
    case Marine => [("id", Null), ("title", Str("")), ("description", Str("")), ("image", Null)]
    case Events => [("id", Null), ("title", Str("")), ("subtitle", Str("")), ("date", Str("")), ("image", Null), ("badge", Str("ZAFIRI"))]
    case Impact => [("id", Null), ("impact_type", Str("visitors")), ("title", Str("")), ("description", Str("")), ("icon", Null), ("target", Num(0))]
  }

  /** One value per section. */
  datatype Six<T> = Six(slides: T, vc: T, services: T, marine: T, events: T, impact: T)

  function At<T>(x: Six<T>, sec: Section): T {
    match sec
    case Slides => x.slides
    case VcMessage => x.vc
    case Services => x.services
    case Marine => x.marine
    case Events => x.events
    case Impact => x.impact
  }

  function Put<T>(x: Six<T>, sec: Section, v: T): (y: Six<T>)
    ensures At(y, sec) == v
    ensures forall other :: other != sec ==> At(y, other) == At(x, other)
  {
    match sec
    case Slides => x.(slides := v)
    case VcMessage => x.(vc := v)
    case Services => x.(services := v)
    case Marine => x.(marine := v)
    case Events => x.(events := v)
    case Impact => x.(impact := v)
  }

  datatype State = State(lists: Six<Value>, forms: Six<Record>)

  const Initial := State(Six(Arr([]), Arr([]), Arr([]), Arr([]), Arr([]), Arr([])),
                         Six(DefaultForm(Slides), DefaultForm(VcMessage), DefaultForm(Services),
                             DefaultForm(Marine), DefaultForm(Events), DefaultForm(Impact)))

  /** One handler run: the new state, the calls made, whether `fetchData` runs again, the alert shown. */
  datatype Step = Step(state: State, calls: seq<Call>, refetch: bool, alert: Option<string>)

  // ---------------------------------------------------------------------
  // Helpers
  // ---------------------------------------------------------------------

  /** `getAuthHeaders()`: the access token, else the login page's token, else no header at all. */
  function GetAuthHeaders(store: Store): (h: Headers)
    ensures Has(store, AccessTokenKey) ==> h == [("Authorization", "Bearer " + store[AccessTokenKey])]
    ensures !Has(store, AccessTokenKey) && Has(store, AuthTokenKey) ==> h == [("Authorization", "Bearer " + store[AuthTokenKey])]
    ensures h == [] <==> !Has(store, AccessTokenKey) && !Has(store, AuthTokenKey)
  {
    var token := Or(GetItem(store, AccessTokenKey), GetItem(store, AuthTokenKey));
    if Truthy(token) then [("Authorization", Bearer(token))] else []
  }

  /**
    `getFileUrl(fileField)`: nothing for a falsy value; an object URL for a
    chosen file; for an object with a truthy `url`, that URL when it starts
    with "http" and the host glued to it otherwise; for a string, itself
    when it is an "http://" or "https://" URL and otherwise the host and
    the path with one "/" between them; nothing for any other value.
   */
  function GetFileUrl(v: Value): (src: MediaSrc)
    ensures !Truthy(v) ==> src == NoMedia
    ensures v.File? ==> src == ObjectUrl(v.file)
    ensures v.Str? && (StartsWith(v.s, "http://") || StartsWith(v.s, "https://")) ==> src == Located(v)
    ensures v.Obj? && Prop(v, "url").Str? && Truthy(Prop(v, "url")) ==>
      src == Located(if StartsWith(Prop(v, "url").s, "http") then Prop(v, "url") else Str(Host + Prop(v, "url").s))
    ensures src.TypeError? <==> v.Obj? && Truthy(Prop(v, "url")) && !Prop(v, "url").Str?
    ensures src == NoMedia <==> !Truthy(v) || (v.Obj? && !Truthy(Prop(v, "url"))) || v.Bool? || v.Num? || v.Arr?
  {
    if !Truthy(v) then NoMedia
    else match v
      case File(f) => ObjectUrl(f)
      case Obj(_) =>
        var url := Prop(v, "url");
        if !Truthy(url) then NoMedia
        else if !url.Str? then TypeError
        else if StartsWith(url.s, "http") then Located(url)
        else Located(Str(Host + url.s))
      case Str(s) =>
        if StartsWith(s, "http://") || StartsWith(s, "https://") then Located(v)
        else Located(Str(Host + (if StartsWith(s, "/") then "" else "/") + s))
      case _ => NoMedia
  }

  /** A server path becomes a URL on the host with exactly one "/" between host and path. */
  lemma FileUrlJoinsOnce(p: string)
    requires p != "" && !StartsWith(p, "http://") && !StartsWith(p, "https://")
    ensures var rest := if StartsWith(p, "/") then p[1..] else p;
      GetFileUrl(Str(p)) == Located(Str(Host + "/" + rest))
  {
    if StartsWith(p, "/") {
      assert p == "/" + p[1..];
      assert Host + "" + p == Host + "/" + p[1..];
    } else {
      assert Host + "/" + p == Host + "/" + p;
    }
  }

  /** Every text path resolves to an "http://" or "https://" URL, which resolves to itself. */
  lemma FileUrlIdempotent(p: string)
    requires p != ""
    ensures GetFileUrl(Str(p)).Located? && GetFileUrl(GetFileUrl(Str(p)).url) == GetFileUrl(Str(p))
  {
    if !StartsWith(p, "http://") && !StartsWith(p, "https://") {
      var u := GetFileUrl(Str(p)).url.s;
      StartsWithConcat(Host, u[|Host|..]);
      assert u == Host + u[|Host|..];
      StartsWithTrans(u, Host, "http://");
    }
  }

  /**
    The object form does not insert a "/": the same relative path yields a
    different URL when it arrives as `{ url }` than as a plain string.
   */
  lemma ObjectUrlGluesWithoutSlash()
    ensures GetFileUrl(Obj([("url", Str("media/a.png"))])) == Located(Str(Host + "media/a.png"))
    ensures GetFileUrl(Str("media/a.png")) == Located(Str(Host + "/" + "media/a.png"))
  {
    assert Prop(Obj([("url", Str("media/a.png"))]), "url") == Str("media/a.png");
    assert !StartsWith("media/a.png", "http") by { assert "media/a.png"[0] == 'm'; }
    assert !StartsWith("media/a.png", "/") by { assert "media/a.png"[0] == 'm'; }
    assert !StartsWith("media/a.png", "http://") by { assert "media/a.png"[0] == 'm'; }
    assert !StartsWith("media/a.png", "https://") by { assert "media/a.png"[0] == 'm'; }
  }

  /** The name part of `urlOrName.split("?")[0]`, compared case-insensitively against the video extensions. */
  predicate VideoName(s: string) {
    var base := LowerAscii(BeforeFirst(s, '?'));
    EndsWith(base, ".mp4") || EndsWith(base, ".webm") || EndsWith(base, ".ogg") || EndsWith(base, ".mov") || EndsWith(base, ".mkv")
  }

  /** `isVideoFile(urlOrName)`: false for a falsy value; None where `split` is called on a non-string and throws. */
  function IsVideoFile(v: Value): (r: Option<bool>)
    ensures !Truthy(v) ==> r == Some(false)
    ensures v.Str? ==> r == Some(VideoName(v.s))
    ensures r.None? <==> Truthy(v) && !v.Str?
  {
    if !Truthy(v) then Some(false)
    else match v
      case Str(s) => Some(VideoName(s))
      case _ => None
  }

  /** A query string never changes the verdict. */
  lemma QueryIgnored(s: string, q: string)
    requires forall i :: 0 <= i < |s| ==> s[i] != '?'
    ensures VideoName(s + "?" + q) == VideoName(s)
  {
    BeforeFirstStops(s, '?', q);
    assert BeforeFirst(s, '?') == s;
  }

  /** The test ignores ASCII case: a name and its lower-cased form get the same verdict. */
  lemma VideoNameIgnoresCase(s: string)
    ensures VideoName(LowerAscii(s)) == VideoName(s)
  {
    BeforeFirstLower(s, '?');
    LowerAsciiIdempotent(BeforeFirst(s, '?'));
  }

  // ---------------------------------------------------------------------
  // Handlers
  // ---------------------------------------------------------------------

  function ListUrl(sec: Section): string {
    ApiBase + "/" + Endpoint(sec) + "/"
  }

  function ItemUrl(sec: Section, id: Value): string {
    ListUrl(sec) + ToJsString(id) + "/"
  }

  predicate AllResolved(answers: Six<AxiosOutcome>) {
    && answers.slides.Resolved? && answers.vc.Resolved? && answers.services.Resolved?
    && answers.marine.Resolved? && answers.events.Resolved? && answers.impact.Resolved?
  }

  function FetchCalls(store: Store): (calls: seq<Call>)
    ensures |calls| == 6
  {
    var secs := [Slides, VcMessage, Services, Marine, Events, Impact];
    seq(6, i requires 0 <= i < 6 => Call(Request(GET, ListUrl(secs[i]), NoBody), GetAuthHeaders(store)))
  }

  function ListOf(o: AxiosOutcome): Value
    requires o.Resolved?
  {
    Or(o.data, Arr([]))
  }

  /**
    `fetchData()`: six GETs awaited together. Only when all six succeed is
    each list replaced, by its data or `[]` when that is falsy; one failure
    leaves all six lists as they were.
   */
  function FetchData(st: State, store: Store, answers: Six<AxiosOutcome>): (s: Step)
    ensures s.calls == FetchCalls(store) && !s.refetch && s.alert == None && s.state.forms == st.forms
    ensures AllResolved(answers) ==>
      forall sec :: At(s.state.lists, sec) == Or(At(answers, sec).data, Arr([]))
    ensures !AllResolved(answers) ==> s.state == st
  {
    if AllResolved(answers) then
      var lists := Six(ListOf(answers.slides), ListOf(answers.vc), ListOf(answers.services),
                       ListOf(answers.marine), ListOf(answers.events), ListOf(answers.impact));
      Step(st.(lists := lists), FetchCalls(store), false, None)
    else Step(st, FetchCalls(store), false, None)
  }

  /** One failed section keeps even the sections whose fetch succeeded. */
  lemma FetchAllOrNothing(st: State, store: Store, answers: Six<AxiosOutcome>, sec: Section)
    requires At(answers, sec).Rejected?
    ensures At(FetchData(st, store, answers).state.lists, sec) == At(st.lists, sec)
    ensures FetchData(st, store, answers).state == st
  {
  }

  /** The URL of a save: the record's own when its `id` is truthy, the list's otherwise. */
  function SaveUrl(sec: Section, id: Value): string {
    if Truthy(id) then ItemUrl(sec, id) else ListUrl(sec)
  }

  /**
    `handleSave(endpoint, form, reset)`: the form is encoded in key order
    (`null`/`undefined` skipped, booleans as "true"/"false", numbers,
    strings and files kept, other objects dropped). A form with a truthy
    `id` is PUT to its record and, if that fails, PATCHed there once with
    the same body; any other form is POSTed to the list. Only a successful
    save resets that section's form and fetches again.
   */
  function HandleSave(st: State, sec: Section, store: Store, first: AxiosOutcome, fallback: AxiosOutcome): (s: Step)
    ensures var form := At(st.forms, sec);
      var headers := GetAuthHeaders(store) + [("Content-Type", "multipart/form-data")];
      var body := Multipart(Encode(TypedOnly, form));
      && (!Truthy(Get(form, "id")) ==> s.calls == [Call(Request(POST, ListUrl(sec), body), headers)])
      && (Truthy(Get(form, "id")) && first.Resolved? ==>
            s.calls == [Call(Request(PUT, ItemUrl(sec, Get(form, "id")), body), headers)])
      && (Truthy(Get(form, "id")) && first.Rejected? ==>
            s.calls == [Call(Request(PUT, ItemUrl(sec, Get(form, "id")), body), headers),
                        Call(Request(PATCH, ItemUrl(sec, Get(form, "id")), body), headers)])
    ensures var saved := first.Resolved? || (Truthy(Get(At(st.forms, sec), "id")) && fallback.Resolved?);
      && (saved ==> s.state == st.(forms := Put(st.forms, sec, DefaultForm(sec))) && s.refetch && s.alert == Some(Saved))
      && (!saved ==> s.state == st && !s.refetch && s.alert == Some(SaveFailed))
  {
    var form := At(st.forms, sec);
    var id := Get(form, "id");
    var headers := GetAuthHeaders(store) + [("Content-Type", "multipart/form-data")];
    var body := Multipart(Encode(TypedOnly, form));
    var url := SaveUrl(sec, id);
    var calls :=
      if !Truthy(id) then [Call(Request(POST, url, body), headers)]
      else if first.Resolved? then [Call(Request(PUT, url, body), headers)]
      else [Call(Request(PUT, url, body), headers), Call(Request(PATCH, url, body), headers)];
    var saved := first.Resolved? || (Truthy(id) && fallback.Resolved?);
    if saved then Step(st.(forms := Put(st.forms, sec, DefaultForm(sec))), calls, true, Some(Saved))
    else Step(st, calls, false, Some(SaveFailed))
  }

  /** A save never sends more than one fallback, and only an update ever falls back. */
  lemma SaveFallsBackOnce(st: State, sec: Section, store: Store, first: AxiosOutcome, fallback: AxiosOutcome)
    ensures var s := HandleSave(st, sec, store, first, fallback);
      && 1 <= |s.calls| <= 2
      && (|s.calls| == 2 <==> Truthy(Get(At(st.forms, sec), "id")) && first.Rejected?)
      && (forall i :: 0 <= i < |s.calls| ==> s.calls[i].request.body == s.calls[0].request.body)
      && (forall i :: 0 <= i < |s.calls| ==> s.calls[i].request.url == SaveUrl(sec, Get(At(st.forms, sec), "id")))
  {
  }

  /** A failed save never touches any form or list. */
  lemma FailedSaveKeepsForms(st: State, sec: Section, store: Store)
    ensures HandleSave(st, sec, store, Rejected, Rejected).state == st
  {
  }

  /** `handleEdit(setter, item)`: the section's form becomes a copy of the record; the other sections are untouched. */
  function HandleEdit(st: State, sec: Section, item: Record): (st': State)
    ensures At(st'.forms, sec) == item
    ensures forall other :: other != sec ==> At(st'.forms, other) == At(st.forms, other)
    ensures st'.lists == st.lists
  {
    st.(forms := Put(st.forms, sec, item))
  }

  /**
    Editing a record and saving it updates that record, and re-sends the
    stored media path as text, since the edit copies it into the form.
   */
  lemma EditThenSaveResendsPath(st: State, sec: Section, store: Store, item: Record, path: string,
                                first: AxiosOutcome, fallback: AxiosOutcome)
    requires Truthy(Get(item, "id")) && Get(item, "image") == Str(path)
    ensures var s := HandleSave(HandleEdit(st, sec, item), sec, store, first, fallback);
      && s.calls[0].request.verb == PUT
      && s.calls[0].request.url == ItemUrl(sec, Get(item, "id"))
      && ("image", Text(path)) in s.calls[0].request.body.entries
  {
    var form := At(HandleEdit(st, sec, item).forms, sec);
    assert form == item;
    GetIndexOf(item, "image");
    var i := IndexOf(item, "image");
    assert 0 <= i && item[i] == ("image", Str(path));
    EncodeMembers(TypedOnly, item, "image", Text(path));
  }

  /** `handleDelete(endpoint, id)`: nothing without confirmation; otherwise one DELETE and an alert. */
  function HandleDelete(st: State, sec: Section, store: Store, id: Value, confirmed: bool, outcome: AxiosOutcome): (s: Step)
    ensures !confirmed ==> s == Step(st, [], false, None)
    ensures confirmed ==> s.calls == [Call(Request(DELETE, ItemUrl(sec, id), NoBody), GetAuthHeaders(store))] && s.state == st
    ensures confirmed && outcome.Resolved? ==> s.refetch && s.alert == Some(Deleted)
    ensures confirmed && outcome.Rejected? ==> !s.refetch && s.alert == Some(DeleteFailed)
  {
    if !confirmed then Step(st, [], false, None)
    else
      var call := [Call(Request(DELETE, ItemUrl(sec, id), NoBody), GetAuthHeaders(store))];
      match outcome
      case Resolved(_) => Step(st, call, true, Some(Deleted))
      case Rejected => Step(st, call, false, Some(DeleteFailed))
  }

  /**
    `toggleSlideActive(s)`: one PATCH of `is_active` set to the negation of
    the slide's flag (so a missing flag turns it on). A `null` slide throws
    before the request and is reported like a failed request.
   */
  function ToggleSlideActive(st: State, store: Store, slide: Value, outcome: AxiosOutcome): (s: Step)
    ensures Nullish(slide) ==> s == Step(st, [], false, Some(ToggleFailed))
    ensures !Nullish(slide) ==>
      s.calls == [Call(Request(PATCH, ItemUrl(Slides, Prop(slide, "id")),
                               Json(Obj([("is_active", Bool(!Truthy(Prop(slide, "is_active"))))]))),
                       GetAuthHeaders(store))]
    ensures !Nullish(slide) && outcome.Resolved? ==> s.state == st && s.refetch && s.alert == None
    ensures !Nullish(slide) && outcome.Rejected? ==> s.state == st && !s.refetch && s.alert == Some(ToggleFailed)
  {
    if Nullish(slide) then Step(st, [], false, Some(ToggleFailed))
    else
      var body := Json(Obj([("is_active", Bool(!Truthy(Prop(slide, "is_active"))))]));
      var call := [Call(Request(PATCH, ItemUrl(Slides, Prop(slide, "id")), body), GetAuthHeaders(store))];
      match outcome
      case Resolved(_) => Step(st, call, true, None)
      case Rejected => Step(st, call, false, Some(ToggleFailed))
  }

  /** Toggling an active slide asks to deactivate it, and toggling an inactive one asks to activate it. */
  lemma ToggleNegates(st: State, store: Store, id: Value, active: bool, outcome: AxiosOutcome)
    ensures var slide := Obj([("id", id), ("is_active", Bool(active))]);
      ToggleSlideActive(st, store, slide, outcome).calls[0].request.body == Json(Obj([("is_active", Bool(!active))]))
  {
    var fields := [("id", id), ("is_active", Bool(active))];
    assert fields[0].0 != fields[1].0;
    GetFirst(fields, 1);
  }

  /**
    `handleFormChange(setter)(e)`: a file input stores its first file
    (`undefined` when none), a checkbox its checked state, anything else
    its text; only the named field changes.
   */
  function HandleFormChange(st: State, sec: Section, e: InputEvent): (st': State)
    ensures e.kind.FilePicker? ==> Get(At(st'.forms, sec), e.name) == FirstFile(e)
    ensures e.kind.Checkbox? ==> Get(At(st'.forms, sec), e.name) == Bool(e.kind.checked)
    ensures e.kind.TextInput? ==> Get(At(st'.forms, sec), e.name) == Str(e.value)
    ensures forall k :: k != e.name ==> Get(At(st'.forms, sec), k) == Get(At(st.forms, sec), k)
    ensures forall other :: other != sec ==> At(st'.forms, other) == At(st.forms, other)
    ensures st'.lists == st.lists
  {
    var v := match e.kind
      case FilePicker(_) => FirstFile(e)
      case Checkbox(c) => Bool(c)
      case TextInput => Str(e.value);
    st.(forms := Put(st.forms, sec, Set(At(st.forms, sec), e.name, v)))
  }

  /** A checkbox's state reaches the server as the text "true" or "false". */
  lemma CheckboxSentAsText(st: State, sec: Section, e: InputEvent)
    requires e.kind.Checkbox?
    ensures var form := At(HandleFormChange(st, sec, e).forms, sec);
      exists i :: 0 <= i < |form| && form[i].0 == e.name
        && Convert(TypedOnly, form[i].1) == Some(Text(if e.kind.checked then "true" else "false"))
  {
    var form := At(HandleFormChange(st, sec, e).forms, sec);
    assert Get(form, e.name) == Bool(e.kind.checked);
    GetIndexOf(form, e.name);
    var i := IndexOf(form, e.name);
    assert 0 <= i && form[i].1 == Bool(e.kind.checked);
  }
}
