/**
  The Events page. Unlike the axios-based panels it calls `fetch` directly
  with the stored access token, treats a non-2xx status as a failure only
  when saving or deleting, and binds the edited event through a truthy
  `editingId` instead of a separate flag.
 */
module Events {
  import opened JsValues
  import opened JsStrings
  import opened Http
  import opened Dom
  import opened FormEncoding
  import opened Session

  const ApiBase := "http://localhost:8000/api"
  const Collection := ApiBase + "/events/"
  const MediaHost := "http://localhost:8000"
  const FetchFailed := "Failed to fetch events."
  const SaveFailed := "Failed to save event."
  const DeleteDone := "Event deleted successfully!"
  const DeleteFailed := "Failed to delete event."
  const DateLength := 16

  const DefaultForm: Record := [
    ("title", Str("")), ("description", Str("")), ("location", Str("")),
    ("start_date", Str("")), ("end_date", Str("")), ("status", Str("draft")), ("image", Null)]

  /** The page state; the two banners are strings, "" meaning hidden. */
  datatype State = State(events: Value, error: string, success: string, form: Record, editingId: Value, preview: Preview)

  datatype Step = Step(state: State, calls: seq<Call>, refetch: bool)

  const Initial := State(Arr([]), "", "", DefaultForm, Null, NoPreview)

  function Auth(store: Store): Headers {
    [("Authorization", Bearer(GetItem(store, AccessTokenKey)))]
  }

  function EventUrl(id: Value): string {
    Collection + ToJsString(id) + "/"
  }

  /**
    `fetchEvents()`: the list becomes `data.results || data`. The status is
    never looked at; a body that is not JSON, or is `null`, counts as a
    failure and keeps the list.
   */
  function FetchEvents(st: State, store: Store, answer: FetchOutcome): (s: Step)
    ensures s.calls == [Call(Request(GET, Collection, NoBody), Auth(store))] && !s.refetch
    ensures answer.Answered? && answer.response.body.Some? && !Nullish(answer.response.body.value) ==>
      var data := answer.response.body.value;
      s.state == st.(events := if Truthy(Prop(data, "results")) then Prop(data, "results") else data)
    ensures answer.NetworkFailure? || answer.response.body.None? || Nullish(answer.response.body.value) ==>
      s.state == st.(error := FetchFailed)
  {
    var call := [Call(Request(GET, Collection, NoBody), Auth(store))];
    match answer
    case NetworkFailure => Step(st.(error := FetchFailed), call, false)
    case Answered(resp) =>
      match resp.body
      case None => Step(st.(error := FetchFailed), call, false)
      case Some(data) =>
        if Nullish(data) then Step(st.(error := FetchFailed), call, false)
        else Step(st.(events := Or(Prop(data, "results"), data)), call, false)
  }

  /** A paginated envelope and a bare array give the same list, an empty page included. */
  lemma EnvelopeOrBareArray(st: State, store: Store, status: int, xs: seq<Value>)
    ensures FetchEvents(st, store, Answered(Response(status, Some(Obj([("results", Arr(xs))]))))).state.events == Arr(xs)
    ensures FetchEvents(st, store, Answered(Response(status, Some(Arr(xs))))).state.events == Arr(xs)
  {
    assert Prop(Obj([("results", Arr(xs))]), "results") == Arr(xs);
  }

  /**
    `handleChange(e)`: the "image" input with a chosen file stores the file
    and previews it; every other change stores the input's text.
   */
  function HandleChange(st: State, e: InputEvent): (st': State)
    ensures e.name == "image" && e.kind.FilePicker? && |e.kind.files| > 0 ==>
      Get(st'.form, "image") == File(e.kind.files[0]) && st'.preview == LocalFile(e.kind.files[0])
    ensures !(e.name == "image" && e.kind.FilePicker? && |e.kind.files| > 0) ==>
      Get(st'.form, e.name) == Str(e.value) && st'.preview == st.preview
    ensures forall k :: k != e.name ==> Get(st'.form, k) == Get(st.form, k)
    ensures st'.events == st.events && st'.editingId == st.editingId
    ensures st'.error == st.error && st'.success == st.success
  {
    if e.name == "image" && e.kind.FilePicker? && |e.kind.files| > 0 then
      var f := e.kind.files[0];
      st.(form := Set(st.form, "image", File(f)), preview := LocalFile(f))
    else
      st.(form := Set(st.form, e.name, Str(e.value)))
  }

  /**
    `handleSubmit(e)`: both banners are cleared, the form is sent as a
    multipart body without its `null` and "" fields, PUT to the bound event
    when `editingId` is truthy and POST otherwise; only a 2xx answer counts
    as saved.
   */
  function HandleSubmit(st: State, store: Store, answer: FetchOutcome): (s: Step)
    ensures |s.calls| == 1 && s.calls[0].headers == Auth(store)
    ensures s.calls[0].request.body == Multipart(Encode(SkipNullOrEmpty, st.form))
    ensures Truthy(st.editingId) ==> s.calls[0].request.verb == PUT && s.calls[0].request.url == EventUrl(st.editingId)
    ensures !Truthy(st.editingId) ==> s.calls[0].request.verb == POST && s.calls[0].request.url == Collection
    // a 2xx answer: the message names the kind of save, the form is reset
    // and the event list is left for the refetch
    ensures answer.Answered? && IsOk(answer.response.status) ==>
      && s.state == st.(error := "", form := DefaultForm, editingId := Null, preview := NoPreview,
                        success := if Truthy(st.editingId) then "Event updated successfully!" else "Event created successfully!")
      && s.refetch
    ensures !(answer.Answered? && IsOk(answer.response.status)) ==>
      s.state == st.(error := SaveFailed, success := "") && !s.refetch
  {
    var editing := Truthy(st.editingId);
    var url := if editing then EventUrl(st.editingId) else Collection;
    var call := [Call(Request(if editing then PUT else POST, url, Multipart(Encode(SkipNullOrEmpty, st.form))), Auth(store))];
    var cleared := st.(error := "", success := "");
    if answer.Answered? && IsOk(answer.response.status) then
      var done := if editing then "Event updated successfully!" else "Event created successfully!";
      Step(cleared.(success := done, form := DefaultForm, editingId := Null, preview := NoPreview), call, true)
    else
      Step(cleared.(error := SaveFailed), call, false)
  }

  /**
    One date of `handleEdit`: "" when missing or falsy, otherwise the
    value's own `slice(0, 16)`. Text keeps its first 16 characters
    (`YYYY-MM-DDTHH:MM`), an array its first 16 elements, and a file gives
    the Blob of its first 16 bytes, which has no name and no type. Other
    truthy values have no `slice`, so the handler throws (None).
   */
  function EditDate(v: Value): (d: Option<Value>)
    ensures !Truthy(v) ==> d == Some(Str(""))
    ensures v.Str? ==> d == Some(Str(Take(v.s, DateLength)))
    ensures v.Arr? ==>
      && d.Some? && d.value.Arr?
      && |d.value.elems| == (if |v.elems| < DateLength then |v.elems| else DateLength)
      && d.value.elems == v.elems[..|d.value.elems|]
    ensures v.File? ==>
      && d.Some? && d.value.File? && d.value.file.name == "" && d.value.file.mime == ""
      && d.value.file.size <= v.file.size && d.value.file.size <= DateLength
      && (d.value.file.size == v.file.size || d.value.file.size == DateLength)
    ensures d.None? <==> Truthy(v) && (v.Bool? || v.Num? || v.Obj?)
  {
    if !Truthy(v) then Some(Str(""))
    else match v
      case Str(s) => Some(Str(Take(s, DateLength)))
      case Arr(xs) => Some(Arr(if |xs| <= DateLength then xs else xs[..DateLength]))
      case File(f) => Some(File(FileRef("", "", if f.size <= DateLength then f.size else DateLength)))
      case _ => None
  }

  /** The form `handleEdit` builds from an event and its two cut dates. */
  function EditForm(ev: Record, start: Value, end: Value): (form: Record)
    ensures |form| == |DefaultForm| && forall i :: 0 <= i < |form| ==> form[i].0 == DefaultForm[i].0
    ensures form[0] == ("title", Get(ev, "title")) && form[1] == ("description", Get(ev, "description"))
    ensures form[2] == ("location", Get(ev, "location")) && form[5] == ("status", Get(ev, "status"))
    ensures form[3] == ("start_date", start) && form[4] == ("end_date", end) && form[6] == ("image", Null)
  {
    [("title", Get(ev, "title")), ("description", Get(ev, "description")), ("location", Get(ev, "location")),
     ("start_date", start), ("end_date", end), ("status", Get(ev, "status")), ("image", Null)]
  }

  /**
    `handleEdit(event)`: the form takes the event's text fields as they are
    (missing ones become `undefined`), the two dates cut to 16 characters,
    and no image; the id is bound and the preview cleared. If a date is
    truthy but has no `slice` the handler throws and nothing changes.
   */
  function HandleEdit(st: State, ev: Record): (st': State)
    ensures EditDate(Get(ev, "start_date")).None? || EditDate(Get(ev, "end_date")).None? ==> st' == st
    ensures EditDate(Get(ev, "start_date")).Some? && EditDate(Get(ev, "end_date")).Some? ==>
      && st'.form == EditForm(ev, EditDate(Get(ev, "start_date")).value, EditDate(Get(ev, "end_date")).value)
      && st'.editingId == Get(ev, "id") && st'.preview == NoPreview
      && st'.error == st.error && st'.success == st.success && st'.events == st.events
  {
    var start, end := EditDate(Get(ev, "start_date")), EditDate(Get(ev, "end_date"));
    if start.None? || end.None? then st
    else st.(form := EditForm(ev, start.value, end.value), editingId := Get(ev, "id"), preview := NoPreview)
  }

  /**
    Editing an event whose dates are text keeps their first 16 characters
    and drops its image, whatever the event held.
   */
  lemma EditCutsDatesDropsImage(st: State, ev: Record, start: string, end: string)
    requires Get(ev, "start_date") == Str(start) && Get(ev, "end_date") == Str(end)
    ensures var form := HandleEdit(st, ev).form;
      && Get(form, "start_date") == Str(Take(start, DateLength))
      && Get(form, "end_date") == Str(Take(end, DateLength))
      && Get(form, "image") == Null
  {
    EditFormReads(ev, Str(Take(start, DateLength)), Str(Take(end, DateLength)));
  }

  /**
    An event whose dates are arrays is still edited: the array's own
    `slice` keeps its first 16 elements, and the id is bound.
   */
  lemma ArrayDatesAreSliced(st: State, ev: Record, xs: seq<Value>, ys: seq<Value>)
    requires Get(ev, "start_date") == Arr(xs) && Get(ev, "end_date") == Arr(ys)
    ensures var edited := HandleEdit(st, ev);
      && edited.editingId == Get(ev, "id")
      && Get(edited.form, "start_date") == Arr(if |xs| <= DateLength then xs else xs[..DateLength])
      && Get(edited.form, "end_date") == Arr(if |ys| <= DateLength then ys else ys[..DateLength])
  {
    var start, end := EditDate(Arr(xs)).value, EditDate(Arr(ys)).value;
    EditFormReads(ev, start, end);
  }

  lemma EditFormReads(ev: Record, start: Value, end: Value)
    ensures var form := EditForm(ev, start, end);
      Get(form, "start_date") == start && Get(form, "end_date") == end && Get(form, "image") == Null
  {
    var form := EditForm(ev, start, end);
    assert forall j :: 0 <= j < 3 ==> form[j].0 != form[3].0;
    GetFirst(form, 3);
    assert forall j :: 0 <= j < 4 ==> form[j].0 != form[4].0;
    GetFirst(form, 4);
    assert forall j :: 0 <= j < 6 ==> form[j].0 != form[6].0;
    GetFirst(form, 6);
  }

  /**
    Editing an event that has no description and saving it sends the text
    "undefined" as its description: the submit filter drops only `null`
    and "".
   */
  lemma MissingFieldSentAsUndefined(st: State, store: Store, ev: Record, answer: FetchOutcome)
    requires Get(ev, "description") == Undefined
    requires !Truthy(Get(ev, "start_date")) && !Truthy(Get(ev, "end_date"))
    ensures ("description", Text("undefined")) in HandleSubmit(HandleEdit(st, ev), store, answer).calls[0].request.body.entries
  {
    var edited := HandleEdit(st, ev);
    assert EditDate(Get(ev, "start_date")) == Some(Str("")) && EditDate(Get(ev, "end_date")) == Some(Str(""));
    var form := EditForm(ev, Str(""), Str(""));
    assert edited.form == form;
    assert form[1] == ("description", Undefined);
    assert Convert(SkipNullOrEmpty, Undefined) == Some(Text("undefined"));
    EncodeMembers(SkipNullOrEmpty, form, "description", Text("undefined"));
    assert HandleSubmit(edited, store, answer).calls[0].request.body.entries == Encode(SkipNullOrEmpty, form);
  }

  /** An event whose id is 0 is falsy: saving its edit creates a new event instead of updating it. */
  lemma FalsyIdCreates(st: State, store: Store, answer: FetchOutcome)
    requires st.editingId == Num(0)
    ensures HandleSubmit(st, store, answer).calls[0].request.verb == POST
  {
  }

  /** `handleDelete(id)`: nothing without confirmation; a non-2xx answer is a failure. */
  function HandleDelete(st: State, store: Store, id: Value, confirmed: bool, answer: FetchOutcome): (s: Step)
    ensures !confirmed ==> s == Step(st, [], false)
    ensures confirmed ==> s.calls == [Call(Request(DELETE, EventUrl(id), NoBody), Auth(store))]
    ensures confirmed && answer.Answered? && IsOk(answer.response.status) ==>
      s.state == st.(success := DeleteDone) && s.refetch
    ensures confirmed && !(answer.Answered? && IsOk(answer.response.status)) ==>
      s.state == st.(error := DeleteFailed) && !s.refetch
  {
    if !confirmed then Step(st, [], false)
    else
      var call := [Call(Request(DELETE, EventUrl(id), NoBody), Auth(store))];
      if answer.Answered? && IsOk(answer.response.status) then Step(st.(success := DeleteDone), call, true)
      else Step(st.(error := DeleteFailed), call, false)
  }

  /** `cancelEdit()`: the default form, no binding, no preview, no banners. */
  function CancelEdit(st: State): (st': State)
    ensures st' == Initial.(events := st.events)
  {
    State(st.events, "", "", DefaultForm, Null, NoPreview)
  }

  /** An image that is a path rather than a missing value or an "http" URL. */
  predicate RelativeImage(ev: Record) {
    Truthy(Get(ev, "image")) && Get(ev, "image").Str? && !StartsWith(Get(ev, "image").s, "http")
  }

  /**
    `getImageUrl(event)`: no image gives no source; an image starting with
    "http" wins over `image_url`; then a truthy `image_url`; then the media
    host joined to the path with exactly one "/".
   */
  function GetImageUrl(ev: Record): (src: MediaSrc)
    ensures !Truthy(Get(ev, "image")) <==> src == NoMedia
    ensures Truthy(Get(ev, "image")) && !Get(ev, "image").Str? <==> src == TypeError
    ensures Get(ev, "image").Str? && StartsWith(Get(ev, "image").s, "http") ==> src == Located(Get(ev, "image"))
    ensures RelativeImage(ev) && Truthy(Get(ev, "image_url")) ==> src == Located(Get(ev, "image_url"))
    ensures RelativeImage(ev) && !Truthy(Get(ev, "image_url")) ==>
      src.Located? && src.url.Str? && StartsWith(src.url.s, MediaHost + "/")
  {
    var image := Get(ev, "image");
    if !Truthy(image) then NoMedia
    else match image
      case Str(s) =>
        if StartsWith(s, "http") then Located(image)
        else if Truthy(Get(ev, "image_url")) then Located(Get(ev, "image_url"))
        else if StartsWith(s, "/") then
          assert MediaHost + s == MediaHost + "/" + s[1..];
          StartsWithConcat(MediaHost + "/", s[1..]);
          Located(Str(MediaHost + s))
        else
          StartsWithConcat(MediaHost + "/", s);
          Located(Str(MediaHost + "/" + s))
      case _ => TypeError
  }

  /**
    A relative image path without `image_url` lands on the media host with
    exactly one "/" between host and path, whether or not the path had one.
   */
  lemma RelativeImageJoinsOnce(ev: Record, path: string)
    requires Get(ev, "image") == Str(path) && path != "" && !StartsWith(path, "http")
    requires !Truthy(Get(ev, "image_url"))
    ensures var p := if StartsWith(path, "/") then path[1..] else path;
      GetImageUrl(ev) == Located(Str(MediaHost + "/" + p))
  {
    if StartsWith(path, "/") {
      assert path == "/" + path[1..];
      assert MediaHost + path == MediaHost + "/" + path[1..];
    }
  }

  /** The URL a stored image resolves to is itself resolved unchanged: resolution is idempotent. */
  lemma ResolvedImageIsFixed(ev: Record, other: Record)
    requires GetImageUrl(ev).Located? && GetImageUrl(ev).url.Str? && GetImageUrl(ev).url.s != ""
    requires Get(other, "image") == GetImageUrl(ev).url
    requires StartsWith(GetImageUrl(ev).url.s, "http")
    ensures GetImageUrl(other) == GetImageUrl(ev)
  {
  }
}
