/**
  The list-and-form panel shared by the News, Publications, Services,
  Researches and Projects pages: a list fetched from one collection, a
  draft, an edit binding (`isEditing`, `editingId`) and two banners.

  Every operation returns the new state, the calls it made and whether it
  asked for the list to be fetched again; the answer to each request is an
  input.
 */
module Panel {
  import opened JsValues
  import opened JsStrings
  import opened Http
  import opened Dom
  import opened FormEncoding

  datatype State = State(
    items: Value,
    draft: Record,
    isEditing: bool,
    editingId: Value,
    error: Option<string>,
    success: Option<string>,
    preview: Preview)

  datatype Step = Step(state: State, calls: seq<Call>, refetch: bool)

  const Initial := State(Arr([]), [], false, Null, None, None, NoPreview)

  /** `resetForm()`: empty draft, no edit binding, no banners, no preview. */
  function ResetForm(st: State): (st': State)
    ensures st' == Initial.(items := st.items)
  {
    State(st.items, [], false, Null, None, None, NoPreview)
  }

  /** Resetting forgets an edit entirely: it ends where resetting without the edit would. */
  lemma ResetForgetsEdit(st: State, item: Record, draft: Record, clearsBanners: bool, preview: Preview)
    ensures ResetForm(Edit(st, item, draft, clearsBanners, preview)) == ResetForm(st)
    ensures ResetForm(ResetForm(st)) == ResetForm(st)
  {
  }

  /** `<collection><id>/`: the address of one record. */
  function ItemUrl(collection: string, id: Value): string {
    collection + ToJsString(id) + "/"
  }

  /** The record address determines the record: distinct numeric ids give distinct URLs. */
  lemma ItemUrlInjective(collection: string, m: int, n: int)
    requires ItemUrl(collection, Num(m)) == ItemUrl(collection, Num(n))
    ensures m == n
  {
    var u := ItemUrl(collection, Num(m));
    assert IntToDecimal(m) == u[|collection|..|u| - 1];
    assert IntToDecimal(n) == u[|collection|..|u| - 1];
    IntToDecimalInjective(m, n);
  }

  /**
    The list fetch. On success the list becomes the response data (and, on
    pages that do so, the error banner is cleared); on failure the list is
    kept and the error banner is set.
   */
  function Fetch(st: State, outcome: AxiosOutcome, failure: string, clearsError: bool): (st': State)
    ensures outcome.Resolved? ==> st'.items == outcome.data
    ensures outcome.Resolved? ==> st'.error == if clearsError then None else st.error
    ensures outcome.Rejected? ==> st'.items == st.items && st'.error == Some(failure)
    ensures st'.draft == st.draft && st'.isEditing == st.isEditing && st'.editingId == st.editingId
    ensures st'.success == st.success && st'.preview == st.preview
  {
    match outcome
    case Resolved(data) => if clearsError then st.(items := data, error := None) else st.(items := data)
    case Rejected => st.(error := Some(failure))
  }

  /**
    Submitting the draft: PUT to the bound record while editing, POST to the
    collection otherwise. On success the page sets its success banner and
    then runs `resetForm`, which clears it again, and asks for a refetch;
    failure keeps the draft and binding and sets the error banner.
   */
  function Submit(st: State, collection: string, body: Body, headers: Headers, outcome: AxiosOutcome,
                  failure: string): (s: Step)
    ensures |s.calls| == 1 && s.calls[0].request.body == body && s.calls[0].headers == headers
    ensures st.isEditing ==> s.calls[0].request.verb == PUT && s.calls[0].request.url == ItemUrl(collection, st.editingId)
    ensures !st.isEditing ==> s.calls[0].request.verb == POST && s.calls[0].request.url == collection
    ensures outcome.Resolved? ==>
      && s.state.draft == [] && !s.state.isEditing && s.state.editingId == Null
      && s.state.success == None && s.state.error == None && s.refetch
    ensures outcome.Rejected? ==> s.state == st.(error := Some(failure)) && !s.refetch
    ensures s.state.items == st.items
  {
    var req := if st.isEditing then Request(PUT, ItemUrl(collection, st.editingId), body)
               else Request(POST, collection, body);
    match outcome
    case Resolved(_) => Step(ResetForm(st), [Call(req, headers)], true)
    case Rejected => Step(st.(error := Some(failure)), [Call(req, headers)], false)
  }

  /** Deleting a record: nothing at all happens unless the user confirmed. */
  function Delete(st: State, collection: string, id: Value, confirmed: bool, outcome: AxiosOutcome,
                  done: string, failure: string): (s: Step)
    ensures !confirmed ==> s == Step(st, [], false)
    ensures confirmed ==> s.calls == [Call(Request(DELETE, ItemUrl(collection, id), NoBody), [])]
    ensures confirmed && outcome.Resolved? ==> s.state == st.(success := Some(done)) && s.refetch
    ensures confirmed && outcome.Rejected? ==> s.state == st.(error := Some(failure)) && !s.refetch
  {
    if !confirmed then Step(st, [], false)
    else
      var req := [Call(Request(DELETE, ItemUrl(collection, id), NoBody), [])];
      match outcome
      case Resolved(_) => Step(st.(success := Some(done)), req, true)
      case Rejected => Step(st.(error := Some(failure)), req, false)
  }

  /** A text input's change: `{ ...draft, [name]: value }`. */
  function ChangeText(st: State, name: string, value: string): (st': State)
    ensures Get(st'.draft, name) == Str(value)
    ensures forall k :: k != name ==> Get(st'.draft, k) == Get(st.draft, k)
    ensures st' == st.(draft := st'.draft)
  {
    st.(draft := Set(st.draft, name, Str(value)))
  }

  /** A file input's change: the first chosen file (or `undefined`) goes into the draft and the preview follows it. */
  function ChangeFile(st: State, e: InputEvent): (st': State)
    requires e.kind.FilePicker?
    ensures Get(st'.draft, e.name) == FirstFile(e)
    ensures forall k :: k != e.name ==> Get(st'.draft, k) == Get(st.draft, k)
    ensures |e.kind.files| > 0 ==> st'.preview == LocalFile(e.kind.files[0])
    ensures |e.kind.files| == 0 ==> st'.preview == NoPreview
    ensures st' == st.(draft := st'.draft, preview := st'.preview)
  {
    var file := FirstFile(e);
    st.(draft := Set(st.draft, e.name, file), preview := if file.File? then LocalFile(file.file) else NoPreview)
  }

  /**
    `draft` is what `handleEdit` builds from the listed `item` with the page's
    `fallbacks`: the same keys in the same order, and each field the item's
    own value when that is truthy and the fallback otherwise (so `0`, `""`
    and `false` are replaced too).
   */
  predicate EditedFrom(draft: Record, item: Record, fallbacks: Record) {
    && Keys(draft) == Keys(fallbacks)
    && forall i :: 0 <= i < |fallbacks| ==>
         Get(draft, fallbacks[i].0) == if Truthy(Get(item, fallbacks[i].0)) then Get(item, fallbacks[i].0) else fallbacks[i].1
  }

  /** `{ k: item.k || d, ... }` for each `(k, d)` of `fallbacks`, in order. */
  function EditDraft(item: Record, fallbacks: Record): (r: Record)
    requires UniqueKeys(fallbacks)
    ensures EditedFrom(r, item, fallbacks) && UniqueKeys(r)
  {
    var r := seq(|fallbacks|, i requires 0 <= i < |fallbacks| => (fallbacks[i].0, Or(Get(item, fallbacks[i].0), fallbacks[i].1)));
    OrFields(item, fallbacks, r);
    r
  }

  lemma OrFields(item: Record, fallbacks: Record, r: Record)
    requires UniqueKeys(fallbacks) && |r| == |fallbacks|
    requires forall i :: 0 <= i < |r| ==> r[i] == (fallbacks[i].0, Or(Get(item, fallbacks[i].0), fallbacks[i].1))
    ensures EditedFrom(r, item, fallbacks) && UniqueKeys(r)
  {
    assert Keys(r) == Keys(fallbacks);
    forall i | 0 <= i < |fallbacks|
      ensures Get(r, fallbacks[i].0) == if Truthy(Get(item, fallbacks[i].0)) then Get(item, fallbacks[i].0) else fallbacks[i].1
    {
      GetUnique(r, i);
    }
  }

  /**
    `handleEdit(item)`: the draft the page built, the binding to `item.id`,
    the preview the page chose, and (on every page but Projects) both banners
    cleared.
   */
  function Edit(st: State, item: Record, draft: Record, clearsBanners: bool, preview: Preview): (st': State)
    ensures st'.isEditing && st'.editingId == Get(item, "id")
    ensures st'.draft == draft && st'.items == st.items && st'.preview == preview
    ensures clearsBanners ==> st'.error == None && st'.success == None
    ensures !clearsBanners ==> st'.error == st.error && st'.success == st.success
  {
    var bound := st.(draft := draft, isEditing := true, editingId := Get(item, "id"), preview := preview);
    if clearsBanners then bound.(error := None, success := None) else bound
  }

  /** After choosing a record for editing, the next submit updates that record and creates nothing. */
  lemma EditThenSubmitUpdates(st: State, item: Record, draft: Record, clearsBanners: bool, preview: Preview,
                              collection: string, body: Body, headers: Headers, outcome: AxiosOutcome, failure: string)
    ensures var s := Submit(Edit(st, item, draft, clearsBanners, preview), collection, body, headers, outcome, failure);
      s.calls == [Call(Request(PUT, ItemUrl(collection, Get(item, "id")), body), headers)]
  {
  }

  /**
    The multipart body News and Publications send: a part for exactly the
    draft properties that are neither `null` nor `undefined`, and a draft of
    non-empty text and files reaches the server unchanged.
   */
  lemma {:induction false} MultipartCarriesSetFields(draft: Record, k: string, e: Entry)
    ensures (k, e) in Encode(SkipNullish, draft) <==>
      exists i :: 0 <= i < |draft| && draft[i].0 == k && !Nullish(draft[i].1) && ToEntry(draft[i].1) == e
    ensures PlainDraft(draft) ==> Decode(Encode(SkipNullish, draft)) == draft
  {
    EncodeMembers(SkipNullish, draft, k, e);
    if PlainDraft(draft) {
      DecodeEncode(SkipNullish, draft);
    }
  }

  /**
    A submit never addresses the wrong endpoint: while editing it never
    creates, and when not editing it never updates or deletes.
   */
  lemma SubmitRouting(st: State, collection: string, body: Body, headers: Headers, outcome: AxiosOutcome, failure: string)
    ensures var s := Submit(st, collection, body, headers, outcome, failure);
      forall c :: c in s.calls ==> (c.request.verb == POST <==> !st.isEditing) && c.request.verb != DELETE && c.request.verb != PATCH
  {
  }

  /** A failed submit never loses what the user typed. */
  lemma FailedSubmitKeepsDraft(st: State, collection: string, body: Body, headers: Headers, failure: string)
    ensures var s := Submit(st, collection, body, headers, Rejected, failure);
      s.state.draft == st.draft && s.state.isEditing == st.isEditing && s.state.editingId == st.editingId
  {
  }
}
