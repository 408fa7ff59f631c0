/**
  The News page: articles posted as multipart forms, plus a one-click
  publish/draft toggle.
 */
module News {
  import opened JsValues
  import opened JsStrings
  import opened Http
  import opened Dom
  import opened FormEncoding
  import Panel

  const Collection := ApiRoot + "news/"
  const FetchFailed := "Failed to fetch news. Please try again."
  const DeleteDone := "News article deleted successfully!"
  const DeleteFailed := "Failed to delete news article. Please try again."
  const ToggleFailed := "Failed to update news status. Please try again."

  const EditFallbacks: Record := [("title", Str("")), ("summary", Str("")), ("content", Str("")), ("status", Str("Draft"))]

  function SaveFailed(editing: bool): string {
    "Failed to " + (if editing then "update" else "create") + " news article. Please try again."
  }

  /** `fetchItems()`: a successful load also clears the error banner. */
  function FetchItems(st: Panel.State, outcome: AxiosOutcome): (st': Panel.State)
    ensures outcome.Resolved? ==> st' == st.(items := outcome.data, error := None)
    ensures outcome.Rejected? ==> st' == st.(error := Some(FetchFailed))
  {
    Panel.Fetch(st, outcome, FetchFailed, true)
  }

  /** `handleChange(e)`: a file input stores its first file and previews it; any other input stores its text. */
  function HandleChange(st: Panel.State, e: InputEvent): (st': Panel.State)
    ensures e.kind.FilePicker? ==> Get(st'.draft, e.name) == FirstFile(e)
    ensures e.kind.FilePicker? ==> st'.preview == (if |e.kind.files| > 0 then LocalFile(e.kind.files[0]) else NoPreview)
    ensures !e.kind.FilePicker? ==> Get(st'.draft, e.name) == Str(e.value) && st'.preview == st.preview
    ensures forall k :: k != e.name ==> Get(st'.draft, k) == Get(st.draft, k)
    ensures st'.items == st.items && st'.isEditing == st.isEditing && st'.editingId == st.editingId
    ensures st'.error == st.error && st'.success == st.success
  {
    if e.kind.FilePicker? then Panel.ChangeFile(st, e) else Panel.ChangeText(st, e.name, e.value)
  }

  /**
    `handleSubmit(e)`: the draft's non-nullish properties as a multipart
    form, PUT to the article while editing and POST otherwise.
   */
  function HandleSubmit(st: Panel.State, outcome: AxiosOutcome): (s: Panel.Step)
    ensures |s.calls| == 1 && s.calls[0].request.body == Multipart(Encode(SkipNullish, st.draft))
    ensures s.calls[0].headers == MultipartHeaders
    ensures s.calls[0].request.verb == (if st.isEditing then PUT else POST)
    ensures s.calls[0].request.url == if st.isEditing then Panel.ItemUrl(Collection, st.editingId) else Collection
    ensures outcome.Resolved? ==> s.state == Panel.ResetForm(st) && s.refetch
    ensures outcome.Rejected? ==> s.state == st.(error := Some(SaveFailed(st.isEditing))) && !s.refetch
  {
    Panel.Submit(st, Collection, Multipart(Encode(SkipNullish, st.draft)), MultipartHeaders, outcome, SaveFailed(st.isEditing))
  }

  /**
    `handleEdit(item)`: title, summary and content default to "", status to
    "Draft"; a truthy `item.image` becomes the preview, otherwise the old
    preview stays.
   */
  function HandleEdit(st: Panel.State, item: Record): (st': Panel.State)
    ensures Panel.EditedFrom(st'.draft, item, EditFallbacks)
    ensures st'.preview == if Truthy(Get(item, "image")) then Remote(Get(item, "image")) else st.preview
    ensures st'.isEditing && st'.editingId == Get(item, "id") && st'.error == None && st'.success == None
    ensures st'.items == st.items
  {
    assert UniqueKeys(EditFallbacks);
    var draft := Panel.EditDraft(item, EditFallbacks);
    var preview := if Truthy(Get(item, "image")) then Remote(Get(item, "image")) else st.preview;
    Panel.Edit(st, item, draft, true, preview)
  }

  /** `handleDelete(id)` */
  function HandleDelete(st: Panel.State, id: Value, confirmed: bool, outcome: AxiosOutcome): (s: Panel.Step)
    ensures !confirmed ==> s == Panel.Step(st, [], false)
    ensures confirmed ==> s.calls == [Call(Request(DELETE, Panel.ItemUrl(Collection, id), NoBody), [])]
    ensures confirmed && outcome.Resolved? ==> s.state == st.(success := Some(DeleteDone)) && s.refetch
    ensures confirmed && outcome.Rejected? ==> s.state == st.(error := Some(DeleteFailed)) && !s.refetch
  {
    Panel.Delete(st, Collection, id, confirmed, outcome, DeleteDone, DeleteFailed)
  }

  /** The status the toggle asks for: "Published" goes back to "Draft", anything else is published. */
  function NextStatus(current: Value): string {
    if current == Str("Published") then "Draft" else "Published"
  }

  /** `handlePublishToggle(id, currentStatus)`: a PATCH of the status alone. */
  function HandlePublishToggle(st: Panel.State, id: Value, current: Value, outcome: AxiosOutcome): (s: Panel.Step)
    ensures s.calls == [Call(Request(PATCH, Panel.ItemUrl(Collection, id), Json(Obj([("status", Str(NextStatus(current)))]))), [])]
    ensures outcome.Resolved? ==>
      s.state == st.(success := Some("News article " + LowerAscii(NextStatus(current)) + " successfully!")) && s.refetch
    ensures outcome.Rejected? ==> s.state == st.(error := Some(ToggleFailed)) && !s.refetch
  {
    var next := NextStatus(current);
    var req := [Call(Request(PATCH, Panel.ItemUrl(Collection, id), Json(Obj([("status", Str(next))]))), [])];
    match outcome
    case Resolved(_) => Panel.Step(st.(success := Some("News article " + LowerAscii(next) + " successfully!")), req, true)
    case Rejected => Panel.Step(st.(error := Some(ToggleFailed)), req, false)
  }

  /** The toggle is an involution on the two statuses the form offers and always lands on one of them. */
  lemma ToggleAlternates(current: Value)
    ensures NextStatus(current) == "Draft" || NextStatus(current) == "Published"
    ensures current == Str("Draft") || current == Str("Published") ==>
      Str(NextStatus(Str(NextStatus(current)))) == current
  {
  }

  /** The success banner names the new status in lower case. */
  lemma AnnouncedStatus(current: Value)
    ensures LowerAscii(NextStatus(current)) == if current == Str("Published") then "draft" else "published"
  {
    if current == Str("Published") {
      LowerDraft();
    } else {
      LowerPublished();
    }
  }

  lemma LowerDraft()
    ensures LowerAscii("Draft") == "draft"
  {
    var r := LowerAscii("Draft");
    assert r[0] == 'd' && r[1] == 'r' && r[2] == 'a' && r[3] == 'f' && r[4] == 't';
  }

  lemma LowerPublished()
    ensures LowerAscii("Published") == "published"
  {
  }

  /** An article chosen for editing is updated in place by the next submit, with the edited fields as its parts. */
  lemma EditThenSubmit(st: Panel.State, item: Record, outcome: AxiosOutcome)
    ensures var s := HandleSubmit(HandleEdit(st, item), outcome);
      && s.calls[0].request.verb == PUT
      && s.calls[0].request.url == Panel.ItemUrl(Collection, Get(item, "id"))
      && s.calls[0].request.body == Multipart(Encode(SkipNullish, HandleEdit(st, item).draft))
  {
  }
}
