/**
  The Publications page: records with an attached document, posted as
  multipart forms, and a status badge whose CSS class is derived from the
  status text.
 */
module Publications {
  import opened JsValues
  import opened JsStrings
  import opened Http
  import opened Dom
  import opened FormEncoding
  import Panel

  const Collection := ApiRoot + "publications/"
  const FetchFailed := "Failed to fetch publications"
  const DeleteDone := "Publication deleted successfully!"
  const DeleteFailed := "Failed to delete publication. Please try again."

  const EditFallbacks: Record := [("title", Str("")), ("author", Str("")), ("abstract", Str("")), ("status", Str("Draft"))]

  function SaveFailed(editing: bool): string {
    "Failed to " + (if editing then "update" else "create") + " publication. Please try again."
  }

  /** `fetchItems()`: unlike News, a successful load leaves an earlier error banner in place. */
  function FetchItems(st: Panel.State, outcome: AxiosOutcome): (st': Panel.State)
    ensures outcome.Resolved? ==> st' == st.(items := outcome.data)
    ensures outcome.Rejected? ==> st' == st.(error := Some(FetchFailed))
  {
    Panel.Fetch(st, outcome, FetchFailed, false)
  }

  /** `handleChange(e)`: a file input stores its first file and shows its name, size and type. */
  function HandleChange(st: Panel.State, e: InputEvent): (st': Panel.State)
    ensures e.kind.FilePicker? ==> Get(st'.draft, e.name) == FirstFile(e)
    ensures e.kind.FilePicker? ==> st'.preview == (if |e.kind.files| > 0 then LocalFile(e.kind.files[0]) else NoPreview)
    ensures !e.kind.FilePicker? ==> Get(st'.draft, e.name) == Str(e.value) && st'.preview == st.preview
    ensures forall k :: k != e.name ==> Get(st'.draft, k) == Get(st.draft, k)
    ensures st'.items == st.items && st'.isEditing == st.isEditing && st'.editingId == st.editingId
    ensures st'.error == st.error && st'.success == st.success
  {
    if e.kind.FilePicker? then Panel.ChangeFile(st, e) else Panel.ChangeText(st, e.name, e.value)
  }

  /** `handleSubmit(e)`: the non-nullish draft properties as a multipart form. */
  function HandleSubmit(st: Panel.State, outcome: AxiosOutcome): (s: Panel.Step)
    ensures |s.calls| == 1 && s.calls[0].request.body == Multipart(Encode(SkipNullish, st.draft))
    ensures s.calls[0].headers == MultipartHeaders
    ensures s.calls[0].request.verb == (if st.isEditing then PUT else POST)
    ensures s.calls[0].request.url == if st.isEditing then Panel.ItemUrl(Collection, st.editingId) else Collection
    ensures outcome.Resolved? ==> s.state == Panel.ResetForm(st) && s.refetch
    ensures outcome.Rejected? ==> s.state == st.(error := Some(SaveFailed(st.isEditing))) && !s.refetch
  {
    Panel.Submit(st, Collection, Multipart(Encode(SkipNullish, st.draft)), MultipartHeaders, outcome, SaveFailed(st.isEditing))
  }

  /**
    `handleEdit(item)`: title, author and abstract default to "", status to
    "Draft"; the file is never put in the draft, and a truthy `item.file`
    only shows the "Current file" card.
   */
  function HandleEdit(st: Panel.State, item: Record): (st': Panel.State)
    ensures Panel.EditedFrom(st'.draft, item, EditFallbacks)
    ensures st'.preview == if Truthy(Get(item, "file")) then Placeholder else st.preview
    ensures st'.isEditing && st'.editingId == Get(item, "id") && st'.error == None && st'.success == None
    ensures st'.items == st.items
  {
    assert UniqueKeys(EditFallbacks);
    var draft := Panel.EditDraft(item, EditFallbacks);
    var preview := if Truthy(Get(item, "file")) then Placeholder else st.preview;
    Panel.Edit(st, item, draft, true, preview)
  }

  /** Resubmitting an edited publication never re-sends its document: the draft has no "file" part. */
  lemma EditedDraftHasNoFile(st: Panel.State, item: Record, e: Entry)
    ensures ("file", e) !in Encode(SkipNullish, HandleEdit(st, item).draft)
  {
    var draft := HandleEdit(st, item).draft;
    assert "file" !in Keys(draft);
    Panel.MultipartCarriesSetFields(draft, "file", e);
  }

  /** `handleDelete(id)` */
  function HandleDelete(st: Panel.State, id: Value, confirmed: bool, outcome: AxiosOutcome): (s: Panel.Step)
    ensures !confirmed ==> s == Panel.Step(st, [], false)
    ensures confirmed ==> s.calls == [Call(Request(DELETE, Panel.ItemUrl(Collection, id), NoBody), [])]
    ensures confirmed && outcome.Resolved? ==> s.state == st.(success := Some(DeleteDone)) && s.refetch
    ensures confirmed && outcome.Rejected? ==> s.state == st.(error := Some(DeleteFailed)) && !s.refetch
  {
    Panel.Delete(st, Collection, id, confirmed, outcome, DeleteDone, DeleteFailed)
  }

  const StatusPrefix := "pub-status-"

  /**
    The badge class `pub-status-${item.status?.toLowerCase().replace(' ', '-')}`:
    a missing status gives "pub-status-undefined", a status that is not text
    throws (None), and only the FIRST space becomes a dash.
   */
  function StatusClass(status: Value): (c: Option<string>)
    ensures Nullish(status) ==> c == Some("pub-status-undefined")
    ensures c.Some? <==> Nullish(status) || status.Str?
    ensures status.Str? ==> StartsWith(c.value, StatusPrefix) && |c.value| == |StatusPrefix| + |status.s|
    ensures status.Str? ==> forall i :: 0 <= i < |status.s| ==>
      c.value[|StatusPrefix| + i] == if i == |BeforeFirst(status.s, ' ')| then '-' else LowerChar(status.s[i])
  {
    match status
    case Str(s) =>
      BeforeFirstLower(s, ' ');
      Some(StatusPrefix + ReplaceFirstChar(LowerAscii(s), ' ', '-'))
    case Undefined => Some("pub-status-undefined")
    case Null => Some("pub-status-undefined")
    case _ => None
  }

  /**
    A status with at most one space yields a class with no space and no
    upper-case letter, so "Under Review" becomes "pub-status-under-review".
   */
  lemma StatusClassIsOneToken(s: string)
    requires forall i, j :: 0 <= i < j < |s| && s[i] == ' ' ==> s[j] != ' '
    ensures var c := StatusClass(Str(s)).value;
      forall i :: 0 <= i < |c| ==> c[i] != ' ' && !('A' <= c[i] <= 'Z')
  {
    var l := LowerAscii(s);
    assert forall i, j :: 0 <= i < j < |l| && l[i] == ' ' ==> l[j] != ' ';
    var r := ReplaceFirstChar(l, ' ', '-');
    ReplaceOnlyOccurrence(l, ' ', '-');
    PrefixIsOneToken();
    assert StatusClass(Str(s)).value == StatusPrefix + r;
  }

  /** The class ignores ASCII case: a status and its lower-cased form get the same class. */
  lemma StatusClassIgnoresCase(s: string)
    ensures StatusClass(Str(LowerAscii(s))) == StatusClass(Str(s))
  {
    LowerAsciiIdempotent(s);
  }

  lemma PrefixIsOneToken()
    ensures forall i :: 0 <= i < |StatusPrefix| ==> StatusPrefix[i] != ' ' && !('A' <= StatusPrefix[i] <= 'Z')
  {
    var p := StatusPrefix;
    assert p[0] == 'p' && p[1] == 'u' && p[2] == 'b' && p[3] == '-' && p[4] == 's' && p[5] == 't';
    assert p[6] == 'a' && p[7] == 't' && p[8] == 'u' && p[9] == 's' && p[10] == '-';
  }
}
