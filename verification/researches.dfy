/**
  The Researches page: research projects sent as JSON, listed as cards with
  a shortened description and a status class.
 */
module Researches {
  import opened JsValues
  import opened JsStrings
  import opened Http
  import Panel

  const Collection := ApiRoot + "research/"
  const FetchFailed := "Failed to fetch research projects"
  const DeleteDone := "Research project deleted successfully!"
  const DeleteFailed := "Failed to delete research project."
  const PreviewLength := 150

  const EditFallbacks: Record :=
    [("title", Str("")), ("author", Str("")), ("description", Str("")), ("field", Str("")), ("status", Str("Ongoing"))]

  function SaveFailed(editing: bool): string {
    "Failed to " + (if editing then "update" else "create") + " research project."
  }

  /** `fetchItems()`: a successful load leaves an earlier error banner in place. */
  function FetchItems(st: Panel.State, outcome: AxiosOutcome): (st': Panel.State)
    ensures outcome.Resolved? ==> st' == st.(items := outcome.data)
    ensures outcome.Rejected? ==> st' == st.(error := Some(FetchFailed))
  {
    Panel.Fetch(st, outcome, FetchFailed, false)
  }

  /** `handleChange(e)` */
  function HandleChange(st: Panel.State, name: string, value: string): (st': Panel.State)
    ensures Get(st'.draft, name) == Str(value)
    ensures forall k :: k != name ==> Get(st'.draft, k) == Get(st.draft, k)
    ensures st' == st.(draft := st'.draft)
  {
    Panel.ChangeText(st, name, value)
  }

  /** `handleSubmit(e)`: the draft object is the JSON body. */
  function HandleSubmit(st: Panel.State, outcome: AxiosOutcome): (s: Panel.Step)
    ensures |s.calls| == 1 && s.calls[0].request.body == Json(Obj(st.draft))
    ensures s.calls[0].headers == []
    ensures s.calls[0].request.verb == (if st.isEditing then PUT else POST)
    ensures s.calls[0].request.url == if st.isEditing then Panel.ItemUrl(Collection, st.editingId) else Collection
    ensures outcome.Resolved? ==> s.state == Panel.ResetForm(st) && s.refetch
    ensures outcome.Rejected? ==> s.state == st.(error := Some(SaveFailed(st.isEditing))) && !s.refetch
  {
    Panel.Submit(st, Collection, Json(Obj(st.draft)), [], outcome, SaveFailed(st.isEditing))
  }

  /** `handleEdit(item)`: text fields default to "", status to "Ongoing". */
  function HandleEdit(st: Panel.State, item: Record): (st': Panel.State)
    ensures Panel.EditedFrom(st'.draft, item, EditFallbacks)
    ensures st'.isEditing && st'.editingId == Get(item, "id") && st'.error == None && st'.success == None
    ensures st'.items == st.items && st'.preview == st.preview
  {
    assert UniqueKeys(EditFallbacks);
    var draft := Panel.EditDraft(item, EditFallbacks);
    Panel.Edit(st, item, draft, true, st.preview)
  }

  /** `handleDelete(id)` */
  function HandleDelete(st: Panel.State, id: Value, confirmed: bool, outcome: AxiosOutcome): (s: Panel.Step)
    ensures !confirmed ==> s == Panel.Step(st, [], false)
    ensures confirmed ==> s.calls == [Call(Request(DELETE, Panel.ItemUrl(Collection, id), NoBody), [])]
    ensures confirmed && outcome.Resolved? ==> s.state == st.(success := Some(DeleteDone)) && s.refetch
    ensures confirmed && outcome.Rejected? ==> s.state == st.(error := Some(DeleteFailed)) && !s.refetch
  {
    Panel.Delete(st, Collection, id, confirmed, outcome, DeleteDone, DeleteFailed)
  }

  /**
    The card's description: nothing for an empty one, the text itself up to
    150 characters, otherwise its first 150 characters and "...".
   */
  function DescriptionPreview(d: string): (p: Option<string>)
    ensures p.None? <==> d == ""
    ensures p.Some? ==> |p.value| <= PreviewLength + 3
    ensures p.Some? && |d| <= PreviewLength ==> p.value == d
    ensures p.Some? && |d| > PreviewLength ==>
      |p.value| == PreviewLength + 3 && StartsWith(d, p.value[..PreviewLength]) && EndsWith(p.value, "...")
  {
    if d == "" then None
    else if |d| > PreviewLength then Some(Take(d, PreviewLength) + "...")
    else Some(d)
  }

  /**
    The card shows a description unchanged exactly when it has at most 150
    characters, or exactly 153 of which the last three are "...": such a
    description is cut and the cut is invisible.
   */
  lemma PreviewKeepsShortText(d: string)
    requires d != ""
    ensures DescriptionPreview(d).value == d <==> |d| <= PreviewLength || (|d| == PreviewLength + 3 && EndsWith(d, "..."))
  {
    if |d| > PreviewLength {
      var p := DescriptionPreview(d).value;
      assert p == d[..PreviewLength] + "...";
      if |d| == PreviewLength + 3 && EndsWith(d, "...") {
        assert d == d[..PreviewLength] + d[PreviewLength..];
      }
    }
  }

  /** The status class `status-${item.status?.toLowerCase()}`; None where `toLowerCase` would throw. */
  function StatusClass(status: Value): (c: Option<string>)
    ensures Nullish(status) ==> c == Some("status-undefined")
    ensures c.Some? <==> Nullish(status) || status.Str?
    ensures status.Str? ==>
      && |c.value| == 7 + |status.s| && c.value[..7] == "status-"
      && forall i :: 7 <= i < |c.value| ==> !('A' <= c.value[i] <= 'Z')
    ensures status.Str? ==> forall i :: 0 <= i < |status.s| ==> c.value[7 + i] == LowerChar(status.s[i])
  {
    match status
    case Str(s) => Some("status-" + LowerAscii(s))
    case Undefined => Some("status-undefined")
    case Null => Some("status-undefined")
    case _ => None
  }

  /** Two text statuses share a class exactly when they agree up to ASCII case. */
  lemma StatusClassSameIff(a: string, b: string)
    ensures StatusClass(Str(a)) == StatusClass(Str(b)) <==> LowerAscii(a) == LowerAscii(b)
  {
    if StatusClass(Str(a)) == StatusClass(Str(b)) {
      assert LowerAscii(a) == StatusClass(Str(a)).value[7..];
      assert LowerAscii(b) == StatusClass(Str(b)).value[7..];
    }
  }
}
