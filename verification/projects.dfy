/**
  The Projects page: records sent as JSON. Unlike its siblings, choosing a
  project for editing copies the whole listed record into the draft and
  leaves the banners alone, and a failed save has one message for both
  create and update.
 */
module Projects {
  import opened JsValues
  import opened Http
  import Panel

  const Collection := ApiRoot + "projects/"
  const FetchFailed := "Failed to fetch projects"
  const SaveFailed := "Failed to save project"
  const DeleteDone := "Project deleted successfully!"
  const DeleteFailed := "Failed to delete project"

  /** `fetchProjects()`: a successful load also clears the error banner. */
  function FetchProjects(st: Panel.State, outcome: AxiosOutcome): (st': Panel.State)
    ensures outcome.Resolved? ==> st' == st.(items := outcome.data, error := None)
    ensures outcome.Rejected? ==> st' == st.(error := Some(FetchFailed))
  {
    Panel.Fetch(st, outcome, FetchFailed, true)
  }

  /** `handleChange(e)` */
  function HandleChange(st: Panel.State, name: string, value: string): (st': Panel.State)
    ensures Get(st'.draft, name) == Str(value)
    ensures forall k :: k != name ==> Get(st'.draft, k) == Get(st.draft, k)
    ensures st' == st.(draft := st'.draft)
  {
    Panel.ChangeText(st, name, value)
  }

  /** `handleSubmit(e)`: the draft object is the JSON body. */
  function HandleSubmit(st: Panel.State, outcome: AxiosOutcome): (s: Panel.Step)
    ensures |s.calls| == 1 && s.calls[0].request.body == Json(Obj(st.draft))
    ensures s.calls[0].headers == []
    ensures s.calls[0].request.verb == (if st.isEditing then PUT else POST)
    ensures s.calls[0].request.url == if st.isEditing then Panel.ItemUrl(Collection, st.editingId) else Collection
    ensures outcome.Resolved? ==> s.state == Panel.ResetForm(st) && s.refetch
    ensures outcome.Rejected? ==> s.state == st.(error := Some(SaveFailed)) && !s.refetch
  {
    Panel.Submit(st, Collection, Json(Obj(st.draft)), [], outcome, SaveFailed)
  }

  /** `handleEdit(project)`: the draft is the listed record itself, `id` included; banners are untouched. */
  function HandleEdit(st: Panel.State, project: Record): (st': Panel.State)
    ensures st'.draft == project && st'.isEditing && st'.editingId == Get(project, "id")
    ensures st'.error == st.error && st'.success == st.success
    ensures st'.items == st.items && st'.preview == st.preview
  {
    Panel.Edit(st, project, project, false, st.preview)
  }

  /** Saving an unchanged project PUTs the very record that was listed, to that record's address. */
  lemma EditThenSaveEchoesRecord(st: Panel.State, project: Record, outcome: AxiosOutcome)
    ensures HandleSubmit(HandleEdit(st, project), outcome).calls ==
      [Call(Request(PUT, Panel.ItemUrl(Collection, Get(project, "id")), Json(Obj(project))), [])]
  {
  }

  /** `handleDelete(id)` */
  function HandleDelete(st: Panel.State, id: Value, confirmed: bool, outcome: AxiosOutcome): (s: Panel.Step)
    ensures !confirmed ==> s == Panel.Step(st, [], false)
    ensures confirmed ==> s.calls == [Call(Request(DELETE, Panel.ItemUrl(Collection, id), NoBody), [])]
    ensures confirmed && outcome.Resolved? ==> s.state == st.(success := Some(DeleteDone)) && s.refetch
    ensures confirmed && outcome.Rejected? ==> s.state == st.(error := Some(DeleteFailed)) && !s.refetch
  {
    Panel.Delete(st, Collection, id, confirmed, outcome, DeleteDone, DeleteFailed)
  }
}
