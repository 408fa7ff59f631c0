/**
  The staff page: a list of staff members, a form with a fixed set of
  fields, an edit binding holding the whole record being edited, and alerts
  instead of banners.
 */
module Staff {
  import opened JsValues
  import opened JsStrings
  import opened Http
  import opened Dom
  import opened FormEncoding

  const ApiUrl := "http://127.0.0.1:8000/api/staff/"
  const MediaHost := "http://127.0.0.1:8000"
  const SaveFailed := "Failed to save staff. Check console."
  const DeleteDone := "Staff deleted successfully!"
  const DeleteFailed := "Failed to delete staff."

  const DefaultForm: Record := [
    ("name", Str("")), ("position", Str("")), ("gender", Str("Male")), ("bio", Str("")), ("image", Null)]

  /** `editing` is the staff record being edited, or `null`. */
  datatype State = State(staffList: Value, form: Record, preview: Preview, editing: Value)

  /** One handler run: the new state, the calls made, whether the list is fetched again, the alert shown. */
  datatype Step = Step(state: State, calls: seq<Call>, refetch: bool, alert: Option<string>)

  const Initial := State(Arr([]), DefaultForm, NoPreview, Null)

  function StaffUrl(id: Value): string {
    ApiUrl + ToJsString(id) + "/"
  }

  /**
    `fetchStaff()`: the list becomes `data.results` when that is truthy and
    the data itself otherwise; any failure, a `null` body included, empties
    the list.
   */
  function FetchStaff(st: State, outcome: AxiosOutcome): (st': State)
    ensures outcome.Rejected? || Nullish(outcome.data) ==> st' == st.(staffList := Arr([]))
    ensures outcome.Resolved? && Truthy(Prop(outcome.data, "results")) ==> st' == st.(staffList := Prop(outcome.data, "results"))
    ensures outcome.Resolved? && !Nullish(outcome.data) && !Truthy(Prop(outcome.data, "results")) ==>
      st' == st.(staffList := outcome.data)
  {
    match outcome
    case Rejected => st.(staffList := Arr([]))
    case Resolved(data) =>
      if Nullish(data) then st.(staffList := Arr([]))
      else if Truthy(Prop(data, "results")) then st.(staffList := Prop(data, "results"))
      else st.(staffList := data)
  }

  /** Unlike the other list pages, a failed fetch does not keep the previous list. */
  lemma FailedFetchEmptiesList(st: State)
    ensures FetchStaff(st, Rejected).staffList == Arr([])
  {
  }

  /**
    `handleChange(e)`: the "image" input with a chosen file stores the file
    and previews it; every other change stores the input's text.
   */
  function HandleChange(st: State, e: InputEvent): (st': State)
    ensures e.name == "image" && e.kind.FilePicker? && |e.kind.files| > 0 ==>
      Get(st'.form, "image") == File(e.kind.files[0]) && st'.preview == LocalFile(e.kind.files[0])
    ensures !(e.name == "image" && e.kind.FilePicker? && |e.kind.files| > 0) ==>
      Get(st'.form, e.name) == Str(e.value) && st'.preview == st.preview
    ensures forall k :: k != e.name ==> Get(st'.form, k) == Get(st.form, k)
    ensures st'.staffList == st.staffList && st'.editing == st.editing
  {
    if e.name == "image" && e.kind.FilePicker? && |e.kind.files| > 0 then
      var f := e.kind.files[0];
      st.(form := Set(st.form, "image", File(f)), preview := LocalFile(f))
    else
      st.(form := Set(st.form, e.name, Str(e.value)))
  }

  /**
    The multipart body of `handleSubmit`: name, position, gender and bio
    are always appended, whatever they hold; the image only when truthy.
   */
  function Payload(form: Record): (fd: Entries)
    ensures |fd| == if Truthy(Get(form, "image")) then 5 else 4
    ensures fd[0] == ("name", ToEntry(Get(form, "name"))) && fd[1] == ("position", ToEntry(Get(form, "position")))
    ensures fd[2] == ("gender", ToEntry(Get(form, "gender"))) && fd[3] == ("bio", ToEntry(Get(form, "bio")))
    ensures |fd| == 5 ==> fd[4] == ("image", ToEntry(Get(form, "image")))
  {
    var fd := Append(Append(Append(Append([], "name", Get(form, "name")), "position", Get(form, "position")),
                            "gender", Get(form, "gender")), "bio", Get(form, "bio"));
    if Truthy(Get(form, "image")) then Append(fd, "image", Get(form, "image")) else fd
  }

  /**
    `handleSubmit(e)`: PUT to the record being edited, POST otherwise. On
    success the list is fetched again, the form reset and an alert names
    what was done; on failure everything stays and the failure is alerted.
   */
  function HandleSubmit(st: State, outcome: AxiosOutcome): (s: Step)
    ensures |s.calls| == 1 && s.calls[0].headers == MultipartHeaders
    ensures s.calls[0].request.body == Multipart(Payload(st.form))
    ensures Truthy(st.editing) ==> s.calls[0].request.verb == PUT && s.calls[0].request.url == StaffUrl(Prop(st.editing, "id"))
    ensures !Truthy(st.editing) ==> s.calls[0].request.verb == POST && s.calls[0].request.url == ApiUrl
    ensures outcome.Resolved? ==>
      && s.state == Initial.(staffList := st.staffList) && s.refetch
      && s.alert == Some(if Truthy(st.editing) then "Staff updated successfully!" else "Staff added successfully!")
    ensures outcome.Rejected? ==> s.state == st && !s.refetch && s.alert == Some(SaveFailed)
  {
    var body := Multipart(Payload(st.form));
    var req := if Truthy(st.editing) then Request(PUT, StaffUrl(Prop(st.editing, "id")), body)
               else Request(POST, ApiUrl, body);
    var call := Call(req, MultipartHeaders);
    match outcome
    case Resolved(_) =>
      var done := if Truthy(st.editing) then "Staff updated successfully!" else "Staff added successfully!";
      Step(ResetForm(st), [call], true, Some(done))
    case Rejected => Step(st, [call], false, Some(SaveFailed))
  }

  /** `resetForm()` */
  function ResetForm(st: State): (st': State)
    ensures st' == Initial.(staffList := st.staffList)
  {
    State(st.staffList, DefaultForm, NoPreview, Null)
  }

  /** The form `handleEdit` fills from a staff record: its four text fields as they are, and no image. */
  function EditForm(staff: Record): (form: Record)
    ensures |form| == |DefaultForm| && forall i :: 0 <= i < |form| ==> form[i].0 == DefaultForm[i].0
    ensures forall i :: 0 <= i < 4 ==> form[i].1 == Get(staff, form[i].0)
    ensures form[4].1 == Null
  {
    [("name", Get(staff, "name")), ("position", Get(staff, "position")), ("gender", Get(staff, "gender")),
     ("bio", Get(staff, "bio")), ("image", Null)]
  }

  /**
    `handleEdit(staff)`: bind the record, fill the form, and preview the
    stored image through the media host when there is one.
   */
  function HandleEdit(st: State, staff: Record): (st': State)
    ensures st'.editing == Obj(staff) && st'.form == EditForm(staff) && st'.staffList == st.staffList
    ensures Truthy(Get(staff, "image")) ==> st'.preview == Remote(Str(MediaHost + ToJsString(Get(staff, "image"))))
    ensures !Truthy(Get(staff, "image")) ==> st'.preview == NoPreview
  {
    var preview := if Truthy(Get(staff, "image")) then Remote(Str(MediaHost + ToJsString(Get(staff, "image")))) else NoPreview;
    State(st.staffList, EditForm(staff), preview, Obj(staff))
  }

  /**
    Saving an edit without choosing a new picture sends no image part, so
    the stored picture is kept; the update goes to the edited record, and
    its four text fields are sent as they were read (a missing one as the
    text "undefined").
   */
  lemma EditThenSaveKeepsImage(st: State, staff: Record, outcome: AxiosOutcome)
    ensures var s := HandleSubmit(HandleEdit(st, staff), outcome);
      var fd := s.calls[0].request.body.entries;
      && s.calls[0].request.verb == PUT && s.calls[0].request.url == StaffUrl(Get(staff, "id"))
      && |fd| == 4 && (forall i :: 0 <= i < 4 ==> fd[i] == (DefaultForm[i].0, ToEntry(Get(staff, DefaultForm[i].0))))
  {
    EditFormReads(staff);
    var fd := Payload(EditForm(staff));
    assert forall i :: 0 <= i < 4 ==> fd[i] == (DefaultForm[i].0, ToEntry(Get(staff, DefaultForm[i].0)));
  }

  lemma EditFormReads(staff: Record)
    ensures var form := EditForm(staff);
      && Get(form, "name") == Get(staff, "name") && Get(form, "position") == Get(staff, "position")
      && Get(form, "gender") == Get(staff, "gender") && Get(form, "bio") == Get(staff, "bio")
      && Get(form, "image") == Null
  {
    FormReads(Get(staff, "name"), Get(staff, "position"), Get(staff, "gender"), Get(staff, "bio"));
  }

  /** Each field of a five-field staff form is read back from its own position. */
  lemma FormReads(name: Value, position: Value, gender: Value, bio: Value)
    ensures var form := [("name", name), ("position", position), ("gender", gender), ("bio", bio), ("image", Null)];
      && Get(form, "name") == name && Get(form, "position") == position
      && Get(form, "gender") == gender && Get(form, "bio") == bio && Get(form, "image") == Null
  {
    var form := [("name", name), ("position", position), ("gender", gender), ("bio", bio), ("image", Null)];
    GetFirst(form, 0);
    GetFirst(form, 1);
    GetFirst(form, 2);
    GetFirst(form, 3);
    GetFirst(form, 4);
  }

  /** `handleDelete(id)`: nothing without confirmation; otherwise one DELETE and an alert for its outcome. */
  function HandleDelete(st: State, id: Value, confirmed: bool, outcome: AxiosOutcome): (s: Step)
    ensures !confirmed ==> s == Step(st, [], false, None)
    ensures confirmed ==> s.calls == [Call(Request(DELETE, StaffUrl(id), NoBody), [])] && s.state == st
    ensures confirmed && outcome.Resolved? ==> s.refetch && s.alert == Some(DeleteDone)
    ensures confirmed && outcome.Rejected? ==> !s.refetch && s.alert == Some(DeleteFailed)
  {
    if !confirmed then Step(st, [], false, None)
    else
      var req := [Call(Request(DELETE, StaffUrl(id), NoBody), [])];
      match outcome
      case Resolved(_) => Step(st, req, true, Some(DeleteDone))
      case Rejected => Step(st, req, false, Some(DeleteFailed))
  }

  /**
    `getImageUrl(imagePath)`: no path gives no source; an absolute "http"
    URL is kept; "/media/…" and "media/…" are put on the media host; any
    other path is put under the host's "/media/".
   */
  function GetImageUrl(path: Value): (src: MediaSrc)
    ensures !Truthy(path) <==> src == NoMedia
    ensures Truthy(path) && !path.Str? <==> src == TypeError
    ensures path.Str? && StartsWith(path.s, "http") ==> src == Located(path)
    ensures path.Str? && path.s != "" && !StartsWith(path.s, "http") ==>
      src.Located? && src.url.Str? && StartsWith(src.url.s, MediaHost + "/media/")
  {
    if !Truthy(path) then NoMedia
    else match path
      case Str(s) =>
        if StartsWith(s, "http") then Located(path)
        else if StartsWith(s, "/media/") then
          assert MediaHost + s == MediaHost + "/media/" + s[7..];
          Located(Str(MediaHost + s))
        else if StartsWith(s, "media/") then
          assert MediaHost + "/" + s == MediaHost + "/media/" + s[6..];
          Located(Str(MediaHost + "/" + s))
        else Located(Str(MediaHost + "/media/" + s))
      case _ => TypeError
  }

  /** "/media/x", "media/x" and a bare "x" all name the same file. */
  lemma MediaPrefixesAgree(x: string)
    requires x != "" && !StartsWith(x, "http") && !StartsWith(x, "/media/") && !StartsWith(x, "media/")
    ensures GetImageUrl(Str("/media/" + x)) == GetImageUrl(Str("media/" + x)) == GetImageUrl(Str(x))
      == Located(Str(MediaHost + "/media/" + x))
  {
    RootedMediaPath(x);
    RelativeMediaPath(x);
  }

  lemma RootedMediaPath(x: string)
    ensures GetImageUrl(Str("/media/" + x)) == Located(Str(MediaHost + "/media/" + x))
  {
    var p := "/media/" + x;
    assert !StartsWith(p, "http") by { assert p[0] == '/'; }
    assert StartsWith(p, "/media/");
    assert MediaHost + p == MediaHost + "/media/" + x;
  }

  lemma RelativeMediaPath(x: string)
    ensures GetImageUrl(Str("media/" + x)) == Located(Str(MediaHost + "/media/" + x))
  {
    var p := "media/" + x;
    assert !StartsWith(p, "http") by { assert p[0] == 'm'; }
    assert !StartsWith(p, "/media/") by { assert p[0] == 'm'; }
    assert StartsWith(p, "media/");
    assert MediaHost + "/" + p == MediaHost + "/media/" + x;
  }

  /** A resolved URL resolves to itself: resolving is idempotent. */
  lemma ResolveIdempotent(path: Value)
    requires GetImageUrl(path).Located?
    ensures GetImageUrl(GetImageUrl(path).url) == GetImageUrl(path)
  {
    var u := GetImageUrl(path).url;
    if !StartsWith(path.s, "http") {
      StartsWithTrans(u.s, MediaHost + "/media/", "http");
    }
  }
}
