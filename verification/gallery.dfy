/**
  The gallery page. It keeps the image list locally: an upload appends the
  server's record and a delete filters the list, without fetching it again
  and without asking for confirmation. Failures are only logged.
 */
module Gallery {
  import opened JsValues
  import opened Http
  import opened FormEncoding

  const Collection := "http://localhost:8000/api/gallery/"

  /** The list and the four upload inputs; `file` is `null` until a file is chosen. */
  datatype State = State(images: Value, title: string, description: string, category: string, file: Value)

  datatype Step = Step(state: State, calls: seq<Call>)

  const DefaultCategory := "Nature"

  const Initial := State(Arr([]), "", "", DefaultCategory, Null)

  /** The initial fetch: the list becomes whatever the server sent; a failure keeps it. */
  function Load(st: State, outcome: AxiosOutcome): (st': State)
    ensures outcome.Resolved? ==> st' == st.(images := outcome.data)
    ensures outcome.Rejected? ==> st' == st
  {
    match outcome
    case Resolved(data) => st.(images := data)
    case Rejected => st
  }

  /** The upload body: title, description, category and image, in that order, the image even when `null`. */
  function UploadPayload(st: State): (fd: Entries)
    ensures |fd| == 4
    ensures fd[0] == ("title", Text(st.title)) && fd[1] == ("description", Text(st.description))
    ensures fd[2] == ("category", Text(st.category)) && fd[3] == ("image", ToEntry(st.file))
  {
    Append(Append(Append(Append([], "title", Str(st.title)), "description", Str(st.description)),
                  "category", Str(st.category)), "image", st.file)
  }

  /** Uploading from a fresh page sends the default category and, with no file chosen, the text "null" as the image. */
  lemma FreshUploadPayload()
    ensures UploadPayload(Initial)[2] == ("category", Text("Nature"))
    ensures UploadPayload(Initial)[3] == ("image", Text("null"))
  {
    assert ToEntry(Null) == Text("null");
  }

  /**
    `[...images, record]`: an array gets the record at its end, a string is
    spread into its characters first, and anything else is not iterable,
    so the spread throws and the list stays as it was.
   */
  function AppendRecord(images: Value, record: Value): (r: Value)
    ensures images.Arr? ==> r == Arr(images.elems + [record])
    ensures images.Str? ==>
      && r.Arr? && |r.elems| == |images.s| + 1 && r.elems[|images.s|] == record
      && forall i :: 0 <= i < |images.s| ==> r.elems[i] == Str([images.s[i]])
    ensures !images.Arr? && !images.Str? ==> r == images
  {
    match images
    case Arr(xs) => Arr(xs + [record])
    case Str(s) => Arr(seq(|s|, i requires 0 <= i < |s| => Str([s[i]])) + [record])
    case _ => images
  }

  /** `handleUpload(e)`: one POST; on success the server's record joins the end of the list. */
  function HandleUpload(st: State, outcome: AxiosOutcome): (s: Step)
    ensures s.calls == [Call(Request(POST, Collection, Multipart(UploadPayload(st))), MultipartHeaders)]
    ensures outcome.Resolved? ==> s.state == st.(images := AppendRecord(st.images, outcome.data))
    ensures outcome.Rejected? ==> s.state == st
  {
    var req := [Call(Request(POST, Collection, Multipart(UploadPayload(st))), MultipartHeaders)];
    match outcome
    case Resolved(data) => Step(st.(images := AppendRecord(st.images, data)), req)
    case Rejected => Step(st, req)
  }

  /** An upload keeps every earlier image where it was and adds exactly one at the end. */
  lemma UploadAppends(st: State, data: Value)
    requires st.images.Arr?
    ensures var after := HandleUpload(st, Resolved(data)).state.images.elems;
      |after| == |st.images.elems| + 1 && after[..|st.images.elems|] == st.images.elems && after[|st.images.elems|] == data
  {
    var xs := st.images.elems;
    assert (xs + [data])[..|xs|] == xs;
  }

  /** `images.filter(img => img.id !== id)`, where reading `id` of a `null` entry throws (None). */
  function WithoutId(xs: seq<Value>, id: Value): (r: Option<seq<Value>>)
    ensures r.Some? ==> |r.value| <= |xs|
  {
    if xs == [] then Some([])
    else if Nullish(xs[0]) then None
    else
      match WithoutId(xs[1..], id)
      case None => None
      case Some(ys) => Some(if Kept(xs[0], id) then [xs[0]] + ys else ys)
  }

  /** The filter's test `img.id !== id`. */
  predicate Kept(x: Value, id: Value) {
    Prop(x, "id") != id
  }

  /** The filter throws exactly when some entry is `null` or `undefined`. */
  lemma {:induction false} WithoutIdThrows(xs: seq<Value>, id: Value)
    ensures WithoutId(xs, id).None? <==> exists i :: 0 <= i < |xs| && Nullish(xs[i])
  {
    if xs != [] && !Nullish(xs[0]) {
      WithoutIdThrows(xs[1..], id);
      assert forall i :: 1 <= i < |xs| ==> xs[i] == xs[1..][i - 1];
    }
  }

  /** The filter keeps exactly the entries whose id differs, and keeps them in order. */
  lemma {:induction false} WithoutIdKeeps(xs: seq<Value>, id: Value, x: Value)
    requires WithoutId(xs, id).Some?
    ensures x in WithoutId(xs, id).value <==> x in xs && Prop(x, "id") != id
  {
    if xs != [] {
      WithoutIdKeeps(xs[1..], id, x);
      assert xs == [xs[0]] + xs[1..];
    }
  }

  lemma {:induction false} WithoutIdConcat(a: seq<Value>, b: seq<Value>, id: Value)
    requires WithoutId(a, id).Some? && WithoutId(b, id).Some?
    ensures WithoutId(a + b, id) == Some(WithoutId(a, id).value + WithoutId(b, id).value)
  {
    if a == [] {
      assert a + b == b;
      assert WithoutId(a, id).value == [];
      assert [] + WithoutId(b, id).value == WithoutId(b, id).value;
    } else {
      assert a == [a[0]] + a[1..] && a + b == [a[0]] + (a[1..] + b);
      assert !Nullish(a[0]);
      WithoutIdCons(a[0], a[1..], id);
      WithoutIdConcat(a[1..], b, id);
      ConcatStep(a[0], a[1..], b, id);
    }
  }

  lemma ConcatStep(x: Value, rest: seq<Value>, b: seq<Value>, id: Value)
    requires !Nullish(x) && WithoutId(rest, id).Some? && WithoutId(b, id).Some?
    requires WithoutId(rest + b, id) == Some(WithoutId(rest, id).value + WithoutId(b, id).value)
    ensures WithoutId([x] + (rest + b), id) == Some(WithoutId([x] + rest, id).value + WithoutId(b, id).value)
  {
    WithoutIdCons(x, rest, id);
    WithoutIdCons(x, rest + b, id);
    var ys, zs := WithoutId(rest, id).value, WithoutId(b, id).value;
    var head := if Kept(x, id) then [x] else [];
    assert (head + ys) + zs == head + (ys + zs);
  }

  /** The filter on a list with a non-null head: the head stays iff its id differs. */
  lemma WithoutIdCons(x: Value, xs: seq<Value>, id: Value)
    requires !Nullish(x)
    ensures WithoutId([x] + xs, id) ==
      match WithoutId(xs, id)
      case None => None
      case Some(ys) => Some(if Kept(x, id) then [x] + ys else ys)
  {
    assert ([x] + xs)[1..] == xs;
  }

  /**
    `handleDelete(id)`: one DELETE, sent without confirmation; on success
    the list loses its entries with that id. A list that is not an array,
    or holds a `null` entry, makes the filter throw and stays as it was.
   */
  function HandleDelete(st: State, id: Value, outcome: AxiosOutcome): (s: Step)
    ensures s.calls == [Call(Request(DELETE, Collection + ToJsString(id) + "/", NoBody), [])]
    ensures outcome.Resolved? && st.images.Arr? && WithoutId(st.images.elems, id).Some? ==>
      s.state == st.(images := Arr(WithoutId(st.images.elems, id).value))
    ensures outcome.Rejected? || !st.images.Arr? || WithoutId(st.images.elems, id).None? ==> s.state == st
  {
    var req := [Call(Request(DELETE, Collection + ToJsString(id) + "/", NoBody), [])];
    if outcome.Rejected? || !st.images.Arr? then Step(st, req)
    else match WithoutId(st.images.elems, id)
      case None => Step(st, req)
      case Some(ys) => Step(st.(images := Arr(ys)), req)
  }

  /** After a successful delete no entry with that id is left. */
  lemma DeleteRemovesId(st: State, id: Value, data: Value)
    requires st.images.Arr? && WithoutId(st.images.elems, id).Some?
    ensures var after := HandleDelete(st, id, Resolved(data)).state.images;
      after.Arr? && forall x :: x in after.elems ==> x in st.images.elems && Prop(x, "id") != id
  {
    forall x | x in WithoutId(st.images.elems, id).value
      ensures x in st.images.elems && Prop(x, "id") != id
    {
      WithoutIdKeeps(st.images.elems, id, x);
    }
  }
}
