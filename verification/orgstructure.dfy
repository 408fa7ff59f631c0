/**
  The organization-structure page: a list of uploaded files, one chosen
  file awaiting upload, and an error banner ("" meaning hidden). Every
  request carries the stored access token.
 */
module OrgStructure {
  import opened JsValues
  import opened Http
  import opened Dom
  import opened FormEncoding
  import opened Session

  const ApiBase := "http://localhost:8000/api"
  const Collection := ApiBase + "/organization-structure-files/"
  const FetchFailed := "Failed to fetch files"
  const UploadFailed := "Failed to upload file"
  const DeleteFailed := "Failed to delete file"

  datatype State = State(files: Value, pdfFile: Value, error: string)

  datatype Step = Step(state: State, calls: seq<Call>, refetch: bool)

  const Initial := State(Arr([]), Null, "")

  /** `getHeaders()`: the bearer token (possibly `Bearer null`) and a multipart content type. */
  function GetHeaders(store: Store): Headers {
    [("Authorization", Bearer(GetItem(store, AccessTokenKey))), ("Content-Type", "multipart/form-data")]
  }

  function FileUrl(id: Value): string {
    Collection + ToJsString(id) + "/"
  }

  function Values(r: Record): (vs: seq<Value>)
    ensures |vs| == |r| && forall i :: 0 <= i < |r| ==> vs[i] == r[i].1
  {
    seq(|r|, i requires 0 <= i < |r| => r[i].1)
  }

  /**
    `ensureArray(data)`: nothing for a falsy value, an array as it is, an
    object's property values in order, and nothing for any other value (a
    `File` has no own enumerable properties).
   */
  function EnsureArray(v: Value): (xs: seq<Value>)
    ensures !Truthy(v) ==> xs == []
    ensures v.Arr? ==> xs == v.elems
    ensures v.Obj? ==> xs == Values(v.fields)
    ensures !v.Arr? && !v.Obj? ==> xs == []
  {
    match v
    case Arr(es) => es
    case Obj(fs) => Values(fs)
    case _ => []
  }

  /** The render calls `ensureArray` on a list that came from `ensureArray`: doing so changes nothing. */
  lemma EnsureArrayIdempotent(v: Value)
    ensures EnsureArray(Arr(EnsureArray(v))) == EnsureArray(v)
  {
  }

  /** `fetchFiles()`: success stores the normalised list; failure empties it and sets the banner. */
  function FetchFiles(st: State, store: Store, outcome: AxiosOutcome): (s: Step)
    ensures s.calls == [Call(Request(GET, Collection, NoBody), GetHeaders(store))] && !s.refetch
    ensures outcome.Resolved? ==> s.state == st.(files := Arr(EnsureArray(outcome.data)))
    ensures outcome.Rejected? ==> s.state == st.(files := Arr([]), error := FetchFailed)
  {
    var call := [Call(Request(GET, Collection, NoBody), GetHeaders(store))];
    match outcome
    case Resolved(data) => Step(st.(files := Arr(EnsureArray(data))), call, false)
    case Rejected => Step(st.(files := Arr([]), error := FetchFailed), call, false)
  }

  /** The file input's change: the first chosen file, `undefined` when the choice was cleared. */
  function ChooseFile(st: State, e: InputEvent): (st': State)
    requires e.kind.FilePicker?
    ensures st' == st.(pdfFile := st'.pdfFile)
    ensures Truthy(st'.pdfFile) <==> |e.kind.files| > 0
  {
    st.(pdfFile := FirstFile(e))
  }

  /**
    `handleUpload(e)`: with no chosen file nothing happens; otherwise the
    file is posted as the single multipart field "file". Success forgets
    the chosen file and fetches the list again.
   */
  function HandleUpload(st: State, store: Store, outcome: AxiosOutcome): (s: Step)
    ensures !Truthy(st.pdfFile) ==> s == Step(st, [], false)
    ensures Truthy(st.pdfFile) ==>
      s.calls == [Call(Request(POST, Collection, Multipart([("file", ToEntry(st.pdfFile))])), GetHeaders(store))]
    ensures Truthy(st.pdfFile) && outcome.Resolved? ==> s.state == st.(pdfFile := Null) && s.refetch
    ensures Truthy(st.pdfFile) && outcome.Rejected? ==> s.state == st.(error := UploadFailed) && !s.refetch
  {
    if !Truthy(st.pdfFile) then Step(st, [], false)
    else
      var call := [Call(Request(POST, Collection, Multipart(Append([], "file", st.pdfFile))), GetHeaders(store))];
      match outcome
      case Resolved(_) => Step(st.(pdfFile := Null), call, true)
      case Rejected => Step(st.(error := UploadFailed), call, false)
  }

  /** `handleDelete(id)`: nothing without confirmation; the DELETE carries only the bearer token. */
  function HandleDelete(st: State, store: Store, id: Value, confirmed: bool, outcome: AxiosOutcome): (s: Step)
    ensures !confirmed ==> s == Step(st, [], false)
    ensures confirmed ==>
      s.calls == [Call(Request(DELETE, FileUrl(id), NoBody), [("Authorization", Bearer(GetItem(store, AccessTokenKey)))])]
    ensures confirmed && outcome.Resolved? ==> s.state == st && s.refetch
    ensures confirmed && outcome.Rejected? ==> s.state == st.(error := DeleteFailed) && !s.refetch
  {
    if !confirmed then Step(st, [], false)
    else
      var call := [Call(Request(DELETE, FileUrl(id), NoBody), [("Authorization", Bearer(GetItem(store, AccessTokenKey)))])];
      match outcome
      case Resolved(_) => Step(st, call, true)
      case Rejected => Step(st.(error := DeleteFailed), call, false)
  }

  // ---------------------------------------------------------------------
  // The file list as rendered
  // ---------------------------------------------------------------------

  /** One list item: the link target, its text, and the id its Delete button passes. */
  datatype Link = Link(href: Value, text: Value, id: Value)

  datatype Listing = NoFilesYet | Links(links: seq<Link>)

  /** Entries the list shows: truthy, with a truthy `file`. */
  predicate Shown(f: Value) {
    Truthy(f) && Truthy(Prop(f, "file"))
  }

  /** The item for a shown entry: `original_name`, else "File <id>". */
  function LinkOf(f: Value): (l: Link)
    ensures l.href == Prop(f, "file") && l.id == Prop(f, "id")
    ensures Truthy(Prop(f, "original_name")) ==> l.text == Prop(f, "original_name")
    ensures !Truthy(Prop(f, "original_name")) ==> l.text == Str("File " + ToJsString(Prop(f, "id")))
  {
    Link(Prop(f, "file"), Or(Prop(f, "original_name"), Str("File " + ToJsString(Prop(f, "id")))), Prop(f, "id"))
  }

  /** The items for a list, skipping entries that are not shown. */
  function Items(fs: seq<Value>): (ls: seq<Link>)
    ensures |ls| <= |fs|
    ensures forall l :: l in ls ==> Truthy(l.href)
  {
    if fs == [] then []
    else (if Shown(fs[0]) then [LinkOf(fs[0])] else []) + Items(fs[1..])
  }

  /** Rendering keeps the list's order: the items of a concatenation are the items of each part. */
  lemma {:induction false} ItemsConcat(a: seq<Value>, b: seq<Value>)
    ensures Items(a + b) == Items(a) + Items(b)
  {
    if a == [] {
      assert a + b == b;
    } else {
      assert a == [a[0]] + a[1..] && a + b == [a[0]] + (a[1..] + b);
      ItemsCons(a[0], a[1..]);
      ItemsCons(a[0], a[1..] + b);
      ItemsConcat(a[1..], b);
      var head := if Shown(a[0]) then [LinkOf(a[0])] else [];
      assert head + (Items(a[1..]) + Items(b)) == (head + Items(a[1..])) + Items(b);
    }
  }

  /** The items of a list with head `f`: the head's item, if shown, before the rest's. */
  lemma ItemsCons(f: Value, fs: seq<Value>)
    ensures Items([f] + fs) == (if Shown(f) then [LinkOf(f)] else []) + Items(fs)
  {
    assert ([f] + fs)[1..] == fs;
  }

  /** Exactly the shown entries become items, one each, in order. */
  lemma {:induction false} ItemsAreShownEntries(fs: seq<Value>, f: Value)
    ensures LinkOf(f) in Items(fs) <== f in fs && Shown(f)
    ensures |Items(fs)| == |fs| <==> forall i :: 0 <= i < |fs| ==> Shown(fs[i])
  {
    if fs != [] {
      ItemsAreShownEntries(fs[1..], f);
      if |Items(fs)| == |fs| {
        assert Shown(fs[0]);
        forall i | 0 <= i < |fs| ensures Shown(fs[i]) {
          if i > 0 { assert fs[i] == fs[1..][i - 1]; }
        }
      }
      if forall i :: 0 <= i < |fs| ==> Shown(fs[i]) {
        assert forall i :: 0 <= i < |fs[1..]| ==> Shown(fs[1..][i]) by {
          forall i | 0 <= i < |fs[1..]| ensures Shown(fs[1..][i]) { assert fs[1..][i] == fs[i + 1]; }
        }
      }
    }
  }

  /**
    The list as rendered: the "No files uploaded yet." item exactly when
    the normalised list is empty, otherwise the items for its shown entries
    (possibly none at all).
   */
  function Render(files: Value): (r: Listing)
    ensures r.NoFilesYet? <==> EnsureArray(files) == []
    ensures r.Links? ==> r.links == Items(EnsureArray(files))
  {
    var fs := EnsureArray(files);
    if |fs| > 0 then Links(Items(fs)) else NoFilesYet
  }

  /** No item is rendered exactly when no entry is shown. */
  lemma {:induction false} ItemsEmptyIff(fs: seq<Value>)
    ensures Items(fs) == [] <==> forall i :: 0 <= i < |fs| ==> !Shown(fs[i])
  {
    if fs != [] {
      ItemsEmptyIff(fs[1..]);
      assert forall i :: 1 <= i < |fs| ==> fs[i] == fs[1..][i - 1];
    }
  }

  /**
    A list renders as an empty list, rather than as "No files uploaded
    yet.", exactly when it is non-empty and none of its entries is shown;
    `[null]` is such a list.
   */
  lemma EmptyListingIff(files: Value)
    ensures var fs := EnsureArray(files);
      Render(files) == Links([]) <==> fs != [] && forall i :: 0 <= i < |fs| ==> !Shown(fs[i])
  {
    ItemsEmptyIff(EnsureArray(files));
  }
}
