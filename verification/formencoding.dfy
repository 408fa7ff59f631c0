/**
  Multipart payloads. `FormData.append(key, value)` keeps a `File` as a file
  part and turns every other value into text with `String(value)`; entries
  keep the order in which they were appended. The pages differ only in
  which draft properties they skip.
 */
module FormEncoding {
  import opened JsValues

  datatype Entry = Text(text: string) | Blob(file: FileRef)

  type Entries = seq<(string, Entry)>

  function ToEntry(v: Value): Entry {
    if v.File? then Blob(v.file) else Text(ToJsString(v))
  }

  /** `formData.append(key, value)` */
  function Append(fd: Entries, key: string, v: Value): (r: Entries)
    ensures |r| == |fd| + 1 && r[..|fd|] == fd
    ensures r[|fd|].0 == key
    ensures v.File? ==> r[|fd|].1 == Blob(v.file)
    ensures v.Str? ==> r[|fd|].1 == Text(v.s)
    ensures v.Null? ==> r[|fd|].1 == Text("null")
    ensures v.Undefined? ==> r[|fd|].1 == Text("undefined")
  {
    fd + [(key, ToEntry(v))]
  }

  /**
    Which draft properties a page sends:
    - SkipNullish: News and Publications skip `null` and `undefined` only;
    - SkipNullOrEmpty: Events skips `null` and `""` (so `undefined` is sent as the text "undefined");
    - TypedOnly: the home page skips `null`/`undefined`, writes booleans as
      "true"/"false", sends files, numbers and strings, and drops every other object.
   */
  datatype Policy = SkipNullish | SkipNullOrEmpty | TypedOnly

  function Convert(p: Policy, v: Value): (e: Option<Entry>)
    ensures p.SkipNullish? ==> (e.None? <==> Nullish(v))
    ensures p.SkipNullOrEmpty? ==> (e.None? <==> v == Null || v == Str(""))
    ensures p.TypedOnly? ==> (e.None? <==> Nullish(v) || v.Arr? || v.Obj?)
    ensures p.TypedOnly? && v.Bool? ==> e == Some(Text(if v.b then "true" else "false"))
    ensures e.Some? ==> e.value == ToEntry(v)
  {
    match p
    case SkipNullish => if Nullish(v) then None else Some(ToEntry(v))
    case SkipNullOrEmpty => if v == Null || v == Str("") then None else Some(ToEntry(v))
    case TypedOnly =>
      if Nullish(v) then None
      else if v.File? then Some(Blob(v.file))
      else if v.Bool? then Some(Text(if v.b then "true" else "false"))
      else if v.Num? || v.Str? then Some(Text(ToJsString(v)))
      else None
  }

  /** One `append` per kept property, in the draft's key order. */
  function Encode(p: Policy, r: Record): (fd: Entries)
    ensures |fd| <= |r|
  {
    if r == [] then []
    else
      var head := match Convert(p, r[0].1)
        case Some(e) => [(r[0].0, e)]
        case None => [];
      head + Encode(p, r[1..])
  }

  /** Encoding distributes over concatenation: the relative order of the draft's keys is kept. */
  lemma {:induction false} EncodeConcat(p: Policy, r1: Record, r2: Record)
    ensures Encode(p, r1 + r2) == Encode(p, r1) + Encode(p, r2)
  {
    if r1 == [] {
      assert r1 + r2 == r2;
    } else {
      assert (r1 + r2)[0] == r1[0];
      assert (r1 + r2)[1..] == r1[1..] + r2;
      EncodeConcat(p, r1[1..], r2);
    }
  }

  /** An entry is sent exactly when some draft property with that key converts to it. */
  lemma {:induction false} EncodeMembers(p: Policy, r: Record, k: string, e: Entry)
    ensures (k, e) in Encode(p, r) <==>
      exists i :: 0 <= i < |r| && r[i].0 == k && Convert(p, r[i].1) == Some(e)
  {
    if r != [] {
      EncodeMembers(p, r[1..], k, e);
      if (k, e) in Encode(p, r[1..]) {
        var i :| 0 <= i < |r[1..]| && r[1..][i].0 == k && Convert(p, r[1..][i].1) == Some(e);
        assert r[i + 1] == r[1..][i];
      }
      if exists i :: 0 <= i < |r| && r[i].0 == k && Convert(p, r[i].1) == Some(e) {
        var i :| 0 <= i < |r| && r[i].0 == k && Convert(p, r[i].1) == Some(e);
        if i > 0 {
          assert r[1..][i - 1] == r[i];
        }
      }
    }
  }

  // ---------------------------------------------------------------------
  // Reading a multipart payload back
  // ---------------------------------------------------------------------

  /** The properties the server sees: text parts as strings, file parts as files. */
  function Decode(fd: Entries): (r: Record)
    ensures |r| == |fd|
  {
    if fd == [] then []
    else
      var v := match fd[0].1
        case Text(s) => Str(s)
        case Blob(f) => File(f);
      [(fd[0].0, v)] + Decode(fd[1..])
  }

  /** Values a page's payload carries without loss: non-empty text and files. */
  predicate PlainDraft(r: Record) {
    forall i :: 0 <= i < |r| ==> (r[i].1.Str? && r[i].1.s != "") || r[i].1.File?
  }

  /** Under every policy, a draft of non-empty strings and files is sent whole and read back unchanged. */
  lemma {:induction false} DecodeEncode(p: Policy, r: Record)
    requires PlainDraft(r)
    ensures Decode(Encode(p, r)) == r
  {
    if r != [] {
      var k, v := r[0].0, r[0].1;
      assert (v.Str? && v.s != "") || v.File?;
      PlainDraftTail(r);
      DecodeEncode(p, r[1..]);
      var e := ToEntry(v);
      assert Convert(p, v) == Some(e);
      var tail := Encode(p, r[1..]);
      assert Encode(p, r) == [(k, e)] + tail;
      DecodeCons(k, e, tail);
      assert r == [(k, v)] + r[1..];
    }
  }

  lemma PlainDraftTail(r: Record)
    requires PlainDraft(r) && r != []
    ensures PlainDraft(r[1..])
  {
    forall i | 0 <= i < |r[1..]| ensures (r[1..][i].1.Str? && r[1..][i].1.s != "") || r[1..][i].1.File? {
      assert r[1..][i] == r[i + 1];
    }
  }

  /** Reading back a payload one part at a time. */
  lemma DecodeCons(k: string, e: Entry, tail: Entries)
    ensures Decode([(k, e)] + tail) == [(k, if e.Text? then Str(e.text) else File(e.file))] + Decode(tail)
  {
    assert ([(k, e)] + tail)[1..] == tail;
  }
}
