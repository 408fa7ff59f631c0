/**
  JavaScript values as the dashboard handles them: form drafts, server
  records and response bodies. Objects are ordered association lists, so the
  insertion order that `for…in`, `Object.keys` and `Object.values` follow is
  kept. Numbers are integers.
 */
module JsValues {
  import opened JsStrings

  datatype Option<T> = None | Some(value: T)

  /** A browser `File` chosen in a file input. */
  datatype FileRef = FileRef(name: string, mime: string, size: nat)

  datatype Value =
    | Undefined
    | Null
    | Bool(b: bool)
    | Num(n: int)
    | Str(s: string)
    | File(file: FileRef)
    | Arr(elems: seq<Value>)
    | Obj(fields: seq<(string, Value)>)

  /** A plain object seen as its list of own properties, in insertion order. */
  type Record = seq<(string, Value)>

  /** JavaScript's ToBoolean (`NaN` does not exist in this model). */
  predicate Truthy(v: Value) {
    match v
    case Undefined => false
    case Null => false
    case Bool(b) => b
    case Num(n) => n != 0
    case Str(s) => s != ""
    case _ => true
  }

  /** `null` or `undefined`: reading a property of one of these throws. */
  predicate Nullish(v: Value) {
    v.Undefined? || v.Null?
  }

  /** `a || b` */
  function Or(a: Value, b: Value): (r: Value)
    ensures Truthy(r) <==> Truthy(a) || Truthy(b)
    ensures r == a || r == b
    ensures Truthy(a) ==> r == a
  {
    if Truthy(a) then a else b
  }

  // ---------------------------------------------------------------------
  // Records
  // ---------------------------------------------------------------------

  function Keys(r: Record): (ks: seq<string>)
    ensures |ks| == |r|
    ensures forall i :: 0 <= i < |r| ==> ks[i] == r[i].0
  {
    if r == [] then [] else [r[0].0] + Keys(r[1..])
  }

  /** Every key occurs once, as in a JavaScript object. */
  predicate UniqueKeys(r: Record) {
    forall i, j :: 0 <= i < j < |r| ==> r[i].0 != r[j].0
  }

  /** Position of the property named `k`, or -1. */
  function IndexOf(r: Record, k: string): (i: int)
    ensures -1 <= i < |r|
    ensures i >= 0 ==> r[i].0 == k
    ensures i >= 0 ==> forall j :: 0 <= j < i ==> r[j].0 != k
    ensures i == -1 <==> k !in Keys(r)
  {
    if r == [] then -1
    else if r[0].0 == k then 0
    else
      var i := IndexOf(r[1..], k);
      assert forall j :: 1 <= j < |r| ==> r[j] == r[1..][j - 1];
      assert Keys(r) == [r[0].0] + Keys(r[1..]);
      if i == -1 then -1 else i + 1
  }

  /** `obj[k]`: the property's value, `undefined` when absent. */
  function Get(r: Record, k: string): Value {
    if r == [] then Undefined
    else if r[0].0 == k then r[0].1
    else Get(r[1..], k)
  }

  /** `Get` reads the property `IndexOf` finds. */
  lemma {:induction false} GetIndexOf(r: Record, k: string)
    ensures Get(r, k) == if IndexOf(r, k) >= 0 then r[IndexOf(r, k)].1 else Undefined
  {
    if r != [] && r[0].0 != k {
      GetIndexOf(r[1..], k);
    }
  }

  /** `{ ...obj, [k]: v }`: an existing property keeps its position, a new one goes last. */
  function Set(r: Record, k: string, v: Value): (r': Record)
    ensures k in Keys(r) ==> Keys(r') == Keys(r)
    ensures k !in Keys(r) ==> Keys(r') == Keys(r) + [k]
    ensures Get(r', k) == v
    ensures forall k' :: k' != k ==> Get(r', k') == Get(r, k')
  {
    if r == [] then [(k, v)]
    else if r[0].0 == k then [(k, v)] + r[1..]
    else
      var rest := Set(r[1..], k, v);
      assert Keys(r) == [r[0].0] + Keys(r[1..]);
      [r[0]] + rest
  }

  /** In a record with unique keys, a property found anywhere is what `Get` reads. */
  lemma GetUnique(r: Record, i: int)
    requires UniqueKeys(r) && 0 <= i < |r|
    ensures Get(r, r[i].0) == r[i].1
  {
    GetFirst(r, i);
  }

  /** A property no earlier property shadows is what `Get` reads. */
  lemma {:induction false} GetFirst(r: Record, i: int)
    requires 0 <= i < |r| && forall j :: 0 <= j < i ==> r[j].0 != r[i].0
    ensures Get(r, r[i].0) == r[i].1
  {
    if i > 0 {
      assert r[0].0 != r[i].0;
      assert forall j :: 0 <= j < i - 1 ==> r[1..][j].0 != r[1..][i - 1].0;
      GetFirst(r[1..], i - 1);
    }
  }

  /** An object literal whose keys are all distinct. */
  function Literal(r: Record): (v: Value)
    requires UniqueKeys(r)
    ensures v.Obj? && forall i :: 0 <= i < |r| ==> Prop(v, r[i].0) == r[i].1
  {
    forall i | 0 <= i < |r| ensures Get(r, r[i].0) == r[i].1 {
      GetUnique(r, i);
    }
    Obj(r)
  }

  // ---------------------------------------------------------------------
  // Property access and string conversion
  // ---------------------------------------------------------------------

  /**
    `v.k` for a value that is not nullish: an object's own property, a
    file's `name`, `type` or `size`, `undefined` for everything else.
   */
  function Prop(v: Value, k: string): Value {
    match v
    case Obj(fs) => Get(fs, k)
    case File(f) =>
      if k == "name" then Str(f.name)
      else if k == "type" then Str(f.mime)
      else if k == "size" then Num(f.size)
      else Undefined
    case _ => Undefined
  }

  /** `String(v)` and template-literal interpolation. */
  function ToJsString(v: Value): string
    decreases v
  {
    match v
    case Undefined => "undefined"
    case Null => "null"
    case Bool(b) => if b then "true" else "false"
    case Num(n) => IntToDecimal(n)
    case Str(s) => s
    case File(_) => "[object File]"
    case Obj(_) => "[object Object]"
    case Arr(es) =>
      // `Array.prototype.join(",")`: `null` and `undefined` elements become ""
      JoinComma(seq(|es|, i requires 0 <= i < |es| => if Nullish(es[i]) then "" else ToJsString(es[i])))
  }

  function JoinComma(parts: seq<string>): string {
    if parts == [] then ""
    else if |parts| == 1 then parts[0]
    else parts[0] + "," + JoinComma(parts[1..])
  }
}
