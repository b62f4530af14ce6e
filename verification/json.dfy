/** The untyped values the script handles: JSON-like data read from the page's
    embedded store, from the cache slot and from merges. */
module JsonValue {
  import opened Text

  datatype Option<T> = None | Some(value: T)
  {
    function GetOr(default: T): T
    {
      match this
      case Some(v) => v
      case None => default
    }
  }

  /** A JavaScript value. `JUndef` is `undefined`; numbers are reals with an
      explicit NaN. An object is its own (string key, value) entries in
      insertion order. */
  datatype Json =
    | JUndef
    | JNull
    | JBool(b: bool)
    | JNum(n: real)
    | JNaN
    | JStr(s: string)
    | JArr(items: seq<Json>)
    | JObj(fields: seq<(string, Json)>)

  /** JavaScript truthiness: `undefined`, `null`, `false`, `0`, `NaN` and `""`
      are falsy, everything else (every array and object) is truthy. */
  predicate Truthy(j: Json)
  {
    match j
    case JUndef => false
    case JNull => false
    case JBool(b) => b
    case JNum(n) => n != 0.0
    case JNaN => false
    case JStr(s) => s != []
    case _ => true
  }

  /** `v === null || v === undefined`, the test behind `??`. */
  predicate Nullish(j: Json) { j.JUndef? || j.JNull? }

  /** An array or an object: what `v && typeof v === 'object'` admits. */
  predicate IsObjectRef(j: Json) { j.JArr? || j.JObj? }

  /** `typeof v === 'object'`, which is also true of `null`. */
  predicate TypeofObject(j: Json) { j.JNull? || j.JArr? || j.JObj? }

  /** Index of the entry with key `k`, if any. */
  function FieldIndex(fields: seq<(string, Json)>, k: string): (r: Option<nat>)
    ensures r.Some? ==> r.value < |fields| && fields[r.value].0 == k
    ensures r.Some? ==> forall i :: 0 <= i < r.value ==> fields[i].0 != k
    ensures r.None? ==> forall i :: 0 <= i < |fields| ==> fields[i].0 != k
  {
    if fields == [] then None
    else if fields[0].0 == k then Some(0)
    else match FieldIndex(fields[1..], k)
      case None => None
      case Some(i) => Some(i + 1)
  }

  /** `k in v`: an own key of an object. Arrays carry no named keys here. */
  predicate Has(j: Json, k: string)
  {
    j.JObj? && FieldIndex(j.fields, k).Some?
  }

  /** `v[k]`: `undefined` for a missing key and for a non-object. */
  function Get(j: Json, k: string): (r: Json)
    ensures !Has(j, k) ==> r == JUndef
  {
    if j.JObj? then
      match FieldIndex(j.fields, k)
      case Some(i) => j.fields[i].1
      case None => JUndef
    else JUndef
  }

  /** `Object.entries(v)`: the entries of an object, the indexed elements of
      an array, nothing for anything else. */
  function Entries(j: Json): (r: seq<(string, Json)>)
    ensures j.JObj? ==> r == j.fields
    ensures j.JArr? ==> |r| == |j.items|
    ensures !IsObjectRef(j) ==> r == []
  {
    match j
    case JObj(fs) => fs
    case JArr(items) => seq(|items|, i requires 0 <= i < |items| => (NatText(i), items[i]))
    case _ => []
  }

  /** `a ?? b ?? …`: the first operand that is neither null nor undefined,
      or the last operand. */
  function Coalesce(vs: seq<Json>): (r: Json)
    requires |vs| > 0
    ensures r in vs
    ensures !Nullish(r) ==> exists i :: 0 <= i < |vs| && vs[i] == r && forall j :: 0 <= j < i ==> Nullish(vs[j])
    ensures Nullish(r) <==> forall i :: 0 <= i < |vs| ==> Nullish(vs[i])
  {
    if |vs| == 1 || !Nullish(vs[0]) then vs[0]
    else
      var r := Coalesce(vs[1..]);
      assert forall i :: 1 <= i < |vs| ==> vs[i] == vs[1..][i - 1];
      r
  }

  /** `a || b || …`: the first truthy operand, or the last operand. */
  function OrChain(vs: seq<Json>): (r: Json)
    requires |vs| > 0
    ensures r in vs
    ensures Truthy(r) <==> exists i :: 0 <= i < |vs| && Truthy(vs[i])
    ensures Truthy(r) ==> exists i :: 0 <= i < |vs| && vs[i] == r && forall j :: 0 <= j < i ==> !Truthy(vs[j])
  {
    if |vs| == 1 || Truthy(vs[0]) then vs[0]
    else
      var r := OrChain(vs[1..]);
      assert forall i :: 1 <= i < |vs| ==> vs[i] == vs[1..][i - 1];
      r
  }

  /** `String(v)`. Arrays join their elements with commas, writing null and
      undefined elements as empty text. */
  function ToStr(j: Json): string
  {
    match j
    case JUndef => "undefined"
    case JNull => "null"
    case JBool(b) => if b then "true" else "false"
    case JNum(n) => NumberText(n)
    case JNaN => "NaN"
    case JStr(s) => s
    case JArr(items) => JoinItems(items)
    case JObj(_) => "[object Object]"
  }

  function JoinItems(items: seq<Json>): string
    decreases items
  {
    if items == [] then []
    else
      var last := items[|items| - 1];
      var text := if Nullish(last) then [] else ToStr(last);
      if |items| == 1 then text else JoinItems(items[..|items| - 1]) + "," + text
  }
}
