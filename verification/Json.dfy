/** Values read by `json.load`, with Python's dynamic type tests on them. */
module Json {

  datatype Option<+T> = None | Some(value: T)

  /** All the values, or nothing if one is missing: a computation that may raise, step by step. */
  function AllSome<T>(xs: seq<Option<T>>): (r: Option<seq<T>>)
    ensures r.Some? <==> forall i :: 0 <= i < |xs| ==> xs[i].Some?
    ensures r.Some? ==> |r.value| == |xs|
    ensures r.Some? ==> forall i :: 0 <= i < |xs| ==> xs[i] == Some(r.value[i])
  {
    if xs == [] then Some([])
    else
      var n := |xs| - 1;
      var init := AllSome(xs[..n]);
      assert forall i :: 0 <= i < n ==> xs[..n][i] == xs[i];
      if init.Some? && xs[n].Some? then Some(init.value + [xs[n].value]) else None
  }

  datatype Json =
    | JNull
    | JBool(b: bool)
    | JInt(i: int)
    | JFloat(r: real)
    | JStr(s: string)
    | JList(items: seq<Json>)
    | JObj(fields: map<string, Json>)

  type Object = map<string, Json>

  /** `d.get(key)`: absent keys read as `None`, like an explicit null. */
  function Get(d: Object, key: string): Json {
    if key in d then d[key] else JNull
  }

  /** `d.get(key, default)` */
  function GetOr(d: Object, key: string, default: Json): Json {
    if key in d then d[key] else default
  }

  /** `isinstance(v, int)`; a bool is an int. */
  predicate IsInt(v: Json) {
    v.JInt? || v.JBool?
  }

  /** `isinstance(v, (int, float))` */
  predicate IsNumber(v: Json) {
    IsInt(v) || v.JFloat?
  }

  /** `is_json_number(v)` */
  predicate IsJsonNumber(v: Json) {
    IsNumber(v) && !v.JBool?
  }

  function IntValue(v: Json): int
    requires IsInt(v)
  {
    match v
    case JInt(i) => i
    case JBool(b) => if b then 1 else 0
  }

  function Number(v: Json): real
    requires IsNumber(v)
  {
    match v
    case JFloat(r) => r
    case _ => IntValue(v) as real
  }

  /** `bool(v)` */
  predicate Truthy(v: Json) {
    match v
    case JNull => false
    case JBool(b) => b
    case JInt(i) => i != 0
    case JFloat(r) => r != 0.0
    case JStr(s) => s != ""
    case JList(items) => items != []
    case JObj(fields) => fields != map[]
  }

  /** A string other than the empty one. */
  predicate NonEmptyStr(v: Json) {
    v.JStr? && v.s != ""
  }

  /** The text of a string value. */
  function Str(v: Json): string {
    if v.JStr? then v.s else ""
  }

  /** A list whose items are all non-empty strings. */
  predicate NonEmptyStrs(v: Json) {
    v.JList? && forall x :: x in v.items ==> NonEmptyStr(x)
  }

  /** A list of strings. */
  predicate AllStrs(v: Json) {
    v.JList? && forall x :: x in v.items ==> x.JStr?
  }

  function Strs(v: Json): (r: seq<string>)
    requires AllStrs(v)
    ensures |r| == |v.items|
    ensures forall k :: 0 <= k < |r| ==> v.items[k] == JStr(r[k])
  {
    assert forall k :: 0 <= k < |v.items| ==> v.items[k] in v.items;
    seq(|v.items|, k requires 0 <= k < |v.items| => v.items[k].s)
  }

  /** The items of a list field; absent fields read as the empty list. */
  function Items(d: Object, key: string): seq<Json> {
    var v := GetOr(d, key, JList([]));
    if v.JList? then v.items else []
  }

  /** Python takes exactly these values for false. */
  lemma TruthyIff(v: Json)
    ensures Truthy(v) <==>
            && v != JNull && v != JBool(false) && v != JInt(0) && v != JFloat(0.0)
            && v != JStr("") && v != JList([]) && v != JObj(map[])
  {
  }
}
