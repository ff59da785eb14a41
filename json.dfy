/** JSON values as the gateway sees them after `JSON.parse`, with the
    JavaScript property access and truthiness the gateway code applies to
    them. Numbers are integers here. */
module Json {
  import opened Wrappers
  import Decimal

  datatype Json =
    | JNull
    | JBool(b: bool)
    | JNum(n: int)
    | JStr(s: string)
    | JArr(items: seq<Json>)
    | JObj(fields: seq<(string, Json)>)

  /** JavaScript truthiness: `null`, `false`, `0` and `""` are falsy. */
  predicate Truthy(v: Json) {
    match v
    case JNull => false
    case JBool(b) => b
    case JNum(n) => n != 0
    case JStr(s) => s != ""
    case _ => true
  }

  /** Truthiness of a value that may be `undefined` (None). */
  predicate TruthyOpt(v: Option<Json>) {
    v.Some? && Truthy(v.value)
  }

  function Lookup(fields: seq<(string, Json)>, key: string): (r: Option<Json>)
    ensures r.Some? <==> exists i :: 0 <= i < |fields| && fields[i].0 == key
  {
    if fields == [] then None
    else if fields[0].0 == key then Some(fields[0].1)
    else Lookup(fields[1..], key)
  }

  /** Lookup in a two-field object. */
  lemma LookupPair(a: (string, Json), b: (string, Json), key: string)
    ensures Lookup([a, b], key) == if a.0 == key then Some(a.1) else if b.0 == key then Some(b.1) else None
  {
    assert [a, b][1..] == [b];
  }

  /** `v.key` on a value that is not null: an object's own field, `undefined`
      otherwise (arrays, strings, numbers and booleans have none of the keys
      the gateway reads). */
  function Prop(v: Json, key: string): Option<Json> {
    match v
    case JObj(fields) => Lookup(fields, key)
    case _ => None
  }

  /** `v?.key`: `undefined` when `v` is null or undefined. */
  function OptProp(v: Option<Json>, key: string): Option<Json> {
    if v.None? || v.value == JNull then None else Prop(v.value, key)
  }

  /** The own enumerable properties `{...v}` copies: an object's fields, the
      indexed elements of an array or the indexed characters of a string,
      nothing for numbers, booleans and null. */
  function Spread(v: Json): seq<(string, Json)> {
    match v
    case JObj(fields) => fields
    case JArr(items) => seq(|items|, i requires 0 <= i < |items| => (Decimal.NatText(i), items[i]))
    case JStr(s) => seq(|s|, i requires 0 <= i < |s| => (Decimal.NatText(i), JStr([s[i]])))
    case _ => []
  }

  /** Assigning a property in an object literal: an existing key keeps its
      position and takes the new value, a new key goes last. */
  function SetField(fields: seq<(string, Json)>, key: string, value: Json): (r: seq<(string, Json)>)
    ensures |r| == |fields| || |r| == |fields| + 1
    ensures Lookup(r, key) == Some(value)
    ensures forall k :: k != key ==> Lookup(r, k) == Lookup(fields, k)
  {
    if fields == [] then [(key, value)]
    else if fields[0].0 == key then [(key, value)] + fields[1..]
    else [fields[0]] + SetField(fields[1..], key, value)
  }
}
