/**
 * Values produced by JSON.parse and the JavaScript operators the gateway
 * client applies to them: optional member access `v?.[key]`, truthiness,
 * `a || b` and `a ?? b`. `None` stands for `undefined`.
 */
module JsonValue {
  import opened Wrappers

  datatype Json =
    | JNull
    | JBool(b: bool)
    | JNum(x: real)
    | JStr(s: string)
    | JArray(items: seq<Json>)
    | JObject(fields: map<string, Json>)

  /** JavaScript truthiness of a possibly undefined value (JSON has no NaN). */
  predicate Truthy(v: Option<Json>)
  {
    match v
    case None => false
    case Some(JNull) => false
    case Some(JBool(b)) => b
    case Some(JNum(x)) => x != 0.0
    case Some(JStr(s)) => s != ""
    case Some(JArray(_)) => true
    case Some(JObject(_)) => true
  }

  /** `null` or `undefined`. */
  predicate Nullish(v: Option<Json>)
  {
    v == None || v == Some(JNull)
  }

  /** `v?.[key]`: undefined unless `v` is an object that has `key`. The keys
      this model looks up are not inherited properties of any JSON value. */
  function Member(v: Json, key: string): (r: Option<Json>)
    ensures r.Some? <==> v.JObject? && key in v.fields
  {
    if v.JObject? && key in v.fields then Some(v.fields[key]) else None
  }

  /** `a || b` */
  function Or(a: Option<Json>, b: Option<Json>): (r: Option<Json>)
    ensures Truthy(r) <==> Truthy(a) || Truthy(b)
    ensures Truthy(a) ==> r == a
  {
    if Truthy(a) then a else b
  }

  /** `a ?? b` */
  function Coalesce(a: Option<Json>, b: Option<Json>): (r: Option<Json>)
    ensures Nullish(r) <==> Nullish(a) && Nullish(b)
    ensures !Nullish(a) ==> r == a
  {
    if Nullish(a) then b else a
  }

  /** Index of the first truthy value of `vs`, or `|vs|` when there is none. */
  function FirstTruthy(vs: seq<Option<Json>>): (i: nat)
    ensures i <= |vs|
    ensures forall j :: 0 <= j < i ==> !Truthy(vs[j])
    ensures i < |vs| ==> Truthy(vs[i])
  {
    if vs == [] then 0 else if Truthy(vs[0]) then 0 else 1 + FirstTruthy(vs[1..])
  }

  /** `vs[0] || vs[1] || ... || last`, evaluated left to right. */
  function OrChain(vs: seq<Option<Json>>, last: Option<Json>): Option<Json>
  {
    if vs == [] then last else Or(vs[0], OrChain(vs[1..], last))
  }

  /** An `||` chain yields its first truthy operand, or its last operand when
      none of the others is truthy. */
  lemma {:induction false} OrChainIsFirstTruthy(vs: seq<Option<Json>>, last: Option<Json>)
    ensures OrChain(vs, last) == if FirstTruthy(vs) < |vs| then vs[FirstTruthy(vs)] else last
  {
    if vs != [] && !Truthy(vs[0]) {
      OrChainIsFirstTruthy(vs[1..], last);
    }
  }
}
