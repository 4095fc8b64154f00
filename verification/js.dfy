/** The parts of JavaScript's semantics the browser page relies on, applied
    to JSON values: truthiness, `String(v)`, property access,
    `Array.prototype.join` and the `TypeError` these throw. */
module Js {
  import opened Wrappers
  import opened Text
  import opened Json

  datatype Exception = TypeError

  /** `null`, `undefined`, `false`, `0` and `''` are falsy; unlike Python,
      empty arrays and objects are truthy. */
  predicate Truthy(v: Json) {
    match v
    case JNull => false
    case JBool(b) => b
    case JNumber(n) => n != 0
    case JString(s) => s != ""
    case _ => true
  }

  /** `undefined` is modelled as `None`. */
  predicate TruthyOpt(v: Option<Json>) {
    v.Some? && Truthy(v.value)
  }

  /** `v.key`: reading a property of `null` throws; an object yields its
      member; any other value has no such property. */
  function Property(v: Json, key: string): (r: Result<Option<Json>, Exception>)
    ensures r.Failure? <==> v.JNull?
    ensures v.JObject? ==> r == Success(Get(v.members, key))
  {
    match v
    case JNull => Failure(TypeError)
    case JObject(members) => Success(Get(members, key))
    case _ => Success(None)
  }

  /** `String(v)`, also what a template literal and `join` use. */
  function ToStr(v: Json): (r: string)
    ensures v.JString? ==> r == v.s
    ensures v.JObject? ==> r == "[object Object]"
    decreases v, 0
  {
    match v
    case JNull => "null"
    case JBool(b) => if b then "true" else "false"
    case JNumber(n) => Decimal(n)
    case JString(s) => s
    case JArray(items) =>
      Join(",", seq(|items|, i requires 0 <= i < |items| => JoinElement(items[i])))
    case JObject(_) => "[object Object]"
  }

  /** How `join` writes one element: `null` becomes the empty string. */
  function JoinElement(v: Json): (r: string)
    ensures v.JNull? ==> r == ""
    ensures v.JString? ==> r == v.s
    decreases v, 1
  {
    if v.JNull? then "" else ToStr(v)
  }

  /** `v.join(sep)`: only arrays have a `join` method. */
  function ArrayJoin(v: Json, sep: string): (r: Result<string, Exception>)
    ensures r.Success? <==> v.JArray?
    ensures v.JArray? && AllStrings(v.items) ==> r == Success(Join(sep, Strings(v.items)))
  {
    match v
    case JArray(items) =>
      var parts := seq(|items|, i requires 0 <= i < |items| => JoinElement(items[i]));
      assert AllStrings(items) ==> parts == Strings(items) by {
        if AllStrings(items) {
          assert forall i :: 0 <= i < |items| ==> parts[i] == items[i].s;
        }
      }
      Success(Join(sep, parts))
    case _ => Failure(TypeError)
  }

  /** `String(array)` is the array joined with ",". */
  lemma ArrayToStr(items: seq<Json>)
    ensures ArrayJoin(JArray(items), ",") == Success(ToStr(JArray(items)))
  {
  }
}
