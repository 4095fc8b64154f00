/** The parts of Python's semantics the command-line tool relies on, applied
    to JSON values: truthiness, `str()`, `sep.join(...)` and the exceptions
    these raise. */
module Py {
  import opened Wrappers
  import opened Text
  import opened Json

  datatype Exception = TypeError | AttributeError | NameError

  /** `bool(v)`: `None`, `False`, zero and empty strings, lists and dicts are
      false; everything else is true. */
  predicate Truthy(v: Json) {
    match v
    case JNull => false
    case JBool(b) => b
    case JNumber(n) => n != 0
    case JString(s) => s != ""
    case JArray(items) => items != []
    case JObject(members) => members != []
  }

  /** `dict.get(key)` used as a condition: a missing key counts as `None`. */
  predicate TruthyField(members: seq<Member>, key: string) {
    var f := Get(members, key);
    f.Some? && Truthy(f.value)
  }

  /** `str(v)`, as an f-string renders it. */
  function ToStr(v: Json): (r: string)
    ensures v.JString? ==> r == v.s
    ensures v.JNull? ==> r == "None"
  {
    if v.JString? then v.s else Repr(v)
  }

  /** `repr(v)`. String quoting is simplified: the text is put between single
      quotes without escaping. */
  function Repr(v: Json): (r: string)
    ensures r != ""
    decreases v
  {
    match v
    case JNull => "None"
    case JBool(b) => if b then "True" else "False"
    case JNumber(n) => Decimal(n)
    case JString(s) => "'" + s + "'"
    case JArray(items) =>
      "[" + Join(", ", seq(|items|, i requires 0 <= i < |items| => Repr(items[i]))) + "]"
    case JObject(members) =>
      "{" + Join(", ", seq(|members|, i requires 0 <= i < |members| =>
                         "'" + members[i].key + "': " + Repr(members[i].value))) + "}"
  }

  /** The characters of a string, each as a string of length one (what
      iterating a Python `str` yields). */
  function Chars(s: string): (r: seq<string>)
    ensures |r| == |s|
    ensures forall i :: 0 <= i < |s| ==> r[i] == [s[i]]
  {
    seq(|s|, i requires 0 <= i < |s| => [s[i]])
  }

  /** `sep.join(v)`: `v` is iterated, and every element it yields must be a
      string. A string yields its characters and a dict its keys; a list of
      anything but strings, and a value that is not iterable, raise
      `TypeError`. */
  function JoinValue(sep: string, v: Json): (r: Result<string, Exception>)
    ensures r.Failure? ==> r.error == TypeError
    ensures r.Failure? <==>
      (v.JNull? || v.JBool? || v.JNumber? || (v.JArray? && !AllStrings(v.items)))
    ensures v.JArray? && AllStrings(v.items) ==> r == Success(Join(sep, Strings(v.items)))
  {
    match v
    case JString(s) => Success(Join(sep, Chars(s)))
    case JArray(items) =>
      if AllStrings(items) then Success(Join(sep, Strings(items))) else Failure(TypeError)
    case JObject(members) => Success(Join(sep, Keys(members)))
    case _ => Failure(TypeError)
  }
}
