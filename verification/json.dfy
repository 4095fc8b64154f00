/** Parsed JSON values, as both `json.loads` in Python and `JSON.parse` in
    JavaScript produce them. Objects keep their members in document order. */
module Json {
  import opened Wrappers

  datatype Json =
    | JNull
    | JBool(b: bool)
    | JNumber(n: int)
    | JString(s: string)
    | JArray(items: seq<Json>)
    | JObject(members: seq<Member>)

  datatype Member = Member(key: string, value: Json)

  /** The value stored under `key`, taking the first member with that key. */
  function Get(members: seq<Member>, key: string): Option<Json> {
    if members == [] then None
    else if members[0].key == key then Some(members[0].value)
    else Get(members[1..], key)
  }

  /** `Get` finds the value of the first member with the key, and nothing
      when no member has it. */
  lemma {:induction false} GetFirst(members: seq<Member>, key: string)
    ensures Get(members, key).None? <==> forall i :: 0 <= i < |members| ==> members[i].key != key
    ensures Get(members, key).Some? ==> exists i ::
      && 0 <= i < |members| && members[i] == Member(key, Get(members, key).value)
      && forall j :: 0 <= j < i ==> members[j].key != key
  {
    if members != [] && members[0].key != key {
      GetFirst(members[1..], key);
      if Get(members, key).Some? {
        var i :| && 0 <= i < |members[1..]| && members[1..][i] == Member(key, Get(members, key).value)
                 && forall j :: 0 <= j < i ==> members[1..][j].key != key;
        assert members[i + 1] == members[1..][i];
        assert forall j :: 1 <= j < i + 1 ==> members[j] == members[1..][j - 1];
      }
    }
  }

  /** `key` looked up in an object; any other value has no members. */
  function Field(v: Json, key: string): (r: Option<Json>)
    ensures !v.JObject? ==> r.None?
  {
    if v.JObject? then Get(v.members, key) else None
  }

  /** Keys of an object's members, in order (what iterating a Python dict
      yields). */
  function Keys(members: seq<Member>): (r: seq<string>)
    ensures |r| == |members|
    ensures forall i :: 0 <= i < |r| ==> r[i] == members[i].key
  {
    seq(|members|, i requires 0 <= i < |members| => members[i].key)
  }

  /** Every element is a string. */
  predicate AllStrings(items: seq<Json>) {
    forall i :: 0 <= i < |items| ==> items[i].JString?
  }

  /** The texts of an array of strings, in order. */
  function Strings(items: seq<Json>): (r: seq<string>)
    requires AllStrings(items)
    ensures |r| == |items|
    ensures forall i :: 0 <= i < |items| ==> r[i] == items[i].s
  {
    seq(|items|, i requires 0 <= i < |items| => items[i].s)
  }
}
