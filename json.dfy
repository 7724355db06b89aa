/** The parsed JSON value an extractor receives from `json.loads`, and the Python
    operations the extractors apply to it: truthiness, `dict.get`, `float()` and `int()`. */
module Json {
  import opened Wrappers

  /** An object keeps its members in insertion order, as a Python dict does. */
  datatype Json =
    | JNull
    | JBool(b: bool)
    | JNum(n: real)
    | JStr(s: string)
    | JArr(items: seq<Json>)
    | JObj(members: seq<(string, Json)>)

  /** Python truthiness: `None`, `False`, zero and empty containers are false. */
  predicate Truthy(j: Json)
  {
    match j
    case JNull => false
    case JBool(b) => b
    case JNum(n) => n != 0.0
    case JStr(s) => s != []
    case JArr(items) => items != []
    case JObj(members) => members != []
  }

  /** The value stored under `key`, if the key is present. */
  function Lookup(members: seq<(string, Json)>, key: string): (r: Option<Json>)
    ensures r.Some? <==> exists i :: 0 <= i < |members| && members[i].0 == key
    ensures r.Some? ==> exists i :: 0 <= i < |members| && members[i] == (key, r.value)
  {
    if members == [] then None
    else if members[0].0 == key then Some(members[0].1)
    else
      var r := Lookup(members[1..], key);
      assert forall i :: 1 <= i < |members| ==> members[i] == members[1..][i - 1];
      r
  }

  /** The members of an object that `json.loads` built: a dict holds each key once (a
      repeated key in the text keeps its last value). */
  predicate DistinctKeys(members: seq<(string, Json)>)
  {
    forall i, k :: 0 <= i < k < |members| ==> members[i].0 != members[k].0
  }

  /** On a dict, the value found for a member's key is that member's value. */
  lemma {:induction false} LookupUnique(members: seq<(string, Json)>, i: nat)
    requires DistinctKeys(members) && i < |members|
    ensures Lookup(members, members[i].0) == Some(members[i].1)
  {
    if i > 0 {
      assert members[0].0 != members[i].0;
      assert members[1..][i - 1] == members[i];
      LookupUnique(members[1..], i - 1);
    }
  }

  /** `params.get(key)` on a dict: the value, or `None` (here `JNull`) when absent. */
  function Get(members: seq<(string, Json)>, key: string): Json
  {
    match Lookup(members, key)
    case Some(v) => v
    case None => JNull
  }

  /** `int(x)` of a float: truncation toward zero. */
  function Trunc(x: real): (i: int)
    ensures x >= 0.0 ==> i as real <= x < i as real + 1.0
    ensures x < 0.0 ==> i as real - 1.0 < x <= i as real
  {
    if x >= 0.0 then x.Floor else -((-x).Floor)
  }

  /** `float(v)`: numbers and booleans convert; `None`, lists and dicts raise TypeError.
      A string is treated as unconvertible (Python would parse its text). */
  function ToFloat(j: Json): Option<real>
  {
    match j
    case JNum(n) => Some(n)
    case JBool(b) => Some(if b then 1.0 else 0.0)
    case _ => None
  }

  /** `int(v)`: numbers truncate toward zero, booleans give 0 or 1, the rest raise. */
  function ToInt(j: Json): Option<int>
  {
    match j
    case JNum(n) => Some(Trunc(n))
    case JBool(b) => Some(if b then 1 else 0)
    case _ => None
  }
}
