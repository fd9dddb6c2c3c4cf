/**
 * Parsed JSON values as the Python code sees them after `json.load`:
 * `None`, booleans, integers, strings, lists and dicts (a dict as its items
 * in insertion order, see module Dicts).
 */
module Json {
  import opened Wrappers
  import opened Text
  import Dicts

  datatype Json =
    | JNull
    | JBool(b: bool)
    | JInt(i: int)
    | JString(s: string)
    | JArray(items: seq<Json>)
    | JObject(fields: seq<(string, Json)>)

  /** Python truthiness: `None`, `False`, `0`, `""`, `[]` and `{}` are false. */
  predicate Truthy(j: Json) {
    match j
    case JNull => false
    case JBool(b) => b
    case JInt(i) => i != 0
    case JString(s) => s != []
    case JArray(items) => items != []
    case JObject(fields) => fields != []
  }

  /** `d.get(key)` on a dict value. */
  function Get(j: Json, key: string): (r: Option<Json>)
    requires j.JObject?
    ensures r.Some? <==> Dicts.HasKey(j.fields, key)
  {
    Dicts.Get(j.fields, key)
  }

  /** `d.get(key, default)` on a dict value. */
  function GetOr(j: Json, key: string, default: Json): Json
    requires j.JObject?
  {
    Get(j, key).GetOr(default)
  }

  /** `sep.join(parts)`. */
  function Join(parts: seq<string>, sep: string): string {
    if parts == [] then ""
    else if |parts| == 1 then parts[0]
    else parts[0] + sep + Join(parts[1..], sep)
  }

  /**
   * `repr(j)` with Python's layout for lists and dicts; strings are shown
   * between single quotes without escaping their contents.
   */
  function Repr(j: Json): (r: string)
    ensures r != []
    decreases j
  {
    match j
    case JNull => "None"
    case JBool(b) => if b then "True" else "False"
    case JInt(i) => IntString(i)
    case JString(s) => "'" + s + "'"
    case JArray(items) =>
      "[" + Join(seq(|items|, k requires 0 <= k < |items| => Repr(items[k])), ", ") + "]"
    case JObject(fields) =>
      "{" + Join(seq(|fields|, k requires 0 <= k < |fields| =>
                       "'" + fields[k].0 + "': " + Repr(fields[k].1)), ", ") + "}"
  }

  /** `str(j)`: a string is itself, anything else is its repr. */
  function Str(j: Json): (r: string)
    ensures j.JString? ==> |r| == |j.s|
    ensures !j.JString? ==> r != []
  {
    if j.JString? then j.s else Repr(j)
  }

  /** `int(str(n))` gives back a non-negative integer, and its string is all digits. */
  lemma StrOfNatRoundTrip(n: nat)
    ensures IsDigits(Str(JInt(n)))
    ensures DigitsValue(Str(JInt(n))) == n
  {
    DecimalStringValue(n);
  }
}
