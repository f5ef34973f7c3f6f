/**
 * JSON-like values as the Python code sees them after `json.load`: dicts keep
 * their insertion order, so an object is an ordered list of key/value pairs.
 */
module JsonValues {
  import opened Wrappers
  import opened Strings

  datatype Json =
    | JNull
    | JBool(b: bool)
    | JInt(i: int)
    | JFloat(r: real)
    | JStr(s: string)
    | JList(items: seq<Json>)
    | JObj(fields: seq<(string, Json)>)

  /** Python truthiness (`bool(v)`). */
  predicate Truthy(j: Json)
  {
    match j
    case JNull => false
    case JBool(b) => b
    case JInt(i) => i != 0
    case JFloat(r) => r != 0.0
    case JStr(s) => s != ""
    case JList(items) => items != []
    case JObj(fields) => fields != []
  }

  /** `d.get(key)` on an object's pairs: the first pair with that key. */
  function Get(fields: seq<(string, Json)>, key: string): (r: Option<Json>)
    ensures r.Some? ==> exists k :: 0 <= k < |fields| && fields[k] == (key, r.value)
    ensures r.None? ==> forall k :: 0 <= k < |fields| ==> fields[k].0 != key
  {
    if |fields| == 0 then None
    else if fields[0].0 == key then Some(fields[0].1)
    else
      var r := Get(fields[1..], key);
      assert r.Some? ==> exists k :: 0 <= k < |fields[1..]| && fields[1..][k] == (key, r.value);
      r
  }

  /** `d.get(key)` on any value: `None` unless it is an object holding the key. */
  function Field(j: Json, key: string): Option<Json>
  {
    if j.JObj? then Get(j.fields, key) else None
  }

  /** Python truncation toward zero, as `int(x)` does for a float. */
  function TruncReal(r: real): (n: int)
    ensures r >= 0.0 ==> n as real <= r < n as real + 1.0
    ensures r < 0.0 ==> n as real - 1.0 < r <= n as real
  {
    if r >= 0.0 then r.Floor else -((-r).Floor)
  }

  /**
   * The number a value stands for when Python treats it as numeric:
   * `bool`/`int`/`float` directly, a string through `float(s.strip())`.
   */
  function CoerceFloat(j: Json): (r: Option<real>)
    ensures j.JInt? ==> r == Some(j.i as real)
    ensures j.JFloat? ==> r == Some(j.r)
    ensures (j.JNull? || j.JList? || j.JObj?) ==> r.None?
  {
    match j
    case JBool(b) => Some(if b then 1.0 else 0.0)
    case JInt(i) => Some(i as real)
    case JFloat(r) => Some(r)
    case JStr(s) => ParseDecimal(s)
    case _ => None
  }

  /** Python `int(v)`: `None` where Python raises. */
  function ToInt(j: Json): (r: Option<int>)
    ensures j.JInt? ==> r == Some(j.i)
    ensures (j.JNull? || j.JList? || j.JObj?) ==> r.None?
  {
    match j
    case JBool(b) => Some(if b then 1 else 0)
    case JInt(i) => Some(i)
    case JFloat(r) => Some(TruncReal(r))
    case JStr(s) => ParseInt(s)
    case _ => None
  }

  /** Distinct integers print differently: `str` of an integer reads back as that integer. */
  lemma IntTextReadsBack(i: int, k: int)
    ensures ToInt(JStr(ScalarText(JInt(i)))) == Some(i)
    ensures ScalarText(JInt(i)) == ScalarText(JInt(k)) ==> i == k
  {
    ParseIntToString(i);
    ParseIntToString(k);
  }

  /** `str(v)` for the scalar values the modelled code formats. */
  function ScalarText(j: Json): string
  {
    match j
    case JNull => "None"
    case JBool(b) => if b then "True" else "False"
    case JInt(i) => IntToString(i)
    case JStr(s) => s
    case _ => ""
  }
}
