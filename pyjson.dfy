/**
 * The values `response.json()` hands to the CLI, and the few Python operations the
 * CLI applies to them, with Python's behaviour on every kind of value: a dictionary
 * lookup on a list, an index into a string or a slice of a number raise rather than
 * return. JSON numbers are integers here (floats are not modelled).
 */
module PyJson {
  import opened Optional
  import opened Strings

  datatype Json =
    | JNull
    | JBool(b: bool)
    | JNum(n: int)
    | JStr(s: string)
    | JArr(items: seq<Json>)
    | JObj(fields: map<string, Json>)

  /** A Python evaluation: a value, or an exception (its type and text are not modelled). */
  datatype Py<+T> = Ok(value: T) | Raised

  /** Python truthiness: `None`, `False`, `0`, `""`, `[]` and `{}` are false. */
  predicate Truthy(j: Json) {
    match j
    case JNull => false
    case JBool(b) => b
    case JNum(n) => n != 0
    case JStr(s) => |s| > 0
    case JArr(items) => |items| > 0
    case JObj(fields) => |fields| > 0
  }

  /** `j.get(key, default)`: only a dictionary has `get`. */
  function Get(j: Json, key: string, default: Json): (r: Py<Json>)
    ensures r.Ok? <==> j.JObj?
  {
    match j
    case JObj(fields) => Ok(if key in fields then fields[key] else default)
    case _ => Raised
  }

  /** `j.get(key)`: a missing key reads as `None`. */
  function Lookup(j: Json, key: string): Py<Json> {
    Get(j, key, JNull)
  }

  /** `j[key]` for a string key: a `KeyError` on a missing key, a `TypeError` off dictionaries. */
  function Subscript(j: Json, key: string): Py<Json> {
    match j
    case JObj(fields) => if key in fields then Ok(fields[key]) else Raised
    case _ => Raised
  }

  /** `j[0]`: the first item of a list, the first character of a string. */
  function First(j: Json): (r: Py<Json>)
    ensures r.Ok? ==> (j.JArr? && |j.items| > 0) || (j.JStr? && |j.s| > 0)
  {
    match j
    case JArr(items) => if |items| > 0 then Ok(items[0]) else Raised
    case JStr(s) => if |s| > 0 then Ok(JStr([s[0]])) else Raised
    case _ => Raised
  }

  /** `key` occurs in `s` at position i. */
  predicate MatchAt(key: string, s: string, i: int) {
    0 <= i && i + |key| <= |s| && s[i..i + |key|] == key
  }

  /** The search for `key` in `s` from position `from` on. */
  function SubstringFrom(key: string, s: string, from: nat): (found: bool)
    requires from <= |s|
    ensures found <==> exists i :: from <= i && MatchAt(key, s, i)
    decreases |s| - from
  {
    if from + |key| > |s| then false
    else if s[from..from + |key|] == key then assert MatchAt(key, s, from); true
    else SubstringFrom(key, s, from + 1)
  }

  /** `key in j`: a key of a dictionary, an item of a list, a substring of a string. */
  function Contains(j: Json, key: string): Py<bool> {
    match j
    case JObj(fields) => Ok(key in fields)
    case JArr(items) => Ok(JStr(key) in items)
    case JStr(s) => Ok(SubstringFrom(key, s, 0))
    case _ => Raised
  }

  /** `len(j)` */
  function Len(j: Json): Py<nat> {
    match j
    case JArr(items) => Ok(|items|)
    case JStr(s) => Ok(|s|)
    case JObj(fields) => Ok(|fields|)
    case _ => Raised
  }

  /** The characters of a string as one-character strings. */
  function CharValues(s: string): (r: seq<Json>)
    ensures |r| == |s| && forall i :: 0 <= i < |s| ==> r[i] == JStr([s[i]])
  {
    if |s| == 0 then [] else [JStr([s[0]])] + CharValues(s[1..])
  }

  /** What `for x in j` visits. A non-empty dictionary is taken to raise: at every loop
   *  over one in the CLI its first key, a string, fails in the loop body. */
  function Items(j: Json): Py<seq<Json>> {
    match j
    case JArr(items) => Ok(items)
    case JStr(s) => Ok(CharValues(s))
    case JObj(fields) => if |fields| == 0 then Ok([]) else Raised
    case _ => Raised
  }

  /** The items of `j[:n]`, for a list or a string. */
  function Take(j: Json, n: nat): (r: Py<seq<Json>>)
    ensures r.Ok? ==> |r.value| <= n
    ensures r.Ok? && j.JArr? ==> r.value == j.items[..Min(n, |j.items|)]
  {
    match j
    case JArr(items) => Ok(items[..Min(n, |items|)])
    case JStr(s) => Ok(CharValues(s[..Min(n, |s|)]))
    case _ => Raised
  }

  /** `a or b` */
  function Or(a: Json, b: Json): Json {
    if Truthy(a) then a else b
  }

  /** An optional sign followed by ASCII digits, as `int()` reads it. */
  function ParseInt(s: string): Option<int> {
    if |s| > 0 && (s[0] == '-' || s[0] == '+') then
      if IsDigitString(s[1..]) then
        var v: int := DigitsValue(s[1..]);
        Some(if s[0] == '-' then -v else v)
      else None
    else if IsDigitString(s) then Some(DigitsValue(s))
    else None
  }

  /** `int(j)`: numbers and booleans convert, strings are parsed, anything else raises. */
  function PyInt(j: Json): Py<int> {
    match j
    case JNum(n) => Ok(n)
    case JBool(b) => Ok(if b then 1 else 0)
    case JStr(s) => if ParseInt(s).Some? then Ok(ParseInt(s).value) else Raised
    case _ => Raised
  }
}
