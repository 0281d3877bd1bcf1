/** The values `json.loads` produces, seen as Python values: `None`, `bool`,
    `int`, `str`, `list` and `dict` (floats are not modelled). */
module Json {
  import opened Wrappers
  import opened Text
  import OrderedDict

  datatype Json =
    | JNull
    | JBool(b: bool)
    | JInt(i: int)
    | JString(s: string)
    | JArray(items: seq<Json>)
    | JObject(fields: seq<(string, Json)>)

  const EmptyObject: Json := JObject([])

  /** Python truthiness: `None`, `False`, `0`, `""`, `[]` and `{}` are false. */
  predicate Truthy(j: Json) {
    match j
    case JNull => false
    case JBool(b) => b
    case JInt(i) => i != 0
    case JString(s) => s != ""
    case JArray(xs) => xs != []
    case JObject(fs) => fs != []
  }

  /** Python `a or b`. */
  function Or(a: Json, b: Json): (r: Json)
    ensures Truthy(a) ==> r == a
    ensures !Truthy(a) ==> r == b
  {
    if Truthy(a) then a else b
  }

  /** Python `d.get(key, default)` on a dict's fields. */
  function GetOr(fields: seq<(string, Json)>, key: string, default: Json): (r: Json)
    ensures OrderedDict.HasKey(fields, key) ==> r == OrderedDict.Get(fields, key).value
    ensures !OrderedDict.HasKey(fields, key) ==> r == default
  {
    OrderedDict.Get(fields, key).GetOr(default)
  }

  /** Python `d.get(key)`: a missing key reads as `None`. An object with a
      repeated key reads its first value; a dict decoded by Python's
      `json.loads` would hold the last one. */
  function Get(fields: seq<(string, Json)>, key: string): Json {
    GetOr(fields, key, JNull)
  }

  /** The characters that Python's `repr` of a string escapes, as modelled. */
  function EscapeChar(c: char, quote: char): string {
    if c == '\\' then "\\\\"
    else if c == quote then ['\\', quote]
    else if c == '\n' then "\\n"
    else if c == '\r' then "\\r"
    else if c == '\t' then "\\t"
    else [c]
  }

  function Escape(s: string, quote: char): string {
    if s == [] then "" else EscapeChar(s[0], quote) + Escape(s[1..], quote)
  }

  predicate HasChar(s: string, c: char) { exists i :: 0 <= i < |s| && s[i] == c }

  /** Python `repr(s)` for a string: single quotes unless the text holds a
      single quote and no double quote. */
  function ReprString(s: string): string {
    var q := if HasChar(s, '\'') && !HasChar(s, '"') then '"' else '\'';
    [q] + Escape(s, q) + [q]
  }

  /** Python `repr(v)`. */
  function Repr(j: Json): string
    decreases j
  {
    match j
    case JNull => "None"
    case JBool(b) => if b then "True" else "False"
    case JInt(i) => IntToString(i)
    case JString(s) => ReprString(s)
    case JArray(xs) =>
      "[" + Join(", ", seq(|xs|, k requires 0 <= k < |xs| => Repr(xs[k]))) + "]"
    case JObject(fs) =>
      "{" + Join(", ", seq(|fs|, k requires 0 <= k < |fs| => ReprString(fs[k].0) + ": " + Repr(fs[k].1))) + "}"
  }

  /** Python `str(v)`: a string is itself, anything else its `repr`. */
  function PyStr(j: Json): (r: string)
    ensures j.JString? ==> r == j.s
  {
    if j.JString? then j.s else Repr(j)
  }
}
