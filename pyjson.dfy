/**
 The decoded JSON body of a Maps response (the text after the five-character prefix),
 and the Python operations the decoder applies to it. Each operation that can raise
 in Python returns None in that case, so that callers can tell a skipped entry from a
 value.
 */
module PyJson {
  import opened Wrappers
  import opened PyText

  /** A JSON value. Numbers are integers; the payload carries no objects that the core reads. */
  datatype Json = JNull | JBool(b: bool) | JNum(n: int) | JStr(s: string) | JArr(items: seq<Json>)

  /** Python truthiness: None, False, 0, "" and [] are false. */
  predicate Truthy(j: Json) {
    match j
    case JNull => false
    case JBool(b) => b
    case JNum(n) => n != 0
    case JStr(s) => s != ""
    case JArr(xs) => xs != []
  }

  /** `len(j)`; None is the TypeError raised for a value without a length. */
  function Len(j: Json): (r: Option<nat>)
    ensures r.Some? <==> j.JStr? || j.JArr?
  {
    match j
    case JStr(s) => Some(|s|)
    case JArr(xs) => Some(|xs|)
    case _ => None
  }

  /** `j[i]` for a non-negative index: a list element or a one-character string;
      None is the IndexError or TypeError. */
  function At(j: Json, i: nat): (r: Option<Json>)
    ensures r.Some? <==> Len(j).Some? && i < Len(j).value
  {
    match j
    case JStr(s) => if i < |s| then Some(JStr([s[i]])) else None
    case JArr(xs) => if i < |xs| then Some(xs[i]) else None
    case _ => None
  }

  /** `isinstance(j, (int, float))`; a bool is an int in Python. */
  predicate IsNumber(j: Json) {
    j.JNum? || j.JBool?
  }

  /** The integer a number stands for (`True` is 1). */
  function NumValue(j: Json): int
    requires IsNumber(j)
  {
    if j.JNum? then j.n else if j.b then 1 else 0
  }

  /** What `for x in j` visits: the items of a list, the characters of a string;
      None is the TypeError for a value that cannot be iterated. */
  function Iterate(j: Json): (r: Option<seq<Json>>)
    ensures Len(j).Some? ==> r.Some? && |r.value| == Len(j).value
    ensures Len(j).None? ==> r.None?
  {
    match j
    case JStr(s) => Some(seq(|s|, i requires 0 <= i < |s| => JStr([s[i]])))
    case JArr(xs) => Some(xs)
    case _ => None
  }

  /** `a + b`: addition of numbers, concatenation of two strings or of two lists;
      None is the TypeError for any other pair. */
  function Add(a: Json, b: Json): Option<Json> {
    if IsNumber(a) && IsNumber(b) then Some(JNum(NumValue(a) + NumValue(b)))
    else if a.JStr? && b.JStr? then Some(JStr(a.s + b.s))
    else if a.JArr? && b.JArr? then Some(JArr(a.items + b.items))
    else None
  }

  /** Whether a value can be a dictionary key (a list cannot). */
  predicate Hashable(j: Json) {
    !j.JArr?
  }

  /** `str(j)`. */
  function Str(j: Json): string {
    if j.JStr? then j.s else Repr(j)
  }

  /** `repr(j)`, with strings in single quotes (escaping inside strings is not reproduced). */
  function Repr(j: Json): string {
    match j
    case JNull => "None"
    case JBool(b) => if b then "True" else "False"
    case JNum(n) => IntToString(n)
    case JStr(s) => "'" + s + "'"
    case JArr(xs) => "[" + Join(seq(|xs|, i requires 0 <= i < |xs| => Repr(xs[i]))) + "]"
  }

  /** `", ".join(parts)`. */
  function Join(parts: seq<string>): string {
    if parts == [] then ""
    else if |parts| == 1 then parts[0]
    else parts[0] + ", " + Join(parts[1..])
  }

  /** The Python idiom `x if x else ""`. */
  function OrEmpty(j: Json): (r: Json)
    ensures Truthy(j) ==> r == j
    ensures !Truthy(j) ==> r == JStr("")
  {
    if Truthy(j) then j else JStr("")
  }

  /** `data[k][m]` when `data` is a list longer than `k` whose item `k` is a list longer than `m`;
      this is the guard `len(data) > k and data[k] and isinstance(data[k], list) and len(data[k]) > m`. */
  function Slot(data: Json, k: nat, m: nat): (r: Option<Json>)
    ensures r.Some? <==> data.JArr? && k < |data.items| && data.items[k].JArr? && m < |data.items[k].items|
  {
    if data.JArr? && k < |data.items| && data.items[k].JArr? && m < |data.items[k].items|
    then Some(data.items[k].items[m])
    else None
  }
}
