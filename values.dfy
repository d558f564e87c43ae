/** Python values as the mapper handles them: what an instance field can
    hold, what a converter returns, and the exceptions those steps raise. */
module Values {
  import opened Wrappers
  import Numerals

  /** A field value: None, a bool, an int, a (byte or unicode) string, or a
      list (tuples are lists here). */
  datatype Value = Null | Bool(b: bool) | Int(i: int) | Str(s: string) | List(items: seq<Value>)

  /** The exceptions the mapper lets through. NoSuchObject is the directory's
      answer for a DN it does not hold. */
  datatype Error = KeyError(key: string) | IndexError | ValueError | TypeError | AttributeError | NoSuchObject

  type PyResult<T> = Result<T, Error>

  /** Python truthiness: what `if v`, `v and ...` and `not v` test. */
  predicate Truthy(v: Value) {
    match v
    case Null => false
    case Bool(b) => b
    case Int(i) => i != 0
    case Str(s) => s != ""
    case List(items) => items != []
  }

  function JoinComma(parts: seq<string>): string {
    if |parts| == 0 then "" else if |parts| == 1 then parts[0] else parts[0] + ", " + JoinComma(parts[1..])
  }

  /** repr(v). A string is shown between single quotes; Python's choice of
      quote and its escapes are not modelled. */
  function Repr(v: Value): string {
    match v
    case Null => "None"
    case Bool(b) => if b then "True" else "False"
    case Int(i) => Numerals.FormatInt(i)
    case Str(s) => "'" + s + "'"
    case List(items) => "[" + JoinComma(seq(|items|, k requires 0 <= k < |items| => Repr(items[k]))) + "]"
  }

  /** str(v): as repr, except that a string is itself. */
  function PyStr(v: Value): (r: string)
    ensures v.Str? ==> r == v.s
    ensures v.Int? ==> r == Numerals.FormatInt(v.i)
  {
    if v.Str? then v.s else Repr(v)
  }

  /** str() of an int is text that int() reads back as that int, and str()
      of a string is the string, so str() then int() is the identity on
      ints and on decimal strings. */
  lemma PyStrRoundTrip(v: Value)
    ensures v.Str? ==> PyStr(v) == v.s
    ensures v.Int? ==> PyInt(Str(PyStr(v))) == Ok(v.i)
  {
    if v.Int? {
      Numerals.ParseFormat(v.i);
    }
  }

  /** int(v). A string that is not decimal raises ValueError; None and lists
      raise TypeError. */
  function PyInt(v: Value): PyResult<int> {
    match v
    case Null => Err(TypeError)
    case Bool(b) => Ok(if b then 1 else 0)
    case Int(i) => Ok(i)
    case Str(s) =>
      var n := Numerals.ParseInt(s);
      if n.Some? then Ok(n.value) else Err(ValueError)
    case List(_) => Err(TypeError)
  }

  /** The items `for x in v` visits: a list's elements or a string's
      characters; anything else raises TypeError. */
  function Iterate(v: Value): (r: PyResult<seq<Value>>)
    ensures v.List? ==> r == Ok(v.items)
    ensures v.Str? ==> r.Ok? && |r.value| == |v.s| && forall k :: 0 <= k < |v.s| ==> r.value[k] == Str([v.s[k]])
    ensures r.Ok? <==> v.List? || v.Str?
  {
    match v
    case List(items) => Ok(items)
    case Str(s) => Ok(seq(|s|, k requires 0 <= k < |s| => Str([s[k]])))
    case _ => Err(TypeError)
  }
}
