/**
 * The Python objects a decoded JSON document is made of, and the few Python
 * built-ins the resort validator applies to them: truth value, hashability,
 * `dict.get`, `float()`, `int()`, `str.replace` and `datetime.fromisoformat`.
 * Parsing of text (by `float`, `int` and `fromisoformat`) and the text that
 * `datetime.isoformat` produces are not modelled; they are supplied as a
 * `Builtins` value of total functions.
 */
module PyValues {
  import opened Wrappers

  /** A JSON value as `json.load` hands it to Python. */
  datatype Value =
    | Null                              // None
    | Bool(b: bool)
    | Int(i: int)
    | Float(x: real)                    // a finite float
    | Str(s: string)
    | List(items: seq<Value>)
    | Dict(fields: map<string, Value>)

  /** One resort record: a JSON object. */
  type Record = map<string, Value>

  /** The exceptions that escape the validator. */
  datatype Exception = TypeError(message: string) | RuntimeError(message: string)

  /** A `datetime`: naive, or aware with an offset from UTC; both in whole seconds. */
  datatype DateTime = Naive(seconds: int) | Aware(seconds: int, utcOffset: int)

  /** The parsers and the formatter that the model leaves abstract. */
  datatype Builtins = Builtins(
    floatOfText: string -> Option<real>,        // float(s) for a str s; None when it raises
    intOfText: string -> Option<int>,           // int(s) for a str s; None when it raises
    fromIsoFormat: string -> Option<DateTime>,  // datetime.fromisoformat(s); None when it raises
    isoFormat: DateTime -> string)              // datetime.isoformat()

  /** `dict.get(key, default)`. */
  function Get(r: Record, key: string, default: Value): Value
  {
    if key in r then r[key] else default
  }

  /** Python's truth value of an object (`bool(v)`). */
  predicate Truthy(v: Value)
  {
    match v
    case Null => false
    case Bool(b) => b
    case Int(i) => i != 0
    case Float(x) => x != 0.0
    case Str(s) => s != ""
    case List(items) => items != []
    case Dict(fields) => fields != map[]
  }

  /** Lists and dicts cannot be hashed, so `v in some_set` raises TypeError for them. */
  predicate Hashable(v: Value)
  {
    !v.List? && !v.Dict?
  }

  /** `int(x)` for a finite float: truncation toward zero. */
  function TruncateTowardZero(x: real): (n: int)
    ensures 0.0 <= x ==> n as real <= x < n as real + 1.0
    ensures x < 0.0 ==> n as real - 1.0 < x <= n as real
  {
    if 0.0 <= x then x.Floor else -((-x).Floor)
  }

  /** `float(v)`; None where Python raises (None, a list, a dict, the empty string, unparsable text). */
  function ToFloat(v: Value, b: Builtins): Option<real>
  {
    match v
    case Null => None
    case Bool(t) => Some(if t then 1.0 else 0.0)
    case Int(i) => Some(i as real)
    case Float(x) => Some(x)
    case Str(s) => if s == "" then None else b.floatOfText(s)
    case List(_) => None
    case Dict(_) => None
  }

  /** `int(v)`; None where Python raises (None, a list, a dict, the empty string, unparsable text). */
  function ToInt(v: Value, b: Builtins): Option<int>
  {
    match v
    case Null => None
    case Bool(t) => Some(if t then 1 else 0)
    case Int(i) => Some(i)
    case Float(x) => Some(TruncateTowardZero(x))
    case Str(s) => if s == "" then None else b.intOfText(s)
    case List(_) => None
    case Dict(_) => None
  }

  /**
   * `s.replace(c, "")` for a one-character `c`: every occurrence goes and the
   * other characters keep their counts; that they also keep their order is
   * `RemoveAllAppend` (removal works part by part).
   */
  function RemoveAll(s: string, c: char): (r: string)
    ensures c !in r
    ensures forall x :: x != c ==> multiset(r)[x] == multiset(s)[x]
    ensures |r| == |s| - multiset(s)[c]
  {
    if s == [] then []
    else if s[0] == c then
      assert s == [s[0]] + s[1..];
      RemoveAll(s[1..], c)
    else
      assert s == [s[0]] + s[1..];
      [s[0]] + RemoveAll(s[1..], c)
  }

  /** `datetime.fromisoformat(s)`: the empty string is never a valid date. */
  function FromIsoFormat(s: string, b: Builtins): Option<DateTime>
  {
    if s == "" then None else b.fromIsoFormat(s)
  }

  /** Removing a character from a concatenation removes it from each part. */
  lemma {:induction false} RemoveAllAppend(s: string, t: string, c: char)
    ensures RemoveAll(s + t, c) == RemoveAll(s, c) + RemoveAll(t, c)
  {
    if s != [] {
      assert (s + t)[1..] == s[1..] + t;
      RemoveAllAppend(s[1..], t, c);
    } else {
      assert s + t == t;
    }
  }

  /** An occurrence of the removed character, wherever it stands, makes no difference. */
  lemma RemoveAllSkips(prefix: string, suffix: string, c: char)
    ensures RemoveAll(prefix + [c] + suffix, c) == RemoveAll(prefix + suffix, c)
  {
    var tail := [c] + suffix;
    assert tail[0] == c && tail[1..] == suffix;
    assert RemoveAll(tail, c) == RemoveAll(suffix, c);
    assert prefix + [c] + suffix == prefix + tail;
    RemoveAllAppend(prefix, tail, c);
    RemoveAllAppend(prefix, suffix, c);
  }
}
