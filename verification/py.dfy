/** The few pieces of Python's object model that the job tools rely on:
    JSON-like values held in dictionaries, `dict.get`, the exception a failing
    call raises, `str.strip` and `str.startswith`. */
module Py {

  datatype Option<+T> = None | Some(value: T)

  /** A call that either returns a value or raises an exception with a message. */
  datatype Result<+T> = Ok(value: T) | Raise(error: string)

  /** A Python object as it travels through the tools' dictionaries.
      `Null` is Python's `None`. Floating-point numbers are not modelled. */
  datatype Value =
    | Null
    | Bool(b: bool)
    | Int(i: int)
    | Str(s: string)
    | List(items: seq<Value>)
    | Dict(entries: map<string, Value>)

  /** `d.get(key)`: the value under `key`, or `None` when the key is absent. */
  function DictGet(d: map<string, Value>, key: string): (v: Value)
    ensures key in d ==> v == d[key]
    ensures key !in d ==> v == Null
  {
    if key in d then d[key] else Null
  }

  /** The name `type(v).__name__` gives, as it appears in exception messages. */
  function TypeName(v: Value): string
  {
    match v
    case Null => "NoneType"
    case Bool(_) => "bool"
    case Int(_) => "int"
    case Str(_) => "str"
    case List(_) => "list"
    case Dict(_) => "dict"
  }

  /** The message of the AttributeError raised by `v.get(...)` on a non-dictionary. */
  function NoGetMessage(v: Value): string
  {
    "'" + TypeName(v) + "' object has no attribute 'get'"
  }

  /** The characters for which Python's `str.isspace()` holds. */
  predicate IsSpace(c: char)
  {
    || ('\t' <= c <= '\r')
    || ('\U{1C}' <= c <= '\U{1F}')
    || c == ' '
    || c == '\U{85}'
    || c == '\U{A0}'
    || c == '\U{1680}'
    || ('\U{2000}' <= c <= '\U{200A}')
    || c == '\U{2028}'
    || c == '\U{2029}'
    || c == '\U{202F}'
    || c == '\U{205F}'
    || c == '\U{3000}'
  }

  /** True when every character of `s` is whitespace (the empty string included). */
  predicate IsBlank(s: string)
  {
    forall i :: 0 <= i < |s| ==> IsSpace(s[i])
  }

  /** The number of whitespace characters at the start of `s`. */
  function LeadingBlanks(s: string): (n: nat)
    ensures n <= |s|
    ensures forall i :: 0 <= i < n ==> IsSpace(s[i])
    ensures n < |s| ==> !IsSpace(s[n])
  {
    if s != [] && IsSpace(s[0]) then 1 + LeadingBlanks(s[1..]) else 0
  }

  /** `s.lstrip()`: `s` without its leading whitespace. */
  function StripLeading(s: string): (r: string)
    ensures |r| <= |s| && r == s[|s| - |r|..]
    ensures IsBlank(s[..|s| - |r|])
    ensures r != [] ==> !IsSpace(r[0])
    ensures r == [] <==> IsBlank(s)
  {
    var n := LeadingBlanks(s);
    assert n < |s| ==> !IsBlank(s);
    s[n..]
  }

  /** `s.rstrip()`: `s` without its trailing whitespace. */
  function StripTrailing(s: string): (r: string)
    ensures |r| <= |s| && r == s[..|r|]
    ensures IsBlank(s[|r|..])
    ensures r != [] ==> !IsSpace(r[|r| - 1])
    ensures r == [] <==> IsBlank(s)
  {
    if s != [] && IsSpace(s[|s| - 1]) then
      var r := StripTrailing(s[..|s| - 1]);
      assert s[|r|..] == s[..|s| - 1][|r|..] + [s[|s| - 1]];
      assert s == s[..|s| - 1] + [s[|s| - 1]];
      r
    else
      s
  }

  /** `s.strip()`; it leaves nothing exactly when `s` is all whitespace. */
  function Strip(s: string): (r: string)
    ensures |r| <= |s|
    ensures r == [] <==> IsBlank(s)
  {
    StripTrailing(StripLeading(s))
  }

  /** `s.startswith(prefix)`. */
  predicate StartsWith(s: string, prefix: string)
  {
    |prefix| <= |s| && s[..|prefix|] == prefix
  }
}
