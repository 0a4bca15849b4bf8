/**
 * The few `str()` forms that the hash keys of the identity model are built
 * from: booleans, `None`, strings inside a container, lists of strings and
 * `(key, value)` pairs.
 */
module PyText {
  import opened Wrappers

  /** `str(b)` for a bool. */
  function BoolStr(b: bool): (r: string)
    ensures r == "True" || r == "False"
    ensures (r == "True") == b
  {
    if b then "True" else "False"
  }

  /** `repr(s)` of a string: shown between single quotes (escaping is not modelled). */
  function Quoted(s: string): (r: string)
    ensures |r| == |s| + 2 && r[0] == '\'' && r[|r| - 1] == '\'' && r[1..|r| - 1] == s
  {
    "'" + s + "'"
  }

  /** `repr(v)` of an optional string: `None` or the quoted string. */
  function OptionRepr(v: Option<string>): (r: string)
    ensures v.None? <==> r == "None"
  {
    match v
    case None => "None"
    case Some(s) => Quoted(s)
  }

  /** The elements' reprs joined with `", "`. */
  function JoinReprs(xs: seq<string>): string {
    if xs == [] then ""
    else if |xs| == 1 then Quoted(xs[0])
    else Quoted(xs[0]) + ", " + JoinReprs(xs[1..])
  }

  /** `str(xs)` for a list of strings, e.g. `['Elf', 'Dwarf']`. */
  function ListStr(xs: seq<string>): (r: string)
    ensures |r| >= 2 && r[0] == '[' && r[|r| - 1] == ']'
  {
    "[" + JoinReprs(xs) + "]"
  }

  /** `str(v)` for an attribute that holds either `None` or a list of strings. */
  function OptionListStr(v: Option<seq<string>>): (r: string)
    ensures v.None? <==> r == "None"
  {
    match v
    case None => "None"
    case Some(xs) => ListStr(xs)
  }

  /** `str((key, value))` for a `__dict__` item, given `repr(value)`. */
  function ItemStr(key: string, valueRepr: string): (r: string)
    ensures |r| >= 2 && r[0] == '(' && r[|r| - 1] == ')'
  {
    "(" + Quoted(key) + ", " + valueRepr + ")"
  }

  /** `''.join(parts)`. */
  function Concat(parts: seq<string>): (r: string)
    ensures |parts| == 0 ==> r == ""
  {
    if parts == [] then "" else parts[0] + Concat(parts[1..])
  }
}
