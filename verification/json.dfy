/** The values `json.load` produces, seen as the Python objects the scraper
    then inspects. */
module Json {

  /** A parsed JSON document: `None`, `bool`, `int`, `str`, `list` or `dict`. */
  datatype Value =
    | Null
    | Bool(b: bool)
    | Num(n: int)
    | Str(s: string)
    | Arr(items: seq<Value>)
    | Obj(fields: map<string, Value>)

  /** Python truthiness: `None`, `False`, `0` and empty strings, lists and
      dicts are false, everything else is true. */
  predicate Truthy(v: Value)
  {
    match v
    case Null => false
    case Bool(b) => b
    case Num(n) => n != 0
    case Str(s) => s != ""
    case Arr(items) => |items| > 0
    case Obj(fields) => |fields| > 0
  }

  /** Lists and dicts cannot be dictionary keys in Python. */
  predicate Hashable(v: Value)
  {
    !v.Arr? && !v.Obj?
  }

  /** The Python type name, as it appears in interpreter error messages. */
  function TypeName(v: Value): string
  {
    match v
    case Null => "NoneType"
    case Bool(_) => "bool"
    case Num(_) => "int"
    case Str(_) => "str"
    case Arr(_) => "list"
    case Obj(_) => "dict"
  }

  /** Python's `d.get(key)`: `None` when the key is absent, so an absent key
      and a key holding JSON `null` look the same. */
  function Get(fields: map<string, Value>, key: string): (v: Value)
    ensures key in fields ==> v == fields[key]
    ensures key !in fields ==> v == Null
  {
    if key in fields then fields[key] else Null
  }
}
