/** The values json.load produces, and what Python's str() makes of them when they are
    spliced into text with an f-string. */
module Json {
  import Text

  /** A parsed JSON value. Objects are keyed by name (their insertion order is not kept). */
  datatype Value =
    | Null
    | Bool(b: bool)
    | Int(i: int)
    | Str(s: string)
    | Array(items: seq<Value>)
    | Object(fields: map<string, Value>)

  datatype Option<T> = None | Some(value: T)

  /** The outcome of opening a file and running json.load on it. */
  datatype FileRead =
    | Unreadable(reason: string)   // open() or json.load raised; reason is the exception's text
    | Parsed(value: Value)

  /** str(v), which is also what f"{v}" inserts: None, True/False, decimal digits, the text
      itself; a list or an object is shown as a placeholder rather than by Python's repr. */
  function PyStr(v: Value): string {
    match v
    case Null => "None"
    case Bool(b) => if b then "True" else "False"
    case Int(i) => Text.IntToDecimal(i)
    case Str(s) => s
    case Array(_) => "[...]"
    case Object(_) => "{...}"
  }

  /** type(v).__name__ */
  function TypeName(v: Value): string {
    match v
    case Null => "NoneType"
    case Bool(_) => "bool"
    case Int(_) => "int"
    case Str(_) => "str"
    case Array(_) => "list"
    case Object(_) => "dict"
  }

  /** d.get(key, default) */
  function GetOr(fields: map<string, Value>, key: string, default: Value): Value {
    if key in fields then fields[key] else default
  }
}
