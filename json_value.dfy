/**
 * Values as `json.loads` returns them, and the dictionary lookups the
 * services make on a parsed reply. Parsing itself is a library call and
 * stays abstract: a reply is handed to a `parse` function that either
 * yields a value or reports the position and message of a decode error.
 */
module JsonValue {
  import opened ContextData

  /** Numbers are integers here; objects are maps, so their key order is not kept. */
  datatype Json =
    | JNull
    | JBool(b: bool)
    | JNum(n: int)
    | JStr(s: string)
    | JArr(items: seq<Json>)
    | JObj(fields: map<string, Json>)

  /** What `json.loads` does with a text: a value, or a `JSONDecodeError`. */
  datatype ParseOutcome = Parsed(value: Json) | DecodeError(pos: nat, message: string)

  /** `d.get(key, default)` */
  function Get(fields: map<string, Json>, key: string, default: Json): Json {
    if key in fields then fields[key] else default
  }

  /** Python's truth value of a JSON value. */
  predicate Truthy(j: Json) {
    match j
    case JNull => false
    case JBool(b) => b
    case JNum(n) => n != 0
    case JStr(s) => s != []
    case JArr(items) => items != []
    case JObj(fields) => fields != map[]
  }

  /** The name of the Python type a value decodes to. */
  function TypeName(j: Json): string {
    match j
    case JNull => "NoneType"
    case JBool(_) => "bool"
    case JNum(_) => "int"
    case JStr(_) => "str"
    case JArr(_) => "list"
    case JObj(_) => "dict"
  }

  /** The message of the `AttributeError` raised by `.get` on a value that is not an object. */
  function NoGetMessage(j: Json): string {
    "'" + TypeName(j) + "' object has no attribute 'get'"
  }

  /** The message of the `TypeError` raised by `str.join` on a non-string item. */
  function JoinTypeError(index: nat, j: Json): string {
    "sequence item " + NatToString(index) + ": expected str instance, " + TypeName(j) + " found"
  }
}
