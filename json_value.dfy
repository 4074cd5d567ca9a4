/** The JSON values stored in metadata dictionaries, with Python's truthiness. */
module JsonValue {

  /**
   * A metadata value. Strings, integers, booleans and `null` are modelled;
   * floats, lists and nested objects are kept only as their Python `str()`
   * text and their truthiness, because nothing here looks inside them.
   */
  datatype Value =
    | Null
    | Bool(b: bool)
    | Int(i: int)
    | Str(s: string)
    | Other(text: string, truthy: bool)

  /** Python's `bool(v)`. */
  predicate Truthy(v: Value) {
    match v
    case Null => false
    case Bool(b) => b
    case Int(i) => i != 0
    case Str(s) => s != ""
    case Other(_, t) => t
  }

  type Metadata = map<string, Value>
}
