/** The parsed JSON values that arrive as request bodies. */
module Json {

  /** A JSON value. Numbers are exact reals: floating-point rounding is not modelled. */
  datatype JValue =
    | JNull
    | JBool(b: bool)
    | JNum(n: real)
    | JStr(s: string)
    | JArr(items: seq<JValue>)
    | JObj(fields: map<string, JValue>)

  /** The name a schema validator reports for the type it received. */
  function TypeName(v: JValue): string
  {
    match v
    case JNull => "null"
    case JBool(_) => "boolean"
    case JNum(_) => "number"
    case JStr(_) => "string"
    case JArr(_) => "array"
    case JObj(_) => "object"
  }

  /** A number that JavaScript's Number.isInteger accepts. */
  predicate IsInteger(n: real)
  {
    n.Floor as real == n
  }
}
