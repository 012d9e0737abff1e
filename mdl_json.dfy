/**
 * What encoding/json hands to a custom UnmarshalJSON of the Moodle API client
 * (apps/sms-api/internal/mdlapi): nil data, or one JSON token. The decoding of
 * the raw bytes themselves is not modelled; a syntax error is `Malformed`.
 */
module MdlJson {
  import opened Wrappers

  datatype JsonInput =
    | NilData
    | Malformed(message: string)
    | JNull
    | JString(s: string)
    | JNumber(n: int)

  /** json.Unmarshal into a Go string: null leaves the zero value "", a number is a type error. */
  function AsString(d: JsonInput): (r: Result<string, string>)
    requires !d.NilData?
    ensures d.JString? ==> r == Ok(d.s)
    ensures d.JNull? ==> r == Ok("")
    ensures r.Err? <==> (d.Malformed? || d.JNumber?)
  {
    match d
    case Malformed(m) => Err(m)
    case JNull => Ok("")
    case JString(s) => Ok(s)
    case JNumber(_) => Err("json: cannot unmarshal number into Go value of type string")
  }

  /** json.Unmarshal into a Go int: null leaves the zero value 0, a string is a type error. */
  function AsInt(d: JsonInput): (r: Result<int, string>)
    requires !d.NilData?
    ensures d.JNumber? ==> r == Ok(d.n)
    ensures d.JNull? ==> r == Ok(0)
    ensures r.Err? <==> (d.Malformed? || d.JString?)
  {
    match d
    case Malformed(m) => Err(m)
    case JNull => Ok(0)
    case JString(_) => Err("json: cannot unmarshal string into Go value of type int")
    case JNumber(n) => Ok(n)
  }

  /** The receiver after an UnmarshalJSON call, and the error it returned. */
  datatype Decoded<T> = Decoded(value: T, error: Option<string>)
}
