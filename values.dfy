/** The shapes of the data the client receives: decoded JSON values, the
    person records the API sends, and the Python exceptions the client can
    raise, modelled as values. */
module Values {
  import opened Wrappers
  import opened Text

  /** A decoded JSON document (numbers other than integers are not modelled). */
  datatype Json =
    | JNull
    | JBool(b: bool)
    | JInt(i: int)
    | JStr(s: string)
    | JArr(items: seq<Json>)
    | JObj(fields: map<string, Json>)

  /** Python truthiness of a decoded JSON value. */
  predicate Truthy(v: Json)
  {
    match v
    case JNull => false
    case JBool(b) => b
    case JInt(i) => i != 0
    case JStr(s) => s != ""
    case JArr(items) => items != []
    case JObj(fields) => fields != map[]
  }

  /** Truthiness of an optional string argument: neither None nor "". */
  predicate Given(o: Option<string>)
  {
    o.Some? && o.value != ""
  }

  /** What the client lets escape to its caller, named after the Python exception. */
  datatype Failure =
    | KeyError(key: string)
    | AttributeError(name: string)
    | TypeError
    | ValueError
    | IndexError
    | StopIteration
    | AssertionError
    | RecursionError
    | SyntaxError
    | Raised(message: string)

  /** Python's `int(v)` on a decoded JSON value (decimal strings of ASCII digits only). */
  function IntOf(v: Json): (r: Result<int, Failure>)
  {
    match v
    case JInt(i) => Success(i)
    case JBool(b) => Success(if b then 1 else 0)
    case JStr(s) => if s != "" && IsDigits(s) then Success(DecimalValue(s)) else Failure(ValueError)
    case _ => Failure(TypeError)
  }

  /** `int()` reads back what `str()` wrote, and an integer code sent as text
      reads the same as the integer. */
  lemma IntOfDecimalString(n: nat)
    ensures IntOf(JStr(DecimalString(n))) == IntOf(JInt(n)) == Success(n)
  {
    DecimalRoundTrip(n);
  }

  /** A person entry as the API sends it; JSON null in a name field is read as "". */
  datatype RawPerson = RawPerson(
    id: string,
    preferredName: string,
    firstname: string,
    middleName: string,
    lastname: string,
    email: string)
}
