/**
 * The decoded form of a JSON body, as `json.Unmarshal` into an `interface{}`
 * produces it, and the ways in which the program dies.
 */
module Json {
  import opened Wrappers

  /** A decoded JSON value. Numbers are decoded as float64 by Go; the model only
      needs integral millisecond counts, so a number is an `int`. */
  datatype Json =
    | JNull
    | JBool(b: bool)
    | JNumber(n: int)
    | JString(s: string)
    | JArray(elems: seq<Json>)
    | JObject(fields: map<string, Json>)

  /** The outcome of `json.Unmarshal`: a document, the error whose text is
      "unexpected end of JSON input" (an empty or truncated body), or any other
      decoding error. */
  datatype ParseResult = Parsed(doc: Json) | UnexpectedEnd | SyntaxError

  /** How a fatal path ends the process. */
  datatype Fatal =
    | ParseFailure   // log.Fatal after a decoding error
    | NullField      // os.Exit(1) after the isNil check of a required field
    | TypeAssertion  // a failed type assertion: a runtime panic

  /** The process exit status of each fatal path: log.Fatal and os.Exit(1)
      exit with 1, an unrecovered panic with 2. */
  function ExitStatus(f: Fatal): (code: int)
    ensures code != 0
    ensures code == 2 <==> f == TypeAssertion
    ensures f != TypeAssertion ==> code == 1
  {
    match f
    case ParseFailure => 1
    case NullField => 1
    case TypeAssertion => 2
  }

  /** Indexing a decoded Go map: a missing key reads as nil, exactly like a
      JSON null, so the two cannot be told apart. */
  function Lookup(fields: map<string, Json>, key: string): Json
  {
    if key in fields then fields[key] else JNull
  }

  /** `j.(map[string]interface{})[key].(string)`: None where either type
      assertion would panic. */
  function StringAt(j: Json, key: string): Option<string>
  {
    if j.JObject? && Lookup(j.fields, key).JString? then Some(Lookup(j.fields, key).s) else None
  }
}
