/**
 * The tail of `get_spotify_access_token`: what it makes of the decoded body
 * of the refresh-token exchange.
 */
module Tokens {
  import opened Wrappers
  import opened Json
  import opened GoReflect

  /** The access token in a token-endpoint response, or how the process dies:
      any decoding error is fatal (an empty body included), a body that is not
      an object fails the map assertion, a null or missing `access_token`
      exits with status 1, and a non-string one fails the string assertion. */
  function AccessToken(body: ParseResult): (r: Result<string, Fatal>)
    ensures !body.Parsed? ==> r == Err(ParseFailure)
    ensures body.Parsed? && !body.doc.JObject? ==> r == Err(TypeAssertion)
    ensures body.Parsed? && body.doc.JObject? && Lookup(body.doc.fields, "access_token") == JNull
            ==> r == Err(NullField)
    ensures (body.Parsed? && body.doc.JObject? && !Lookup(body.doc.fields, "access_token").JNull?
             && !Lookup(body.doc.fields, "access_token").JString?) ==> r == Err(TypeAssertion)
    ensures r.Ok? <==> body.Parsed? && StringAt(body.doc, "access_token").Some?
    ensures r.Ok? ==> body.doc.fields["access_token"] == JString(r.value)
  {
    match body
    case UnexpectedEnd => Err(ParseFailure)
    case SyntaxError => Err(ParseFailure)
    case Parsed(doc) =>
      if !doc.JObject? then Err(TypeAssertion)
      else
        var token := Lookup(doc.fields, "access_token");
        if IsNil(FromJson(token)) then Err(NullField)
        else if token.JString? then Ok(token.s)
        else Err(TypeAssertion)
  }

  /** Whatever else the response holds, a string `access_token` is returned as is. */
  lemma AccessTokenReturned(fields: map<string, Json>, token: string)
    ensures AccessToken(Parsed(JObject(fields["access_token" := JString(token)]))) == Ok(token)
  {
  }
}
