/** What the bot sees of an HTTP exchange. The transport itself (reqwest) is
    outside the model: a request's outcome is supplied by the environment. */
module Http {
  import opened Errors
  import opened Json
  import opened Wrappers

  /** A response body as `response.json()` yields it: JSON, or the error
      raised while reading or parsing it. */
  datatype Payload = Parsed(value: Json) | Malformed(error: Cause)

  /** A request either never gets a response (`send()` fails) or gets one. */
  datatype Reply = Unreachable(error: Cause) | Responded(status: nat, body: Payload)

  /** `StatusCode::is_success`: 200 to 299. */
  predicate IsSuccess(status: nat) {
    200 <= status <= 299
  }

  /** The error serde reports when a JSON value does not have the shape of the
      Rust type named `typeName`. */
  function DecodeError(typeName: string): Cause {
    Leaf("invalid JSON for " + typeName)
  }

  /** The outcome of `response.json::<T>()` or `serde_json::from_value::<T>`. */
  datatype Decoded<+T> = Decoded(value: T) | Undecodable(error: Cause)

  /** Reads a body as the Rust type `typeName`, whose serde shape `decode` checks. */
  function DecodeAs<T>(body: Payload, decode: Json -> Option<T>, typeName: string): (r: Decoded<T>)
    ensures r.Decoded? <==> body.Parsed? && decode(body.value).Some?
    ensures r.Decoded? ==> r.value == decode(body.value).value
    ensures body.Malformed? ==> r == Undecodable(body.error)
  {
    match body
    case Malformed(e) => Undecodable(e)
    case Parsed(j) =>
      match decode(j)
      case Some(v) => Decoded(v)
      case None => Undecodable(DecodeError(typeName))
  }
}
