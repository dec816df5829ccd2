/**
 * What a `requests` call hands back to the tool, as plain data: either a reply
 * with a status code and a body that `response.json()` may or may not decode,
 * or an exception raised by the transport (timeout, refused connection, other).
 */
module Http {

  datatype Body<+T> = Decoded(value: T) | Undecodable(reason: string)

  datatype TransportKind = Timeout | ConnectionFailed | OtherTransport

  datatype Response<+T> =
    | Reply(status: nat, body: Body<T>)
    | TransportFailure(kind: TransportKind, reason: string)
}
