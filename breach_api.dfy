/**
 * `handle(r)` of the XposedOrNot CLI: the status line it prints and the payload it
 * passes on. Only a 200 reply yields a payload, `r.json()`; 404, 429 and every other
 * status print a notice and yield `None`. A transport exception is raised by
 * `requests` before `handle` runs, and an undecodable 200 body raises in `r.json()`.
 */
module BreachApi {
  import opened Optional
  import opened Http
  import opened PyJson

  /** The status line `handle` prints. */
  datatype Notice = Success | NotFound | RateLimited | OtherStatus(code: nat)

  function StatusNotice(status: nat): (n: Notice)
    ensures n == Success <==> status == 200
    ensures n == NotFound <==> status == 404
    ensures n == RateLimited <==> status == 429
    ensures n.OtherStatus? <==> status != 200 && status != 404 && status != 429
  {
    if status == 200 then Success
    else if status == 404 then NotFound
    else if status == 429 then RateLimited
    else OtherStatus(status)
  }

  /** `handle(requests.get(...))`: the payload, `None`, or an exception. */
  function Handle(r: Response<Json>): (p: Py<Option<Json>>)
    ensures p.Ok? && p.value.Some? <==> r.Reply? && r.status == 200 && r.body.Decoded?
    ensures p.Ok? && p.value.Some? ==> p.value.value == r.body.value
    ensures p.Raised? <==> r.TransportFailure? || (r.Reply? && r.status == 200 && r.body.Undecodable?)
  {
    match r
    case TransportFailure(_, _) => Raised
    case Reply(status, body) =>
      if status == 200 then
        match body
        case Decoded(v) => Ok(Some(v))
        case Undecodable(_) => Raised
      else Ok(None)
  }

  /**
   * `handle` gave `None`, or a payload that is falsy: each command then returns
   * without a verdict of its own.
   */
  predicate Silent(r: Response<Json>) {
    r.Reply? && (r.status != 200 || (r.body.Decoded? && !Truthy(r.body.value)))
  }

  /** Any status but 200 (404, 429, 5xx, ...) gives no payload, whatever the body. */
  lemma HandleWithoutPayload(status: nat, body: Body<Json>)
    requires status != 200
    ensures Handle(Reply(status, body)) == Ok(None)
    ensures StatusNotice(status) != Success
  {
  }
}
