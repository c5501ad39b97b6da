/** What a webhook call can answer and how the executor classifies it. */
module Webhook {
  import opened Options
  import IsoFormat

  /** Status codes have three digits (section 15 of RFC 9110). */
  type HttpStatus = n | 100 <= n <= 999 witness 200

  /** The two outcomes of `http_client.get`: some status code, or no response at all. */
  datatype Reply = Response(status: HttpStatus) | RequestError(reason: string)

  datatype Outcome = Outcome(httpStatus: Option<int>, errorMessage: Option<string>, success: bool)

  /** What every outcome of a call satisfies. */
  predicate GoodOutcome(o: Outcome) {
    && (o.success ==> o.httpStatus.Some?)
    && (o.httpStatus.Some? ==> 100 <= o.httpStatus.value <= 999)
  }

  datatype Source = Scheduled | Manual

  /** The three digits of a status code. */
  predicate ReadsAs(code: string, status: int) {
    |code| == 3 && IsoFormat.AllDigits(code) && IsoFormat.Number(code) == status
  }

  lemma StatusIsRead(status: HttpStatus)
    ensures ReadsAs(IsoFormat.Pad(status, 3), status)
  {
    IsoFormat.Powers();
    IsoFormat.NumberOfPad(status, 3);
  }

  /** `fire_task_webhook`: `raise_for_status` lets exactly the 2xx codes through; the error text quotes
      the code, or the failure when there was no response. */
  function FireTaskWebhook(reply: Reply): (o: Outcome)
    ensures o.success <==> reply.Response? && 200 <= reply.status < 300
    ensures GoodOutcome(o)
    ensures o.errorMessage.None? <==> o.success
    ensures o.httpStatus == if reply.Response? then Some(reply.status) else None
    ensures reply.Response? && !o.success ==>
      exists code :: o.errorMessage == Some("Webhook returned " + code) && ReadsAs(code, reply.status)
    ensures reply.RequestError? ==> o.errorMessage == Some("Webhook request failed: " + reply.reason)
  {
    match reply
    case Response(status) =>
      StatusIsRead(status);
      if 200 <= status < 300 then Outcome(Some(status), None, true)
      else Outcome(Some(status), Some("Webhook returned " + IsoFormat.Pad(status, 3)), false)
    case RequestError(reason) => Outcome(None, Some("Webhook request failed: " + reason), false)
  }
}
