/** Classification of one probe outcome into a check record and, for a
    failed probe, a newly opened downtime incident. */
module Probe {
  import opened Types
  import Format

  /** What the HTTP GET produced: a transport error with its message, or a
      response with its status code; both with the measured latency. */
  datatype Outcome =
    | TransportError(message: string, responseTime: real)
    | Response(statusCode: int, responseTime: real)

  datatype Classification = Classification(record: StatusRecord, downtime: Option<DowntimeRecord>)

  /** The status string shown for a probe result. */
  function StatusString(isUp: bool): (s: string)
    ensures s == UP <==> isUp
    ensures s == DOWN <==> !isUp
  {
    if isUp then UP else DOWN
  }

  /** The reason recorded for an HTTP status that counts as down. */
  function HttpReason(statusCode: int): (reason: string)
    ensures |reason| > 12 && reason[..12] == "HTTP Status " && Format.ParseInt(reason[12..]) == Some(statusCode)
  {
    Format.IntStringRoundTrip(statusCode);
    var reason := "HTTP Status " + Format.IntString(statusCode);
    assert reason[12..] == Format.IntString(statusCode);
    reason
  }

  function Classify(outcome: Outcome, now: Time): (c: Classification)
    ensures c.record.timestamp == now && c.record.responseTime == outcome.responseTime
    // a transport error is down, keeps its message and opens an incident named by it
    ensures outcome.TransportError? ==>
      && !c.record.isUp && c.record.error == outcome.message && c.record.statusCode == 0
      && c.downtime == Some(DowntimeRecord(now, Ongoing, outcome.message))
    // a response is up exactly when its code is below 400; one that is not opens an incident
    ensures outcome.Response? ==>
      && c.record.statusCode == outcome.statusCode && c.record.error == ""
      && (c.record.isUp <==> outcome.statusCode < 400)
      && (c.downtime.Some? <==> outcome.statusCode >= 400)
      && (c.downtime.Some? ==> c.downtime.value == DowntimeRecord(now, Ongoing, HttpReason(outcome.statusCode)))
    ensures c.downtime.Some? <==> !c.record.isUp
  {
    match outcome
    case TransportError(message, responseTime) =>
      Classification(StatusRecord(now, false, responseTime, 0, message),
                     Some(DowntimeRecord(now, Ongoing, message)))
    case Response(code, responseTime) =>
      var isUp := code < 400;
      Classification(StatusRecord(now, isUp, responseTime, code, ""),
                     if isUp then None else Some(DowntimeRecord(now, Ongoing, HttpReason(code))))
  }

  /** Two failing responses with different codes are told apart by their reasons. */
  lemma HttpReasonsDistinct(a: int, b: int)
    ensures HttpReason(a) == HttpReason(b) <==> a == b
  {
  }
}
