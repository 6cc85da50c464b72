/** Downtime bookkeeping: closing a trailing open incident, appending a new
    one and keeping only the most recent incidents. */
module Downtime {
  import opened Types

  /** Go's `d.Round(time.Second)`: to the nearest whole second, halfway
      cases away from zero (saturation at the int64 range is not modelled). */
  function RoundToSecond(d: int): (r: int)
    ensures r % SECOND == 0
    ensures -SECOND <= 2 * (r - d) <= SECOND
    ensures d >= 0 ==> r >= 0
    ensures d <= 0 ==> r <= 0
    // a halfway case is rounded away from zero
    ensures 2 * (r - d) == SECOND ==> d > 0
    ensures 2 * (r - d) == -SECOND ==> d < 0
  {
    if d < 0 then (var up: int := RoundHalfUp(-d); -up) else RoundHalfUp(d)
  }

  /** Rounds a non-negative duration to the nearest whole second, halves going up. */
  function RoundHalfUp(x: nat): (r: nat)
    ensures r % SECOND == 0
    ensures -SECOND < 2 * (r - x) <= SECOND
    ensures 2 * (r - x) == SECOND ==> x > 0
  {
    var rem := x % SECOND;
    if rem + rem < SECOND then x - rem else x + SECOND - rem
  }

  /** Every incident but possibly the last is closed. */
  predicate OnlyLastOngoing(log: seq<DowntimeRecord>) {
    forall i :: 0 <= i < |log| - 1 ==> log[i].duration.Closed?
  }

  /** The incident `d`, closed at `now` with its elapsed time. */
  function Close(d: DowntimeRecord, now: Time): DowntimeRecord {
    d.(duration := Closed(RoundToSecond(now - d.timestamp)))
  }

  /** Closes the last incident if it is still ongoing. */
  function CloseTrailing(log: seq<DowntimeRecord>, now: Time): seq<DowntimeRecord> {
    if |log| > 0 && log[|log| - 1].duration.Ongoing? then log[|log| - 1 := Close(log[|log| - 1], now)]
    else log
  }

  /** The last `n` entries of `log` (all of it when it is shorter). */
  function KeepLast(log: seq<DowntimeRecord>, n: nat): seq<DowntimeRecord> {
    if |log| > n then log[|log| - n..] else log
  }

  /** The downtime log after a check that opened `incident` (None for a
      successful probe). */
  function Record(log: seq<DowntimeRecord>, incident: Option<DowntimeRecord>, now: Time): seq<DowntimeRecord> {
    match incident
    case None => log
    case Some(d) => KeepLast(CloseTrailing(log, now) + [d], MAX_RECENT_DOWNTIME)
  }

  /** The step-by-step bookkeeping of a check: close a trailing ongoing incident,
      append the new one and keep the last five. */
  method RecordIncident(log: seq<DowntimeRecord>, incident: Option<DowntimeRecord>, now: Time)
    returns (updated: seq<DowntimeRecord>)
    ensures updated == Record(log, incident, now)
  {
    updated := log;
    if incident.Some? {
      if |updated| > 0 {
        var last := updated[|updated| - 1];
        if last.duration == Ongoing {
          updated := updated[|updated| - 1 := last.(duration := Closed(RoundToSecond(now - last.timestamp)))];
        }
      }
      updated := updated + [incident.value];
      if |updated| > MAX_RECENT_DOWNTIME {
        updated := updated[|updated| - MAX_RECENT_DOWNTIME..];
      }
    }
  }

  /** Closing the trailing incident changes no entry but the last, and the last
      only when it was ongoing. */
  lemma CloseTrailingSpec(log: seq<DowntimeRecord>, now: Time)
    ensures |CloseTrailing(log, now)| == |log|
    ensures forall i :: 0 <= i < |log| - 1 ==> CloseTrailing(log, now)[i] == log[i]
    ensures |log| > 0 ==>
      CloseTrailing(log, now)[|log| - 1]
      == if log[|log| - 1].duration.Ongoing? then Close(log[|log| - 1], now) else log[|log| - 1]
    ensures |log| > 0 ==> CloseTrailing(log, now)[|log| - 1].duration.Closed?
  {
  }

  /** A failing check leaves min(|log| + 1, 5) incidents, so a log of at most
      five entries stays within five. */
  lemma RecordLength(log: seq<DowntimeRecord>, d: DowntimeRecord, now: Time)
    ensures |Record(log, Some(d), now)| == if |log| + 1 > MAX_RECENT_DOWNTIME then MAX_RECENT_DOWNTIME else |log| + 1
  {
  }

  /** On overflow the result is exactly the last five of the closed log
      followed by the new incident: the oldest entries are dropped first. */
  lemma RecordOverflow(log: seq<DowntimeRecord>, d: DowntimeRecord, now: Time)
    requires |log| >= MAX_RECENT_DOWNTIME
    ensures var r := Record(log, Some(d), now);
      && r == (CloseTrailing(log, now) + [d])[|log| + 1 - MAX_RECENT_DOWNTIME..]
      && r[MAX_RECENT_DOWNTIME - 1] == d
      && r[..MAX_RECENT_DOWNTIME - 1] == CloseTrailing(log, now)[|log| + 1 - MAX_RECENT_DOWNTIME..]
  {
  }

  /** A failing check ends the log with the new incident, preceded by the
      previous last incident, closed with its elapsed time if it was ongoing. */
  lemma RecordClosesPrevious(log: seq<DowntimeRecord>, d: DowntimeRecord, now: Time)
    requires |log| > 0
    ensures var r := Record(log, Some(d), now);
      && |r| >= 2 && r[|r| - 1] == d
      && r[|r| - 2] == if log[|log| - 1].duration.Ongoing? then Close(log[|log| - 1], now) else log[|log| - 1]
  {
  }

  /** Closing, appending and trimming keep "only the last incident may be ongoing". */
  lemma RecordKeepsOnlyLastOngoing(log: seq<DowntimeRecord>, incident: Option<DowntimeRecord>, now: Time)
    requires OnlyLastOngoing(log)
    ensures OnlyLastOngoing(Record(log, incident, now))
    ensures incident.Some? ==> Record(log, incident, now)[|Record(log, incident, now)| - 1] == incident.value
  {
  }
}
