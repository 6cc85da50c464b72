/** The effect of one check on one endpoint's status, as a function of the
    old status, and the properties the monitor promises about it. */
module Check {
  import opened Types
  import opened Probe
  import opened History
  import opened Downtime

  /** The status a (re-)registration installs. */
  function Registered(e: Endpoint, now: Time): EndpointStatus {
    EndpointStatus(e.name, e.url, PENDING, now, [], [])
  }

  /** The status after applying check record `rec` and the incident it opened,
      with history pruned against the instant `now`. */
  function Updated(s: EndpointStatus, rec: StatusRecord, incident: Option<DowntimeRecord>, now: Time): EndpointStatus {
    s.(lastChecked := rec.timestamp,
       currentStatus := StatusString(rec.isUp),
       history := Retained(s.history + [rec], now - HISTORY_WINDOW),
       recentDowntime := Record(s.recentDowntime, incident, now))
  }

  /** Classifying a probe outcome at `now` and applying it at the same instant. */
  function Step(s: EndpointStatus, outcome: Outcome, now: Time): EndpointStatus {
    var c := Classify(outcome, now);
    Updated(s, c.record, c.downtime, now)
  }

  /** What the monitor keeps true of every status it stores. */
  predicate WellFormed(s: EndpointStatus) {
    && (s.currentStatus == PENDING || s.currentStatus == UP || s.currentStatus == DOWN)
    && (s.currentStatus == PENDING ==> s.history == [] && s.recentDowntime == [])
    && |s.recentDowntime| <= MAX_RECENT_DOWNTIME
    && OnlyLastOngoing(s.recentDowntime)
  }

  lemma RegisteredWellFormed(e: Endpoint, now: Time)
    ensures var s := Registered(e, now);
      && WellFormed(s) && s.name == e.name && s.url == e.url && s.currentStatus == PENDING
      && s.lastChecked == now && s.history == [] && s.recentDowntime == []
  {
  }

  /** The status mirrors the last check; the endpoint's identity is untouched. */
  lemma UpdatedMirrorsCheck(s: EndpointStatus, rec: StatusRecord, incident: Option<DowntimeRecord>, now: Time)
    ensures var u := Updated(s, rec, incident, now);
      && u.lastChecked == rec.timestamp
      && (u.currentStatus == UP <==> rec.isUp)
      && (u.currentStatus == DOWN <==> !rec.isUp)
      && u.name == s.name && u.url == s.url
  {
  }

  /** The new history is the old one pruned, followed by the new record when it
      is inside the window; every record is newer than the cutoff, and pruning
      it again would change nothing. */
  lemma UpdatedHistory(s: EndpointStatus, rec: StatusRecord, incident: Option<DowntimeRecord>, now: Time)
    ensures var u := Updated(s, rec, incident, now);
      var cutoff := now - HISTORY_WINDOW;
      && u.history == Retained(s.history, cutoff) + (if rec.timestamp > cutoff then [rec] else [])
      && (forall i :: 0 <= i < |u.history| ==> u.history[i].timestamp > cutoff)
      && Retained(u.history, cutoff) == u.history
  {
    var cutoff := now - HISTORY_WINDOW;
    RetainedSnoc(s.history, rec, cutoff);
    RetainedMembers(s.history + [rec], cutoff);
    RetainedIdempotent(s.history + [rec], cutoff);
  }

  /** Applying a check keeps the status well formed. */
  lemma UpdatedWellFormed(s: EndpointStatus, rec: StatusRecord, incident: Option<DowntimeRecord>, now: Time)
    requires WellFormed(s)
    ensures WellFormed(Updated(s, rec, incident, now))
  {
  }

  /** A probe answered with a code below 400 marks the endpoint up and leaves
      the downtime log exactly as it was, a trailing ongoing incident included. */
  lemma StepSuccessKeepsDowntime(s: EndpointStatus, code: int, latency: real, now: Time)
    requires code < 400
    ensures var u := Step(s, Response(code, latency), now);
      && u.currentStatus == UP
      && u.recentDowntime == s.recentDowntime
  {
  }

  /** A failing probe marks the endpoint down and ends the log with a new
      ongoing incident opened at `now`; the incident that was last before is
      closed with its elapsed time if it was still ongoing. */
  lemma StepFailureOpensIncident(s: EndpointStatus, outcome: Outcome, now: Time)
    requires outcome.TransportError? || outcome.statusCode >= 400
    ensures var u := Step(s, outcome, now);
      var log := u.recentDowntime;
      && u.currentStatus == DOWN
      && |log| > 0 && log[|log| - 1] == Classify(outcome, now).downtime.value
      && log[|log| - 1].duration == Ongoing && log[|log| - 1].timestamp == now
      && (s.recentDowntime != [] ==>
            var last := s.recentDowntime[|s.recentDowntime| - 1];
            |log| >= 2 && log[|log| - 2] == if last.duration.Ongoing? then Close(last, now) else last)
  {
  }

  /** A failing probe on a status that already holds five incidents keeps five
      and drops the oldest. */
  lemma StepFailureEvictsOldest(s: EndpointStatus, outcome: Outcome, now: Time)
    requires outcome.TransportError? || outcome.statusCode >= 400
    requires |s.recentDowntime| == MAX_RECENT_DOWNTIME
    ensures var log := Step(s, outcome, now).recentDowntime;
      && |log| == MAX_RECENT_DOWNTIME
      && log[..MAX_RECENT_DOWNTIME - 1] == CloseTrailing(s.recentDowntime, now)[1..]
      && log[MAX_RECENT_DOWNTIME - 1] == Classify(outcome, now).downtime.value
  {
  }

  /** With one clock reading per check, the new record is kept as the last
      entry of the history. */
  lemma StepKeepsNewestRecord(s: EndpointStatus, outcome: Outcome, now: Time)
    ensures var h := Step(s, outcome, now).history;
      |h| > 0 && h[|h| - 1] == Classify(outcome, now).record
  {
  }

  /** A fresh endpoint whose first probe fails on a transport error is DOWN,
      with one failed record and one ongoing incident. */
  lemma FirstFailureScenario(e: Endpoint, message: string, latency: real, t0: Time, t1: Time)
    ensures var s := Step(Registered(e, t0), TransportError(message, latency), t1);
      && s.currentStatus == DOWN
      && |s.history| == 1 && !s.history[0].isUp && s.history[0].error == message
      && s.recentDowntime == [DowntimeRecord(t1, Ongoing, message)]
  {
    var s0 := Registered(e, t0);
    var c := Classify(TransportError(message, latency), t1);
    UpdatedHistory(s0, c.record, c.downtime, t1);
    assert Retained([], t1 - HISTORY_WINDOW) == [];
    assert Record([], c.downtime, t1) == [DowntimeRecord(t1, Ongoing, message)];
  }

  /** After that, a probe answered with 200 inside the window makes it UP with
      two records, the second up with code 200, and the incident left open. */
  lemma RecoveryScenario(s: EndpointStatus, latency: real, t2: Time)
    requires |s.history| == 1 && s.history[0].timestamp > t2 - HISTORY_WINDOW
    ensures var u := Step(s, Response(200, latency), t2);
      && u.currentStatus == UP
      && |u.history| == 2 && u.history[0] == s.history[0]
      && u.history[1].isUp && u.history[1].statusCode == 200
      && u.recentDowntime == s.recentDowntime
  {
    var c := Classify(Response(200, latency), t2);
    assert c == Classification(StatusRecord(t2, true, latency, 200, ""), None);
    assert Step(s, Response(200, latency), t2) == Updated(s, c.record, None, t2);
    UpdatedHistory(s, c.record, c.downtime, t2);
    var h := s.history;
    assert h[..0] == [];
    assert Retained(h, t2 - HISTORY_WINDOW) == h;
  }
}
