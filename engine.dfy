/** The monitor's shared state: the endpoint registry and the status store,
    both keyed by endpoint name, and the operations that run under its lock. */
module Engine {
  import opened Types
  import opened Probe
  import opened History
  import opened Downtime
  import opened Check

  class Monitor {
    var endpoints: map<string, Endpoint>
    var status: map<string, EndpointStatus>

    /** Both maps have the same names; every entry is stored under its own
        name, a status carries its endpoint's URL, and every status is well formed. */
    ghost predicate Valid()
      reads this
    {
      && status.Keys == endpoints.Keys
      && (forall n :: n in endpoints ==> endpoints[n].name == n)
      && (forall n :: n in status ==> status[n].name == n && status[n].url == endpoints[n].url)
      && (forall n :: n in status ==> WellFormed(status[n]))
    }

    constructor ()
      ensures Valid()
      ensures endpoints == map[] && status == map[]
    {
      endpoints := map[];
      status := map[];
    }

    /** Registers `e`, replacing any endpoint of the same name, and resets its
        status to Pending with no history and no downtime. */
    method Register(e: Endpoint, now: Time)
      requires Valid()
      modifies this
      ensures Valid()
      ensures endpoints == old(endpoints)[e.name := e]
      ensures status == old(status)[e.name := Registered(e, now)]
    {
      endpoints := endpoints[e.name := e];
      status := status[e.name := EndpointStatus(e.name, e.url, PENDING, now, [], [])];
      RegisteredWellFormed(e, now);
    }

    /** Applies one check record and the incident it opened to the status of
        `name`; a name without a status is ignored. */
    method ApplyCheck(name: string, rec: StatusRecord, incident: Option<DowntimeRecord>, now: Time)
      requires Valid()
      modifies this
      ensures Valid()
      ensures endpoints == old(endpoints)
      ensures status == if name in old(status) then old(status)[name := Updated(old(status)[name], rec, incident, now)]
                        else old(status)
      ensures name in status ==>
        && status[name].lastChecked == rec.timestamp
        && status[name].currentStatus == StatusString(rec.isUp)
        && forall i :: 0 <= i < |status[name].history| ==> status[name].history[i].timestamp > now - HISTORY_WINDOW
    {
      if name in status {
        var s := status[name];
        ghost var before := s;
        s := s.(lastChecked := rec.timestamp, currentStatus := StatusString(rec.isUp));
        s := s.(history := s.history + [rec]);
        var log := RecordIncident(s.recentDowntime, incident, now);
        s := s.(recentDowntime := log);
        var cutoff := now - HISTORY_WINDOW;
        var kept := RetainAfter(s.history, cutoff);
        assert kept == Retained(before.history + [rec], now - HISTORY_WINDOW);
        s := s.(history := kept);
        assert s == Updated(before, rec, incident, now);
        UpdatedWellFormed(before, rec, incident, now);
        status := status[name := s];
      }
    }

    /** Probes `endpoint` (its outcome given) and applies the classified result
        under the same clock reading. */
    method CheckEndpoint(endpoint: Endpoint, outcome: Outcome, now: Time)
      requires Valid()
      modifies this
      ensures Valid()
      ensures endpoints == old(endpoints)
      ensures status == if endpoint.name in old(status) then old(status)[endpoint.name := Step(old(status)[endpoint.name], outcome, now)]
                        else old(status)
    {
      var c := Classify(outcome, now);
      ApplyCheck(endpoint.name, c.record, c.downtime, now);
    }

    /** The scheduler's copy of the registry, filled entry by entry. */
    method CopyRegistry() returns (copy: map<string, Endpoint>)
      ensures copy == endpoints
    {
      copy := map[];
      var todo := endpoints.Keys;
      while todo != {}
        invariant todo <= endpoints.Keys
        invariant copy.Keys == endpoints.Keys - todo
        invariant forall n :: n in copy ==> copy[n] == endpoints[n]
        decreases todo
      {
        var n :| n in todo;
        copy := copy[n := endpoints[n]];
        todo := todo - {n};
      }
    }

    /** One scheduler pass: every registered endpoint is probed once (`probe`
        gives each outcome) and its result applied; afterwards no endpoint is
        Pending. */
    method CheckAll(probe: Endpoint -> Outcome, now: Time)
      requires Valid()
      modifies this
      ensures Valid()
      ensures endpoints == old(endpoints)
      ensures status.Keys == old(status).Keys
      ensures forall n :: n in status ==> status[n] == Step(old(status)[n], probe(endpoints[n]), now)
      ensures forall n :: n in status ==> status[n].currentStatus == UP || status[n].currentStatus == DOWN
    {
      var copy := CopyRegistry();
      var todo := copy.Keys;
      while todo != {}
        invariant Valid()
        invariant endpoints == old(endpoints) && copy == endpoints
        invariant todo <= status.Keys && status.Keys == old(status).Keys
        invariant forall n :: n in todo ==> status[n] == old(status)[n]
        invariant forall n :: n in status && n !in todo ==> status[n] == Step(old(status)[n], probe(endpoints[n]), now)
        decreases todo
      {
        var n :| n in todo;
        CheckEndpoint(copy[n], probe(copy[n]), now);
        todo := todo - {n};
      }
      forall n | n in status
        ensures status[n].currentStatus == UP || status[n].currentStatus == DOWN
      {
        var c := Classify(probe(endpoints[n]), now);
        UpdatedMirrorsCheck(old(status)[n], c.record, c.downtime, now);
      }
    }
  }
}
