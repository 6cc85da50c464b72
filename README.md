# Uptime monitor: status-tracking engine

A Dafny model of the engine of a small HTTP uptime monitor written in Go.
The monitor keeps a registry of endpoints (name and URL) and a status store.
Both are maps keyed by endpoint name.
Each status holds the current state (`UP`, `DOWN` or `Pending`), the time of the last check, a history of check records pruned to a 10-hour window, and the five most recent downtime incidents.
A probe outcome is either a transport error or an HTTP status code.
It is classified into a check record and, when the probe failed, a new "ongoing" incident.
Applying that result updates the status: it records the check, closes a still-ongoing previous incident, appends the new one, trims the log to five entries and prunes the history.

Modules, leaves first:

- `Types` (types.dfy): the entities and the constants (10-hour window, five incidents).
  Instants and durations are integers counting nanoseconds.
- `Format` (format.dfy): `%d` rendering of an integer, and a parser that accepts exactly those renderings and undoes them.
- `Probe` (probe.dfy): `StatusString` (Go's `getStatusString`) and `Classify`.
- `History` (history.dfy): the retention filter `Retained`, the filtering loop `RetainAfter`, and lemmas on both.
- `Downtime` (downtime.dfy): Go's `Duration.Round(time.Second)`, closing the trailing incident, appending and trimming.
- `Check` (check.dfy): the effect of one check on one status as the pure function `Updated` (and `Step` = classify, then update).
  Also the invariant `WellFormed` and the lemmas the monitor promises.
- `Engine` (engine.dfy): class `Monitor` with the two maps.
  `Register` and `ApplyCheck` each stand for one write-locked region of the Go code, and `CopyRegistry` for the read-locked copy.
  `CheckEndpoint` is the unlocked classification followed by the locked `ApplyCheck`.
  `CheckAll` is the copy followed by one `CheckEndpoint` per copied endpoint; the model runs that pass as one uninterrupted call.
  `Valid()` is the class invariant:
  - both maps have the same keys;
  - every entry is stored under its own name and a status carries its endpoint's URL;
  - every status is well formed: at most five incidents, only the last one may be ongoing, and `Pending` only with empty history and log.

Behaviour of the code that the model keeps:

- History pruning keeps records strictly newer than the cutoff `now - 10h` (`Time.After`).
- The status store and the registry always have exactly the same names, because registration writes both.
- A successful probe never closes an ongoing incident.
  That incident stays ongoing until the next failing probe closes it (`Check.StepSuccessKeepsDowntime`).

## Model

| member | source | states |
|---|---|---|
| Format.NatString | main.go:193 | a canonical digit string: non-empty, all digits, no leading zero, and "0" exactly for zero |
| Format.NatStringValue | main.go:193 | the digits of `NatString(n)` denote `n` |
| Format.IntString | main.go:193 | a minus sign exactly for negative numbers, canonical digits after it with no leading zero, and "0" exactly for zero |
| Format.IntStringRoundTrip | main.go:193 | parsing the `%d` rendering of any integer gives that integer back |
| Format.ParseIntOnlyRenderings | main.go:193 | every string the parser accepts is the `%d` rendering of the number it yields, so parser and rendering are mutually inverse |
| Format.IntStringInjective | main.go:193 | distinct integers render as distinct strings |
| Probe.StatusString | main.go:232-237 | the string is "UP" exactly when the probe is up and "DOWN" exactly when it is down |
| Probe.HttpReason | main.go:190-194 | the reason is "HTTP Status " followed by a string the parser maps to the status code, which by `Format.ParseIntOnlyRenderings` is exactly its `%d` rendering |
| Probe.HttpReasonsDistinct | main.go:190-194 | two failing codes give equal reasons if and only if they are the same code |
| Probe.Classify | main.go:172-197 | a transport error is down, with its message as error and an ongoing incident naming it; a response is up iff its code is below 400; a code of 400 or more opens an ongoing incident "HTTP Status <code>"; an incident is opened iff the probe is down; timestamp and latency are kept |
| History.RetainAfter | main.go:219-227 | the filtering loop returns exactly `Retained(h, cutoff)`, and every kept record is strictly newer than the cutoff |
| History.RetainedMembers | main.go:221-226 | a record survives pruning iff it was in the history and is strictly newer than the cutoff |
| History.RetainedAppend | main.go:221-227 | pruning distributes over concatenation, so surviving records keep their order |
| History.RetainedSnoc | main.go:203-227 | pruning the history with the new record appended is the pruned old history, then the new record if it is inside the window |
| History.RetainedCompose | main.go:219-227 | pruning at one cutoff and then at another is pruning at the later cutoff |
| History.RetainedIdempotent | main.go:219-227 | pruning twice with the same cutoff equals pruning once |
| Downtime.RoundToSecond | main.go:209-210 | the closed duration is a whole number of seconds, within half a second of the elapsed time, keeps its sign, and a halfway case is rounded away from zero; this fixes the result uniquely |
| Downtime.RecordIncident | main.go:205-216 | the step-by-step close, append and trim of main.go:206-216 computes exactly `Record(log, incident, now)` |
| Downtime.CloseTrailingSpec | main.go:206-212 | closing keeps the log's length and every entry but the last; the last is closed with its elapsed time if it was ongoing, and is closed afterwards |
| Downtime.RecordLength | main.go:213-216 | after a failing check the log holds min(old length + 1, 5) incidents |
| Downtime.RecordOverflow | main.go:213-216 | on overflow the log is exactly the last five of (closed old log ++ [new]): the oldest are dropped first and the new incident is last |
| Downtime.RecordClosesPrevious | main.go:205-213 | after a failing check the new incident is last, preceded by the previous last incident, now closed with its elapsed time if it was ongoing |
| Downtime.RecordKeepsOnlyLastOngoing | main.go:205-216 | if only the last incident may be ongoing before, the same holds after closing, appending and trimming, and the new incident is last |
| Check.RegisteredWellFormed | main.go:114-121 | a fresh status is well formed: name and URL of the endpoint, Pending, checked at `now`, empty history and downtime |
| Check.UpdatedMirrorsCheck | main.go:201-202 | after a check, `lastChecked` is the record's timestamp, the status is UP iff the record is up and DOWN iff it is down; name and URL are unchanged |
| Check.UpdatedHistory | main.go:203-227 | the new history is the old history pruned, then the new record if inside the window; every record is strictly newer than `now - 10h`; pruning again changes nothing |
| Check.UpdatedWellFormed | main.go:199-228 | applying any check to a well-formed status keeps it well formed: at most five incidents and only the last ongoing |
| Check.StepSuccessKeepsDowntime | main.go:186-205 | a response below 400 makes the status UP and leaves the downtime log exactly as it was, a trailing ongoing incident included |
| Check.StepFailureOpensIncident | main.go:177-213 | a failing probe makes the status DOWN and ends the log with a new ongoing incident opened at `now`; the previous last incident is closed if it was ongoing |
| Check.StepFailureEvictsOldest | main.go:213-216 | a failing probe on a log of five keeps five: the old log minus its oldest entry, then the new incident |
| Check.StepKeepsNewestRecord | main.go:172-227 | with one clock reading per check, the new record is the last entry of the pruned history |
| Check.FirstFailureScenario | main.go:178-216 | a fresh endpoint whose first probe fails is DOWN, with one failed record carrying the error and one ongoing incident |
| Check.RecoveryScenario | main.go:186-227 | a next probe answered with 200 inside the window makes it UP with two records, the second up with code 200, and leaves the incident open |
| Engine.Monitor.constructor | main.go:45-47 | the monitor starts with empty registry and store, satisfying the invariant |
| Engine.Monitor.Register | main.go:112-121 | registration overwrites `endpoints[name]` and resets `status[name]` to Pending with empty history and downtime; other entries unchanged; invariant kept |
| Engine.Monitor.ApplyCheck | main.go:199-229 | the store becomes the old store with `name` mapped to `Updated(old status, ...)`, or is unchanged when `name` is absent; registry unchanged; status mirrors the record and history is inside the window; invariant kept |
| Engine.Monitor.CheckEndpoint | main.go:172-229 | classify the probe outcome, then apply it at the same instant: only the probed endpoint's status changes, to `Step(old, outcome, now)` |
| Engine.Monitor.CopyRegistry | main.go:151-156 | the loop's copy of the registry equals the registry |
| Engine.Monitor.CheckAll | main.go:150-161 | one scheduler pass applies `Step` exactly once to every endpoint's status; afterwards no endpoint is Pending |

## Left out

- HTTP routing, CORS headers, the dashboard template and JSON decoding/encoding (`main`, `handleCORS`, `serveDashboard`, the I/O parts of `handleEndpoint`, `getStatus`) are I/O glue.
  Reading the store is therefore not modelled as an operation.
- The HTTP GET itself, its 10-second timeout and closing the response body are network I/O.
  The probe outcome (`Probe.Outcome`) is an input; in `CheckAll` it is given by a function of the endpoint.
- The ticker loop of `monitorEndpoints`, the goroutines and the read/write mutex are concurrency.
  Each locked region is one atomic method of `Monitor`.
  The immediate check after registration is `CheckEndpoint` called by the client.
- Engine.Monitor.CheckAll: runs the whole pass atomically, but Go releases the lock between the copy and each check, and probes without the lock.
  So the model does not capture two effects of registration during a pass.
  An endpoint registered after the copy is still Pending when the pass ends.
  A name re-registered during the pass has its fresh Pending status overwritten by a check that probed its old URL.
- Clock reads: each check uses one `now` for the record, the incident, the closing and the pruning cutoff.
  Go reads the clock separately at each of these points.
  `CheckAll` uses one `now` for the whole pass.
- `ResponseTime` is a float in seconds; the model carries it as an opaque `real` and never computes it.
- Downtime.RoundToSecond: saturation of Go's `Duration.Round` at the 64-bit range is not modelled, and timestamps are unbounded integers.
  The closed duration is kept as elapsed nanoseconds, not formatted with `Duration.String()`.
- Each status is a value in the store map.
  Go stores a pointer per endpoint and mutates it in place.
  No pointer leaves the lock, so aliasing is not observable.
