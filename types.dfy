/** The entities of the uptime monitor: endpoints, probe records, downtime
    incidents and the per-endpoint status aggregate. */
module Types {

  datatype Option<+T> = None | Some(value: T)

  /** Instants and durations count nanoseconds, the unit of Go's time.Duration. */
  type Time = int

  const SECOND: int := 1_000_000_000
  const HOUR: int := 3600 * SECOND
  /** How long check records are retained in an endpoint's history (historyWindow). */
  const HISTORY_WINDOW: int := 10 * HOUR
  /** How many downtime incidents an endpoint keeps. */
  const MAX_RECENT_DOWNTIME: nat := 5

  const UP: string := "UP"
  const DOWN: string := "DOWN"
  const PENDING: string := "Pending"

  /** A named target URL; the name is the registry key. */
  datatype Endpoint = Endpoint(name: string, url: string)

  /** Go keeps the duration as the string "ongoing" or a formatted elapsed time;
      here a closed incident keeps the elapsed nanoseconds, rounded to the second. */
  datatype Duration = Ongoing | Closed(elapsed: int)

  datatype DowntimeRecord = DowntimeRecord(timestamp: Time, duration: Duration, reason: string)

  /** One probe outcome. As in Go, `statusCode == 0` and `error == ""` mean "not set".
      The response time is carried along but never computed with. */
  datatype StatusRecord = StatusRecord(
    timestamp: Time,
    isUp: bool,
    responseTime: real,
    statusCode: int,
    error: string)

  /** The status of one endpoint: both sequences are ordered oldest first. */
  datatype EndpointStatus = EndpointStatus(
    name: string,
    url: string,
    currentStatus: string,
    lastChecked: Time,
    history: seq<StatusRecord>,
    recentDowntime: seq<DowntimeRecord>)
}
