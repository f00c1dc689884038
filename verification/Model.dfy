/** The entities of worldPing that pass between its packages: checks and their routes,
    endpoints, probes, probe sessions, and the events published about endpoints. */
module Model {

  datatype Option<+T> = None | Some(value: T)

  /** The three ways a store operation can be refused. */
  datatype Error =
    | NotFound     // the row addressed by the request does not exist for that org
    | Invalid      // the request contradicts the stored data, or carries an unknown route type
    | Constraint   // a unique index of the table refuses a row

  datatype Result<+T> = Success(value: T) | Failure(error: Error)

  /** Instants and durations, in nanoseconds. */
  type Time = int

  const SECOND: Time := 1_000_000_000

  /** Seconds between two runs of a check. */
  type Frequency = n: int | n >= 1 witness 1

  datatype CheckType = Http | Https | Dns | Ping

  datatype EvalResult = EvalOk | EvalWarn | EvalCritical | EvalUnknown

  /** Which probes run a check: those carrying one of the tags, or those listed. */
  datatype Route = ByTags(tags: seq<string>) | ByIds(ids: seq<int>) | UnknownRoute

  datatype HealthSettings = HealthSettings(numProbes: int, steps: int)

  datatype Check = Check(
    id: nat,
    orgId: int,
    endpointId: int,
    route: Route,
    kind: CheckType,
    frequency: Frequency,
    offset: int,
    enabled: bool,
    state: EvalResult,
    stateChange: Time,
    stateCheck: Time,
    settings: string,
    health: Option<HealthSettings>,
    created: Time,
    updated: Time)

  datatype CheckWithSlug = CheckWithSlug(check: Check, slug: string)

  /** An endpoint as the API exchanges it: the row with its checks and tags. */
  datatype EndpointDTO = EndpointDTO(
    id: int,
    orgId: int,
    name: string,
    slug: string,
    checks: seq<Check>,
    tags: seq<string>,
    created: Time,
    updated: Time)

  datatype EndpointUpdated = EndpointUpdated(last: EndpointDTO, current: EndpointDTO)

  datatype ProbeDTO = ProbeDTO(
    id: int,
    orgId: int,
    name: string,
    slug: string,
    latitude: real,
    longitude: real,
    tags: seq<string>,
    public: bool,
    enabled: bool,
    enabledChange: Time)

  datatype ProbeSession = ProbeSession(
    id: int,
    orgId: int,
    probeId: int,
    socketId: string,
    instanceId: string,
    remoteIp: string,
    updated: Time)

  function Elements<T>(s: seq<T>): set<T> {
    set x | x in s
  }

  predicate NoRepeats<T(==)>(s: seq<T>) {
    forall i, j :: 0 <= i < j < |s| ==> s[i] != s[j]
  }

  function RouteIds(r: Route): set<int> {
    if r.ByIds? then Elements(r.ids) else {}
  }

  function RouteTags(r: Route): set<string> {
    if r.ByTags? then Elements(r.tags) else {}
  }

  /** An element in whatever order the Go runtime ranges over a map. */
  method Pick<T(==)>(s: set<T>) returns (x: T)
    requires s != {}
    ensures x in s
  {
    x :| x in s;
  }
}
