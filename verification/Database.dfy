/** The tables behind the API, their unique indexes, and the sessions that change them. */
module Database {
  import opened Model

  datatype Endpoint = Endpoint(id: int, orgId: int, name: string, slug: string, created: Time, updated: Time)

  datatype EndpointTag = EndpointTag(orgId: int, endpointId: int, tag: string)

  datatype IdRow = IdRow(checkId: int, probeId: int)

  datatype TagRow = TagRow(orgId: int, checkId: int, tag: string)

  datatype Probe = Probe(
    id: int,
    orgId: int,
    name: string,
    slug: string,
    latitude: real,
    longitude: real,
    public: bool,
    enabled: bool,
    enabledChange: Time,
    online: bool,
    onlineChange: Time,
    created: Time,
    updated: Time)

  datatype ProbeTag = ProbeTag(orgId: int, probeId: int, tag: string)

  /** Everything stored. The next... fields are the auto-increment counters: an id below its
      counter has been issued and is never issued again. */
  datatype Tables = Tables(
    endpoints: map<int, Endpoint>,
    endpointTags: set<EndpointTag>,
    checks: map<int, Check>,
    idIndex: set<IdRow>,      // route_by_id_index
    tagIndex: set<TagRow>,    // route_by_tag_index
    probes: map<int, Probe>,
    probeTags: set<ProbeTag>,
    sessions: map<int, ProbeSession>,
    nextEndpoint: int,
    nextCheck: int,
    nextProbe: int,
    nextSession: int)

  // ---------------------------------------------------------------- invariants

  /** Probe p existed once and was deleted. */
  ghost predicate Gone(t: Tables, p: int) {
    0 < p < t.nextProbe && p !in t.probes
  }

  ghost predicate EndpointsKeyed(t: Tables) {
    && (forall i :: i in t.endpoints ==> 0 < i < t.nextEndpoint && t.endpoints[i].id == i)
    && (forall r :: r in t.endpointTags ==>
          r.endpointId in t.endpoints && r.orgId == t.endpoints[r.endpointId].orgId)
  }

  ghost predicate ProbesKeyed(t: Tables) {
    forall p :: p in t.probes ==> 0 < p < t.nextProbe && t.probes[p].id == p
  }

  /** A check row carries its key, belongs to an endpoint of the same org, has a known route, and is
      scheduled at the offset its endpoint gives it. */
  ghost predicate CheckKeyed(t: Tables, k: int)
    requires k in t.checks
  {
    var c := t.checks[k];
    && c.id == k && 0 < k < t.nextCheck
    && c.endpointId in t.endpoints && t.endpoints[c.endpointId].orgId == c.orgId
    && !c.route.UnknownRoute?
    && c.offset == c.endpointId % c.frequency
  }

  ghost predicate SameSlot(c: Check, d: Check) {
    c.endpointId == d.endpointId && c.kind == d.kind
  }

  ghost predicate ChecksKeyed(t: Tables) {
    && (forall k :: k in t.checks ==> CheckKeyed(t, k))
    && (forall k, l :: k in t.checks && l in t.checks && SameSlot(t.checks[k], t.checks[l]) ==> k == l)
  }

  /** The rows of the id index mirror the routes: no row without its route entry, and no entry
      without its row unless the probe was deleted. */
  ghost predicate IdIndexMirrors(t: Tables) {
    && (forall r :: r in t.idIndex ==> r.checkId in t.checks && r.probeId in RouteIds(t.checks[r.checkId].route))
    && (forall k, p :: k in t.checks && p in RouteIds(t.checks[k].route) && !Gone(t, p) ==> IdRow(k, p) in t.idIndex)
  }

  /** The rows of the tag index are exactly the tags of the routes, under the org of the check. */
  ghost predicate TagIndexMirrors(t: Tables) {
    && (forall r :: r in t.tagIndex ==>
          && r.checkId in t.checks
          && r.tag in RouteTags(t.checks[r.checkId].route)
          && r.orgId == t.checks[r.checkId].orgId)
    && (forall k, tag :: k in t.checks && tag in RouteTags(t.checks[k].route) ==>
          TagRow(t.checks[k].orgId, k, tag) in t.tagIndex)
  }

  ghost predicate Valid(t: Tables) {
    && EndpointsKeyed(t)
    && ProbesKeyed(t)
    && ChecksKeyed(t)
    && IdIndexMirrors(t)
    && TagIndexMirrors(t)
    && 0 < t.nextEndpoint && 0 < t.nextCheck && 0 < t.nextProbe
  }

  /** Every table empty, every counter at its start. */
  function NoRows(): Tables {
    Tables(map[], {}, map[], {}, {}, map[], {}, map[], 1, 1, 1, 1)
  }

  // ---------------------------------------------------------------- the live database

  /** The database together with the wall clock every time.Now() reads. */
  class Database {
    var tables: Tables
    var now: Time

    /** Freshly migrated: every table empty, every counter at its start. */
    constructor ()
      ensures tables == NoRows()
    {
      tables := NoRows();
      now := *;
    }

    /** time.Now(): the clock may have moved on since the last reading, never back. */
    method Now() returns (t: Time)
      modifies this`now
      ensures t == now >= old(now)
    {
      var reading: Time := *;
      if now < reading {
        now := reading;
      }
      t := now;
    }
  }

  /** A transaction: what it wrote stays only if the commit in Complete succeeded. */
  class Session {
    const db: Database
    const begun: Tables
    var complete: bool

    constructor (db: Database)
      ensures this.db == db && begun == db.tables && !complete
    {
      this.db := db;
      begun := db.tables;
      complete := false;
    }

    /** Commits. Nobody is told when the commit fails. */
    method Complete(commits: bool)
      modifies this
      ensures complete == (old(complete) || commits)
    {
      if commits {
        complete := true;
      }
    }

    /** Rolls back unless the commit succeeded. */
    method Cleanup()
      modifies db`tables
      ensures db.tables == if complete then old(db.tables) else begun
    {
      if !complete {
        db.tables := begun;
      }
    }
  }
}
