/** The two directions of routing: which probes run a check (probe.go), answered from the route of
    the check, and which checks run on a probe (endpoint.go), answered from the indexes. */
module Routing {
  import opened Model
  import opened Database

  // ---------------------------------------------------------------- forward: from the route

  predicate Tagged(t: Tables, org: int, p: int, tags: set<string>) {
    exists tag :: tag in tags && ProbeTag(org, p, tag) in t.probeTags
  }

  /** Listed ids are taken as they are; tags are looked up among the live probes, in the org of the check. */
  function ProbesFor(t: Tables, c: Check): set<int> {
    match c.route
    case ByTags(tags) => set p | p in t.probes && Tagged(t, c.orgId, p, Elements(tags))
    case ByIds(ids) => Elements(ids)
    case UnknownRoute => {}
  }

  method GetProbesForCheck(db: Database, c: Check) returns (r: Result<seq<int>>)
    ensures r.Failure? <==> c.route.UnknownRoute?
    ensures r.Success? ==> Elements(r.value) == ProbesFor(db.tables, c)
  {
    var probes: seq<int> := [];
    match c.route
    case ByTags(tags) =>
      var rest := set p | p in db.tables.probes && Tagged(db.tables, c.orgId, p, Elements(tags));
      while rest != {}
        invariant Elements(probes) + rest == ProbesFor(db.tables, c)
        decreases rest
      {
        var p := Pick(rest);
        probes := probes + [p];
        rest := rest - {p};
      }
      r := Success(probes);
    case ByIds(ids) =>
      for i := 0 to |ids|
        invariant probes == ids[..i]
      {
        probes := probes + [ids[i]];
      }
      r := Success(probes);
    case UnknownRoute =>
      r := Failure(Invalid);
  }

  // ---------------------------------------------------------------- backward: from the indexes

  /** Some row of the tag index of check k matches a tag row of probe p, org included. */
  predicate RoutedByTag(t: Tables, p: int, k: int) {
    exists r :: r in t.tagIndex && r.checkId == k && ProbeTag(r.orgId, p, r.tag) in t.probeTags
  }

  /** Check k is enabled and the indexes route it to probe p. */
  predicate RunsOn(t: Tables, p: int, k: int) {
    && k in t.checks && t.checks[k].enabled
    && (IdRow(k, p) in t.idIndex || RoutedByTag(t, p, k))
  }

  function SlugOf(t: Tables, c: Check): string {
    if c.endpointId in t.endpoints then t.endpoints[c.endpointId].slug else ""
  }

  /** getProbeChecksWithEndpointSlug. */
  method GetProbeChecks(db: Database, p: int) returns (checks: seq<CheckWithSlug>)
    requires Valid(db.tables)
    ensures forall cs :: cs in checks <==>
              RunsOn(db.tables, p, cs.check.id)
                  && cs == CheckWithSlug(db.tables.checks[cs.check.id], SlugOf(db.tables, cs.check))
    ensures forall i, j :: 0 <= i < j < |checks| ==> checks[i].check.id != checks[j].check.id
  {
    ghost var t := db.tables;
    var byId := set r | r in db.tables.idIndex && r.probeId == p && r.checkId in db.tables.checks
                        && db.tables.checks[r.checkId].enabled :: r.checkId;
    var byTag := set r | r in db.tables.tagIndex && ProbeTag(r.orgId, p, r.tag) in db.tables.probeTags :: r.checkId;
    var rest := set k | k in byId + byTag && k in db.tables.checks && db.tables.checks[k].enabled;
    assert rest == Running(t, p) by {
      forall k | RunsOn(t, p, k)
        ensures k in rest
      {
        if IdRow(k, p) in t.idIndex {
          assert k in byId;
        } else {
          var r :| r in t.tagIndex && r.checkId == k && ProbeTag(r.orgId, p, r.tag) in t.probeTags;
          assert k in byTag;
        }
      }
    }
    checks := ReadRows(db, rest);
  }

  ghost function Running(t: Tables, p: int): set<int> {
    set k | k in t.checks && RunsOn(t, p, k)
  }

  /** The rows of some checks, each with the slug of its endpoint, in any order. */
  method ReadRows(db: Database, all: set<int>) returns (checks: seq<CheckWithSlug>)
    requires Valid(db.tables) && all <= db.tables.checks.Keys
    ensures forall cs :: cs in checks <==>
              cs.check.id in all && cs == CheckWithSlug(db.tables.checks[cs.check.id], SlugOf(db.tables, cs.check))
    ensures forall i, j :: 0 <= i < j < |checks| ==> checks[i].check.id != checks[j].check.id
  {
    ghost var t := db.tables;
    var rest := all;
    checks := [];
    while rest != {}
      invariant rest <= all
      invariant forall cs :: cs in checks ==> cs.check.id in all - rest
      invariant forall k :: k in all - rest ==> CheckWithSlug(t.checks[k], SlugOf(t, t.checks[k])) in checks
      invariant forall cs :: cs in checks ==> cs == CheckWithSlug(t.checks[cs.check.id], SlugOf(t, cs.check))
      invariant forall i, j :: 0 <= i < j < |checks| ==> checks[i].check.id != checks[j].check.id
      decreases rest
    {
      var k := Pick(rest);
      rest := rest - {k};
      assert CheckKeyed(t, k);
      // the join with endpoints loses nothing: every check has its endpoint
      var c := db.tables.checks[k];
      checks := checks + [CheckWithSlug(c, db.tables.endpoints[c.endpointId].slug)];
    }
  }

  // ---------------------------------------------------------------- the two agree

  /** For a live probe and an enabled check, the route lists the probe exactly when the indexes
      list the check: for both kinds of route, whatever the orgs whose tags the probe carries. */
  lemma Duality(t: Tables, p: int, k: int)
    requires Valid(t) && p in t.probes && k in t.checks && t.checks[k].enabled
    ensures RunsOn(t, p, k) <==> p in ProbesFor(t, t.checks[k])
  {
    var c := t.checks[k];
    assert CheckKeyed(t, k);
    match c.route
    case ByIds(ids) =>
      assert !Gone(t, p);
      if IdRow(k, p) in t.idIndex {
        assert p in RouteIds(c.route);
      }
      if p in ids {
        assert IdRow(k, p) in t.idIndex;
      }
    case ByTags(tags) =>
      if p in ProbesFor(t, c) {
        var tag :| tag in Elements(tags) && ProbeTag(c.orgId, p, tag) in t.probeTags;
        assert TagRow(c.orgId, k, tag) in t.tagIndex;
      }
      if RunsOn(t, p, k) {
        assert IdRow(k, p) !in t.idIndex;
        var r :| r in t.tagIndex && r.checkId == k && ProbeTag(r.orgId, p, r.tag) in t.probeTags;
        assert r.tag in Elements(tags);
      }
  }
}
