/** Keeping the check table and its two routing indexes in step (endpoint.go). */
module RouteIndex {
  import opened Model
  import opened Database

  // ---------------------------------------------------------------- specification

  /** The id index once check k has been moved from the route entries before to those after. */
  function MoveIds(index: set<IdRow>, k: int, before: set<int>, after: set<int>): set<IdRow> {
    (set r | r in index && (r.checkId == k ==> r.probeId in after))
    + (set p | p in after - before :: IdRow(k, p))
  }

  /** Likewise for the tag index. */
  function MoveTags(index: set<TagRow>, k: int, org: int, before: set<string>, after: set<string>): set<TagRow> {
    (set r | r in index && (r.checkId == k ==> r.tag in after))
    + (set tag | tag in after - before :: TagRow(org, k, tag))
  }

  function StoredRoute(t: Tables, k: int): Route {
    if k in t.checks then t.checks[k].route else UnknownRoute
  }

  /** The tables with c stored as the row of check c.id and its index entries moved along. */
  function WithCheck(t: Tables, c: Check): Tables {
    var before := StoredRoute(t, c.id);
    t.(checks := t.checks[c.id := c],
       idIndex := MoveIds(t.idIndex, c.id, RouteIds(before), RouteIds(c.route)),
       tagIndex := MoveTags(t.tagIndex, c.id, c.orgId, RouteTags(before), RouteTags(c.route)),
       nextCheck := if t.nextCheck <= c.id then c.id + 1 else t.nextCheck)
  }

  /** The tables without check k and without its index entries. */
  function WithoutCheck(t: Tables, k: int): Tables {
    t.(checks := t.checks - {k},
       idIndex := MoveIds(t.idIndex, k, {}, {}),
       tagIndex := MoveTags(t.tagIndex, k, 0, {}, {}))
  }

  /** c may be stored: it belongs to an endpoint of its org, and no other check has its slot. */
  ghost predicate Storable(t: Tables, c: Check) {
    && 0 < c.id
    && !c.route.UnknownRoute?
    && c.offset == c.endpointId % c.frequency
    && c.endpointId in t.endpoints && t.endpoints[c.endpointId].orgId == c.orgId
    && (forall l :: l in t.checks && SameSlot(t.checks[l], c) ==> l == c.id)
    && (c.id in t.checks ==> SameSlot(t.checks[c.id], c))
  }

  /** Only entries that were in the route before may be repeated: a new one would be inserted twice. */
  ghost predicate RepeatsOnly<T>(entries: seq<T>, known: set<T>) {
    forall i, j :: 0 <= i < j < |entries| && entries[i] == entries[j] ==> entries[i] in known
  }

  /** The unique indexes accept the move from route before to route after. */
  ghost predicate RouteAccepted(before: Route, after: Route) {
    match after
    case ByTags(tags) => RepeatsOnly(tags, RouteTags(before))
    case ByIds(ids) => RepeatsOnly(ids, RouteIds(before))
    case UnknownRoute => false
  }

  // ---------------------------------------------------------------- the invariant is kept

  lemma WithCheckKeepsValid(t: Tables, c: Check)
    requires Valid(t) && Storable(t, c)
    ensures Valid(WithCheck(t, c))
  {
    var u := WithCheck(t, c);
    forall k | k in u.checks
      ensures CheckKeyed(u, k)
    {
      assert k != c.id ==> CheckKeyed(t, k);
    }
    forall r | r in u.idIndex
      ensures r.checkId in u.checks && r.probeId in RouteIds(u.checks[r.checkId].route)
    {
    }
    forall k, p | k in u.checks && p in RouteIds(u.checks[k].route) && !Gone(u, p)
      ensures IdRow(k, p) in u.idIndex
    {
      assert !Gone(t, p);
      if k in t.checks && p in RouteIds(t.checks[k].route) {
        assert IdRow(k, p) in t.idIndex;
      }
    }
    forall k, tag | k in u.checks && tag in RouteTags(u.checks[k].route)
      ensures TagRow(u.checks[k].orgId, k, tag) in u.tagIndex
    {
      assert k in t.checks ==> CheckKeyed(t, k);
      if k in t.checks && tag in RouteTags(t.checks[k].route) {
        assert TagRow(t.checks[k].orgId, k, tag) in t.tagIndex;
      }
    }
  }

  lemma WithoutCheckKeepsValid(t: Tables, k: int)
    requires Valid(t)
    ensures Valid(WithoutCheck(t, k))
  {
    var u := WithoutCheck(t, k);
    forall l | l in u.checks
      ensures CheckKeyed(u, l)
    {
      assert CheckKeyed(t, l);
    }
    forall l, p | l in u.checks && p in RouteIds(u.checks[l].route) && !Gone(u, p)
      ensures IdRow(l, p) in u.idIndex
    {
      assert !Gone(t, p);
    }
  }

  // ---------------------------------------------------------------- diffing two routes

  /** The entries of current that are not in existing, in order, and the entries of existing
      that are not in current. */
  method Diff<T(==)>(existing: seq<T>, current: seq<T>) returns (toAdd: seq<T>, toDel: set<T>)
    ensures forall x :: x in toAdd <==> x in current && x !in existing
    ensures toDel == Elements(existing) - Elements(current)
    ensures NoRepeats(toAdd) <==> RepeatsOnly(current, Elements(existing))
  {
    var existingSet := {};
    for i := 0 to |existing|
      invariant existingSet == Elements(existing[..i])
    {
      existingSet := existingSet + {existing[i]};
    }
    assert existing[..|existing|] == existing;
    var currentSet := {};
    toAdd := [];
    for i := 0 to |current|
      invariant currentSet == Elements(current[..i])
      invariant forall x :: x in toAdd <==> x in current[..i] && x !in existing
      invariant NoRepeats(toAdd) <==> RepeatsOnly(current[..i], existingSet)
    {
      var x := current[i];
      assert current[..i + 1] == current[..i] + [x];
      AppendRepeats(toAdd, current[..i], x, existingSet);
      currentSet := currentSet + {x};
      if x !in existingSet {
        toAdd := toAdd + [x];
      }
    }
    assert current[..|current|] == current;
    toDel := {};
    var rest := existingSet;
    while rest != {}
      invariant rest <= existingSet
      invariant toDel == existingSet - currentSet - rest
      decreases rest
    {
      var x := Pick(rest);
      rest := rest - {x};
      if x !in currentSet {
        toDel := toDel + {x};
      }
    }
  }

  lemma AppendRepeats<T>(added: seq<T>, seen: seq<T>, x: T, known: set<T>)
    requires forall y :: y in added <==> y in seen && y !in known
    requires NoRepeats(added) <==> RepeatsOnly(seen, known)
    ensures x in known ==> (RepeatsOnly(seen + [x], known) <==> RepeatsOnly(seen, known))
    ensures x !in known ==> (NoRepeats(added + [x]) <==> RepeatsOnly(seen + [x], known))
  {
    var longer := seen + [x];
    if RepeatsOnly(longer, known) {
      forall i, j | 0 <= i < j < |seen| && seen[i] == seen[j]
        ensures seen[i] in known
      {
        assert longer[i] == longer[j];
      }
    }
    if x !in known {
      var more := added + [x];
      if x in seen {
        var i :| 0 <= i < |seen| && seen[i] == x;
        assert longer[i] == longer[|seen|];
        var j :| 0 <= j < |added| && added[j] == x;
        assert more[j] == more[|added|];
      }
      if NoRepeats(more) {
        forall i, j | 0 <= i < j < |added|
          ensures added[i] != added[j]
        {
          assert more[i] != more[j];
        }
      }
    }
  }

  // ---------------------------------------------------------------- statements on the two indexes

  /** Inserts rows into the id index, which is unique on check and probe. */
  method InsertIdRows(db: Database, rows: seq<IdRow>) returns (ok: bool)
    modifies db`tables
    ensures ok <==> NoRepeats(rows) && Elements(rows) !! old(db.tables.idIndex)
    ensures db.tables == old(db.tables).(idIndex := old(db.tables.idIndex) + if ok then Elements(rows) else {})
  {
    ok := NoRepeats(rows) && Elements(rows) !! db.tables.idIndex;
    if ok {
      db.tables := db.tables.(idIndex := db.tables.idIndex + Elements(rows));
    }
  }

  /** Inserts rows of one check into the tag index, which is unique on check and tag. */
  method InsertTagRows(db: Database, checkId: int, rows: seq<TagRow>) returns (ok: bool)
    requires forall r :: r in rows ==> r.checkId == checkId
    modifies db`tables
    ensures ok <==> && NoRepeats(seq(|rows|, i requires 0 <= i < |rows| => rows[i].tag))
                    && forall r, s :: r in rows && s in old(db.tables.tagIndex) && s.checkId == checkId ==>
                           s.tag != r.tag
    ensures db.tables == old(db.tables).(tagIndex := old(db.tables.tagIndex) + if ok then Elements(rows) else {})
  {
    ok := && NoRepeats(seq(|rows|, i requires 0 <= i < |rows| => rows[i].tag))
          && forall r | r in rows :: forall s | s in db.tables.tagIndex :: s.checkId == checkId ==> s.tag != r.tag;
    if ok {
      db.tables := db.tables.(tagIndex := db.tables.tagIndex + Elements(rows));
    }
  }

  /** Inserts one id row per entry of ids. */
  method InsertRoutesById(db: Database, checkId: int, ids: seq<int>) returns (ok: bool)
    modifies db`tables
    ensures ok <==> NoRepeats(ids) && forall p :: p in ids ==> IdRow(checkId, p) !in old(db.tables.idIndex)
    ensures ok ==>
              db.tables == old(db.tables).(idIndex := old(db.tables.idIndex) + set p | p in ids :: IdRow(checkId, p))
    ensures !ok ==> db.tables == old(db.tables)
  {
    var idxs: seq<IdRow> := [];
    for i := 0 to |ids|
      invariant |idxs| == i
      invariant forall j :: 0 <= j < i ==> idxs[j] == IdRow(checkId, ids[j])
    {
      idxs := idxs + [IdRow(checkId, ids[i])];
    }
    assert Elements(idxs) == set p | p in ids :: IdRow(checkId, p) by {
      forall j | 0 <= j < |ids|
        ensures IdRow(checkId, ids[j]) in idxs
      {
        assert idxs[j] == IdRow(checkId, ids[j]);
      }
    }
    ok := InsertIdRows(db, idxs);
  }

  /** Inserts one tag row per entry of tags. */
  method InsertRoutesByTag(db: Database, org: int, checkId: int, tags: seq<string>) returns (ok: bool)
    modifies db`tables
    ensures ok <==> NoRepeats(tags)
                    && forall r :: r in old(db.tables.tagIndex) && r.checkId == checkId ==> r.tag !in tags
    ensures ok ==>
              db.tables == old(db.tables).(tagIndex := old(db.tables.tagIndex) + set tag | tag in tags ::
                  TagRow(org, checkId, tag))
    ensures !ok ==> db.tables == old(db.tables)
  {
    var idxs: seq<TagRow> := [];
    for i := 0 to |tags|
      invariant |idxs| == i
      invariant forall j :: 0 <= j < i ==> idxs[j] == TagRow(org, checkId, tags[j])
    {
      idxs := idxs + [TagRow(org, checkId, tags[i])];
    }
    assert seq(|idxs|, i requires 0 <= i < |idxs| => idxs[i].tag) == tags;
    assert Elements(idxs) == set tag | tag in tags :: TagRow(org, checkId, tag) by {
      forall j | 0 <= j < |tags|
        ensures TagRow(org, checkId, tags[j]) in idxs
      {
        assert idxs[j] == TagRow(org, checkId, tags[j]);
      }
    }
    ok := InsertTagRows(db, checkId, idxs);
  }

  /** Enters the whole route of a check that has no rows yet. */
  method AddCheckRoutes(db: Database, c: Check) returns (ok: bool)
    requires forall r :: r in db.tables.idIndex ==> r.checkId != c.id
    requires forall r :: r in db.tables.tagIndex ==> r.checkId != c.id
    modifies db`tables
    ensures ok <==> RouteAccepted(UnknownRoute, c.route)
    ensures ok ==> db.tables == old(db.tables).(
              idIndex := MoveIds(old(db.tables.idIndex), c.id, {}, RouteIds(c.route)),
              tagIndex := MoveTags(old(db.tables.tagIndex), c.id, c.orgId, {}, RouteTags(c.route)))
  {
    ghost var t := db.tables;
    match c.route
    case ByTags(tags) =>
      ok := InsertRoutesByTag(db, c.orgId, c.id, tags);
      assert MoveIds(t.idIndex, c.id, {}, {}) == t.idIndex;
      assert MoveTags(t.tagIndex, c.id, c.orgId, {}, RouteTags(c.route))
          == t.tagIndex + set tag | tag in tags :: TagRow(c.orgId, c.id, tag);
    case ByIds(ids) =>
      ok := InsertRoutesById(db, c.id, ids);
      assert MoveTags(t.tagIndex, c.id, c.orgId, {}, {}) == t.tagIndex;
      assert MoveIds(t.idIndex, c.id, {}, RouteIds(c.route))
          == t.idIndex + set p | p in ids :: IdRow(c.id, p);
    case UnknownRoute =>
      ok := false;
  }

  /** Deletes every row of the check from both indexes. */
  method DeleteCheckRoutes(db: Database, k: int)
    modifies db`tables
    ensures db.tables == old(db.tables).(
              idIndex := MoveIds(old(db.tables.idIndex), k, {}, {}),
              tagIndex := MoveTags(old(db.tables.tagIndex), k, 0, {}, {}))
  {
    ghost var t := db.tables;
    db.tables := db.tables.(idIndex := set r | r in db.tables.idIndex && r.checkId != k);
    db.tables := db.tables.(tagIndex := set r | r in db.tables.tagIndex && r.checkId != k);
    assert MoveIds(t.idIndex, k, {}, {}) == db.tables.idIndex;
    assert MoveTags(t.tagIndex, k, 0, {}, {}) == db.tables.tagIndex;
  }

  // ---------------------------------------------------------------- adding, deleting, updating a check

  /** What addCheck makes of the request c: a fresh Unknown state, stamped between from and to. */
  ghost predicate StampedNew(c: Check, added: Check, from: Time, to: Time) {
    && added == c.(id := added.id, state := EvalUnknown, stateCheck := added.stateCheck,
           stateChange := added.stateChange,
                   offset := c.endpointId % c.frequency, created := added.created, updated := added.updated)
    && from <= added.stateCheck <= added.stateChange <= added.created <= added.updated <= to
  }

  /** The store accepts c as a new check. */
  ghost predicate Addable(t: Tables, c: Check) {
    && (c.id == 0 || c.id !in t.checks)
    && (forall l :: l in t.checks ==> !SameSlot(t.checks[l], c))
    && RouteAccepted(UnknownRoute, c.route)
  }

  method AddCheck(db: Database, c0: Check) returns (r: Result<Check>)
    requires Valid(db.tables)
    requires c0.endpointId in db.tables.endpoints && db.tables.endpoints[c0.endpointId].orgId == c0.orgId
    modifies db
    ensures db.now >= old(db.now)
    ensures r.Success? <==> Addable(old(db.tables), c0)
    ensures r.Success? ==>
              && StampedNew(c0, r.value, old(db.now), db.now)
              && r.value.id == (if c0.id == 0 then old(db.tables.nextCheck) else c0.id)
              && r.value.id !in old(db.tables.checks)
              && Storable(old(db.tables), r.value)
              && db.tables == WithCheck(old(db.tables), r.value)
              && Valid(db.tables)
  {
    ghost var t := db.tables;
    var stateCheck := db.Now();
    var stateChange := db.Now();
    var created := db.Now();
    var updated := db.Now();
    var c := c0.(state := EvalUnknown, stateCheck := stateCheck, stateChange := stateChange,
                 offset := c0.endpointId % c0.frequency, created := created, updated := updated);
    // ids are unique, and so is the type of a check within its endpoint
    if c.id in db.tables.checks && c.id != 0 {
      return Failure(Constraint);
    }
    if exists l ::
        l in db.tables.checks && db.tables.checks[l].endpointId == c.endpointId && db.tables.checks[l].kind == c.kind {
      return Failure(Constraint);
    }
    if c.id == 0 {
      c := c.(id := db.tables.nextCheck);
    }
    assert c.id in t.checks ==> CheckKeyed(t, c.id);
    db.tables := db.tables.(checks := db.tables.checks[c.id := c],
                            nextCheck := if db.tables.nextCheck <= c.id then c.id + 1 else db.tables.nextCheck);
    var ok := AddCheckRoutes(db, c);
    if !ok {
      return Failure(Constraint);
    }
    assert db.tables == WithCheck(t, c);
    WithCheckKeepsValid(t, c);
    r := Success(c);
  }

  method DeleteCheck(db: Database, k: int)
    modifies db`tables
    ensures db.tables == WithoutCheck(old(db.tables), k)
  {
    db.tables := db.tables.(checks := db.tables.checks - {k});
    DeleteCheckRoutes(db, k);
  }

  /** The index rows of check k are entries of the route, tag rows under the given org. */
  ghost predicate RowsWithin(t: Tables, k: int, route: Route, org: int) {
    && (forall r :: r in t.idIndex && r.checkId == k ==> r.probeId in RouteIds(route))
    && (forall r :: r in t.tagIndex && r.checkId == k ==> r.tag in RouteTags(route) && r.orgId == org)
  }

  /** Replaces tag rows by difference. */
  method MoveTagRoutes(db: Database, before: seq<string>, c: Check, after: seq<string>) returns (ok: bool)
    requires forall r :: r in db.tables.tagIndex && r.checkId == c.id ==> r.tag in before
    modifies db`tables
    ensures ok <==> RepeatsOnly(after, Elements(before))
    ensures ok ==> db.tables == old(db.tables).(
              tagIndex := MoveTags(old(db.tables.tagIndex), c.id, c.orgId, Elements(before), Elements(after)))
  {
    ghost var t := db.tables;
    var tagsToAdd, tagsToDel := Diff(before, after);
    while tagsToDel != {}
      invariant tagsToDel <= Elements(before) - Elements(after)
      invariant db.tables == t.(tagIndex := db.tables.tagIndex)
      invariant db.tables.tagIndex == set r | r in t.tagIndex
                  && (r.checkId == c.id ==> r.tag in after || r.tag in tagsToDel)
      decreases tagsToDel
    {
      var tag := Pick(tagsToDel);
      db.tables := db.tables.(tagIndex := set r | r in db.tables.tagIndex && !(r.checkId == c.id && r.tag == tag));
      tagsToDel := tagsToDel - {tag};
    }
    ok := InsertRoutesByTag(db, c.orgId, c.id, tagsToAdd);
  }

  /** Replaces id rows by difference. */
  method MoveIdRoutes(db: Database, before: seq<int>, c: Check, after: seq<int>) returns (ok: bool)
    requires forall r :: r in db.tables.idIndex && r.checkId == c.id ==> r.probeId in before
    modifies db`tables
    ensures ok <==> RepeatsOnly(after, Elements(before))
    ensures ok ==> db.tables == old(db.tables).(
              idIndex := MoveIds(old(db.tables.idIndex), c.id, Elements(before), Elements(after)))
  {
    ghost var t := db.tables;
    var idsToAdd, idsToDel := Diff(before, after);
    while idsToDel != {}
      invariant idsToDel <= Elements(before) - Elements(after)
      invariant db.tables == t.(idIndex := db.tables.idIndex)
      invariant db.tables.idIndex == set r | r in t.idIndex
                  && (r.checkId == c.id ==> r.probeId in after || r.probeId in idsToDel)
      decreases idsToDel
    {
      var p := Pick(idsToDel);
      db.tables := db.tables.(idIndex := set r | r in db.tables.idIndex && !(r.checkId == c.id && r.probeId == p));
      idsToDel := idsToDel - {p};
    }
    ok := InsertRoutesById(db, c.id, idsToAdd);
  }

  /** Moves the index rows of c from the route before to its own: by difference when the type
      of the route stays, by deleting and entering everything when it changes. */
  method MoveRoutes(db: Database, before: Route, c: Check) returns (ok: bool)
    requires !before.UnknownRoute?
    requires RowsWithin(db.tables, c.id, before, c.orgId)
    modifies db`tables
    ensures ok <==> RouteAccepted(before, c.route)
    ensures ok ==> db.tables == old(db.tables).(
              idIndex := MoveIds(old(db.tables.idIndex), c.id, RouteIds(before), RouteIds(c.route)),
              tagIndex := MoveTags(old(db.tables.tagIndex), c.id, c.orgId, RouteTags(before), RouteTags(c.route)))
  {
    ghost var t := db.tables;
    if before.ByTags? && c.route.ByTags? {
      ok := MoveTagRoutes(db, before.tags, c, c.route.tags);
      assert MoveIds(t.idIndex, c.id, {}, {}) == t.idIndex;
    } else if before.ByIds? && c.route.ByIds? {
      ok := MoveIdRoutes(db, before.ids, c, c.route.ids);
      assert MoveTags(t.tagIndex, c.id, c.orgId, {}, {}) == t.tagIndex;
    } else {
      DeleteCheckRoutes(db, c.id);
      ok := AddCheckRoutes(db, c);
      if ok {
        assert db.tables.idIndex == MoveIds(t.idIndex, c.id, RouteIds(before), RouteIds(c.route));
        assert db.tables.tagIndex == MoveTags(t.tagIndex, c.id, c.orgId, RouteTags(before), RouteTags(c.route));
      }
    }
  }

  /** What updateCheck makes of the request c over the stored row: recomputed offset, a new
      Updated, and an Unknown state when the check is being disabled. */
  ghost predicate StampedUpdate(row: Check, c: Check, stored: Check, from: Time, to: Time) {
    && from <= stored.updated <= to
    && if !c.enabled && row.enabled then
         && stored.updated <= stored.stateChange <= to
         && stored == c.(updated := stored.updated, offset := c.endpointId % c.frequency,
                         state := EvalUnknown, stateChange := stored.stateChange)
       else
         stored == c.(updated := stored.updated, offset := c.endpointId % c.frequency)
  }

  method UpdateCheck(db: Database, c0: Check) returns (r: Result<Check>)
    requires Valid(db.tables)
    requires c0.id in db.tables.checks ==> SameSlot(db.tables.checks[c0.id], c0)
    modifies db
    ensures db.now >= old(db.now)
    ensures r.Success? <==>
              && c0.id in old(db.tables.checks) && old(db.tables.checks)[c0.id].orgId == c0.orgId
              && RouteAccepted(old(db.tables.checks)[c0.id].route, c0.route)
    ensures r.Success? ==>
              && StampedUpdate(old(db.tables.checks)[c0.id], c0, r.value, old(db.now), db.now)
              && db.tables == WithCheck(old(db.tables), r.value)
              && Valid(db.tables)
  {
    ghost var t := db.tables;
    if c0.id !in db.tables.checks || db.tables.checks[c0.id].orgId != c0.orgId {
      return Failure(NotFound);
    }
    var existing := db.tables.checks[c0.id];
    assert CheckKeyed(t, c0.id);
    var updated := db.Now();
    var c := c0.(updated := updated, offset := c0.endpointId % c0.frequency);
    if !c.enabled && existing.enabled {
      var stateChange := db.Now();
      c := c.(stateChange := stateChange, state := EvalUnknown);
    }
    db.tables := db.tables.(checks := db.tables.checks[c.id := c]);
    assert RowsWithin(db.tables, c.id, existing.route, c.orgId);
    var ok := MoveRoutes(db, existing.route, c);
    if !ok {
      return Failure(Constraint);
    }
    assert db.tables == WithCheck(t, c);
    WithCheckKeepsValid(t, c);
    r := Success(c);
  }
}
