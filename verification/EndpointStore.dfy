/** Creating, editing and deleting an endpoint with its tags and checks (endpoint.go). */
module EndpointStore {
  import opened Model
  import opened Database
  import opened RouteIndex
  import opened Rows
  import opened CheckBatches
  import opened TagDiff

  function IdsOf(t: Tables, e: int): set<int> {
    set k | k in t.checks && t.checks[k].endpointId == e
  }

  ghost predicate DistinctKinds(checks: seq<Check>) {
    forall i, j :: 0 <= i < j < |checks| ==> checks[i].kind != checks[j].kind
  }

  // ---------------------------------------------------------------- what an edit must achieve

  /** The check of the request as the endpoint's own. */
  function Owned(c: Check, e: EndpointDTO): Check {
    c.(endpointId := e.id, orgId := e.orgId)
  }

  ghost predicate SlotTaken(t: Tables, c: Check) {
    exists k :: k in t.checks && SameSlot(t.checks[k], c)
  }

  /** c asks for a slot the endpoint did not use: cur was added. */
  ghost predicate WasAdded(t: Tables, u: Tables, c: Check, cur: Check, from: Time, to: Time) {
    && !SlotTaken(t, c)
    && StampedNew(c, cur, from, to)
    && (if c.id == 0 then t.nextCheck <= cur.id else cur.id == c.id)
    && (cur.id in t.checks ==> t.checks[cur.id].endpointId == c.endpointId)
    && cur.id in u.checks && u.checks[cur.id] == cur
    && forall p :: IdRow(cur.id, p) in u.idIndex <==> p in RouteIds(c.route)
  }

  /** c asks for nothing new: the row stays as it is. */
  ghost predicate WasUntouched(t: Tables, u: Tables, ev: EndpointUpdated, c: Check, cur: Check) {
    && cur == c && c in ev.last.checks && ev.last.slug == ev.current.slug
    && c.id in t.checks && SameSlot(t.checks[c.id], c)
    && c.id in u.checks && u.checks[c.id] == t.checks[c.id] && RowsFollow(t, u, c.id)
  }

  /** c edits the check in its slot: the row is rewritten under the same id. */
  ghost predicate WasRewritten(t: Tables, u: Tables, ev: EndpointUpdated, c: Check, cur: Check, from: Time, to: Time) {
    && !(c in ev.last.checks && ev.last.slug == ev.current.slug)
    && c.id in t.checks && SameSlot(t.checks[c.id], c)
    && StampedUpdate(t.checks[c.id], c.(created := t.checks[c.id].created), cur, from, to)
    && c.id in u.checks && u.checks[c.id] == cur && RowsFollow(t, u, c.id)
  }

  ghost predicate CheckRealised(t: Tables, u: Tables, ev: EndpointUpdated, c: Check, cur: Check, to: Time) {
    || WasAdded(t, u, c, cur, ev.current.updated, to)
    || WasUntouched(t, u, ev, c, cur)
    || WasRewritten(t, u, ev, c, cur, ev.current.updated, to)
  }

  ghost predicate ChecksRealised(t: Tables, u: Tables, e: EndpointDTO, ev: EndpointUpdated, to: Time) {
    && |ev.current.checks| == |e.checks|
    && (forall i :: 0 <= i < |e.checks| ==> CheckRealised(t, u, ev, Owned(e.checks[i], e), ev.current.checks[i], to))
    && DistinctIds(ev.current.checks)
    && IdsOf(u, e.id) == Ids(ev.current.checks)
  }

  /** Row and tags of u are those the edit e of t asks for, everything else is in order and nothing
      outside the endpoint differs, and ev tells of it. */
  ghost predicate RowRealised(t: Tables, u: Tables, slugOf: string -> string, e: EndpointDTO, ev: EndpointUpdated,
                              from: Time, to: Time) {
    && Valid(u) && SameElsewhere(t, u, e.id) && u.nextEndpoint == t.nextEndpoint && t.nextCheck <= u.nextCheck
    && e.id in t.endpoints
    && ev.current == e.(slug := slugOf(e.name), checks := ev.current.checks, updated := ev.current.updated)
    && from <= ev.current.updated <= to
    && e.id in u.endpoints
    && u.endpoints[e.id]
           == Endpoint(e.id, e.orgId, e.name, slugOf(e.name), t.endpoints[e.id].created, ev.current.updated)
    && TagsOf(u, e.id) == Elements(e.tags) + TagsOf(t, e.id) * {""}
    && IsView(t, from, e.id, ev.last)
  }

  /** u is t with the edit e carried out, and ev tells of it. */
  ghost predicate Realised(t: Tables, u: Tables, slugOf: string -> string, e: EndpointDTO, ev: EndpointUpdated,
                           from: Time, to: Time) {
    RowRealised(t, u, slugOf, e, ev, from, to) && ChecksRealised(t, u, e, ev, to)
  }

  ghost predicate Asked(e: EndpointDTO, kind: CheckType) {
    exists i :: 0 <= i < |e.checks| && e.checks[i].kind == kind
  }

  /** Whatever the request repeats: the endpoint ends with a check of each type asked for and of no
      other, and a type it had keeps its id. */
  ghost predicate Reshaped(t: Tables, u: Tables, e: EndpointDTO) {
    && (forall k :: k in IdsOf(u, e.id) ==> Asked(e, u.checks[k].kind))
    && (forall kind :: Asked(e, kind) ==> exists k :: k in IdsOf(u, e.id) && u.checks[k].kind == kind)
    && (forall k :: k in IdsOf(t, e.id) && Asked(e, t.checks[k].kind) ==>
           k in IdsOf(u, e.id) && SameSlot(u.checks[k], t.checks[k]))
  }

  /** Only a type the endpoint has may be asked for twice. */
  ghost predicate NewKindsOnce(t: Tables, e: EndpointDTO) {
    forall i, j :: 0 <= i < j < |e.checks| && e.checks[i].kind == e.checks[j].kind ==>
        SlotTaken(t, Owned(e.checks[i], e))
  }

  /** The request is free of conflicts with what is stored. */
  ghost predicate Acceptable(t: Tables, e: EndpointDTO) {
    && e.id in t.endpoints && t.endpoints[e.id].orgId == e.orgId
    && NameFree(t, e)
    && !("" in e.tags && "" in TagsOf(t, e.id))
    && (forall i :: 0 <= i < |e.checks| ==> CheckAcceptable(t, Owned(e.checks[i], e)))
  }

  ghost predicate NameFree(t: Tables, e: EndpointDTO) {
    forall i :: i in t.endpoints && i != e.id && t.endpoints[i].orgId == e.orgId ==> t.endpoints[i].name != e.name
  }

  /** A kept check names the id of its slot; routes repeat no entry they would newly insert. */
  ghost predicate CheckAcceptable(t: Tables, c: Check) {
    && (forall k :: k in t.checks && SameSlot(t.checks[k], c) ==>
           k == c.id && RouteAccepted(t.checks[k].route, c.route))
    && (!SlotTaken(t, c) ==> RouteAccepted(UnknownRoute, c.route))
  }

  ghost predicate NewChecksUnnumbered(t: Tables, e: EndpointDTO) {
    forall i :: 0 <= i < |e.checks| && !SlotTaken(t, Owned(e.checks[i], e)) ==> e.checks[i].id == 0
  }

  // ---------------------------------------------------------------- tags

  ghost predicate OnlyTagsMoved(t: Tables, u: Tables, e: int) {
    && u == t.(endpointTags := u.endpointTags)
    && forall r: EndpointTag :: r.endpointId != e ==> (r in u.endpointTags <==> r in t.endpointTags)
  }

  /** endpoint_tag is unique on (endpoint_id, tag): an invisible "" cannot be added again. */
  method UpdateEndpointTags(db: Database, org: int, e: int, existing: seq<string>,
                            requested: seq<string>) returns (ok: bool)
    requires Valid(db.tables) && e in db.tables.endpoints && db.tables.endpoints[e].orgId == org
    requires Elements(existing) == TagsOf(db.tables, e) - {""}
    modifies db`tables
    ensures ok <==> !("" in requested && "" in TagsOf(old(db.tables), e))
    ensures ok ==> OnlyTagsMoved(old(db.tables), db.tables, e) && EndpointsKeyed(db.tables)
    ensures ok ==> TagsOf(db.tables, e) == Elements(requested) + TagsOf(old(db.tables), e) * {""}
  {
    ghost var t := db.tables;
    var toDelete, toAdd := DiffTags(existing, requested);
    db.tables := db.tables.(endpointTags := set r | r in db.tables.endpointTags &&
                            !(r.endpointId == e && r.orgId == org && r.tag in toDelete));
    ghost var kept := db.tables;
    assert TagsOf(kept, e) == TagsOf(t, e) - toDelete;
    ghost var clash := Elements(requested) * TagsOf(t, e) * {""};
    assert toAdd * TagsOf(kept, e) == clash;
    ok := toAdd * TagsOf(db.tables, e) == {};
    assert "" in clash <==> "" in requested && "" in TagsOf(t, e);
    assert clash == {} <==> "" !in clash;
    if !ok {
      return;
    }
    db.tables := db.tables.(endpointTags := db.tables.endpointTags + set tag | tag in toAdd ::
        EndpointTag(org, e, tag));
    assert TagsOf(db.tables, e) == TagsOf(kept, e) + toAdd by {
      forall tag | tag in toAdd
        ensures tag in TagsOf(db.tables, e)
      {
        assert EndpointTag(org, e, tag) in db.tables.endpointTags;
      }
      forall tag | tag in TagsOf(kept, e)
        ensures tag in TagsOf(db.tables, e)
      {
        var r :| r in kept.endpointTags && r.endpointId == e && r.tag == tag;
        assert r in db.tables.endpointTags;
      }
    }
  }

  // ---------------------------------------------------------------- planning the check edits

  ghost predicate IndexedByKind(checks: seq<Check>, byKind: map<CheckType, Check>) {
    && (forall kind :: kind in byKind ==> byKind[kind] in checks && byKind[kind].kind == kind)
    && (forall c :: c in checks ==> c.kind in byKind && byKind[c.kind] == c)
  }

  /** Position i of the request, over the endpoint read as last: what the plan does with it. */
  ghost predicate PlannedAt(last: EndpointDTO, e: EndpointDTO, slug: string, byKind: map<CheckType, Check>,
                            i: int, c: Check, adds: seq<int>, updates: seq<int>)
    requires 0 <= i < |e.checks|
  {
    var own := Owned(e.checks[i], e);
    && (i in adds <==> own.kind !in byKind)
    && (own.kind in byKind ==> byKind[own.kind].id == own.id)
    && (i in updates <==> own.kind in byKind && !(own == byKind[own.kind] && last.slug == slug))
    && c == if i in updates then own.(created := byKind[own.kind].created) else own
  }

  method IndexByKind(checks: seq<Check>) returns (byKind: map<CheckType, Check>)
    requires DistinctKinds(checks)
    ensures IndexedByKind(checks, byKind)
  {
    byKind := map[];
    for i := 0 to |checks|
      invariant IndexedByKind(checks[..i], byKind)
    {
      assert checks[..i + 1] == checks[..i] + [checks[i]];
      byKind := byKind[checks[i].kind := checks[i]];
    }
    assert checks[..|checks|] == checks;
  }

  ghost predicate Ascending(positions: seq<int>, below: int) {
    && NoRepeats(positions)
    && forall n :: 0 <= n < |positions| ==> 0 <= positions[n] < below
  }

  /** Sorts the checks of the request into additions and updates, and finds the stored checks
      whose type is no longer asked for. */
  method PlanChecks(last: EndpointDTO, e: EndpointDTO, slug: string)
    returns (ok: bool, cur: seq<Check>, adds: seq<int>, updates: seq<int>, deletes: set<int>,
        ghost byKind: map<CheckType, Check>)
    requires DistinctKinds(last.checks)
    ensures IndexedByKind(last.checks, byKind)
    ensures !ok ==>
              exists i ::
                  0 <= i < |e.checks| && e.checks[i].kind in byKind && byKind[e.checks[i].kind].id != e.checks[i].id
    ensures ok ==> |cur| == |e.checks| && Ascending(adds, |cur|) && Ascending(updates, |cur|)
    ensures ok ==> forall i :: 0 <= i < |cur| ==> PlannedAt(last, e, slug, byKind, i, cur[i], adds, updates)
    ensures ok ==> deletes == set c | c in last.checks && (forall r :: r in e.checks ==> r.kind != c.kind) :: c.id
  {
    var checkMap := IndexByKind(last.checks);
    byKind := checkMap;
    var seenChecks: set<CheckType> := {};
    cur, adds, updates, deletes := [], [], [], {};
    for i := 0 to |e.checks|
      invariant |cur| == i && Ascending(adds, i) && Ascending(updates, i)
      invariant seenChecks == set r | r in e.checks[..i] :: r.kind
      invariant forall j :: 0 <= j < i ==> PlannedAt(last, e, slug, byKind, j, cur[j], adds, updates)
    {
      assert e.checks[..i + 1] == e.checks[..i] + [e.checks[i]];
      var c := Owned(e.checks[i], e);
      seenChecks := seenChecks + {c.kind};
      if c.kind !in checkMap {
        adds := adds + [i];
      } else {
        var ec := checkMap[c.kind];
        if c.id != ec.id {
          return false, cur, adds, updates, deletes, byKind;
        }
        if c != ec || last.slug != slug {
          c := c.(created := ec.created);
          updates := updates + [i];
        }
      }
      cur := cur + [c];
    }
    assert e.checks[..|e.checks|] == e.checks;
    deletes := CollectUnseen(checkMap, seenChecks);
    UnseenAreUnasked(last, e, checkMap);
    ok := true;
  }

  /** The ids of the stored checks whose type was not seen, whatever the order of the map. */
  method CollectUnseen(checkMap: map<CheckType, Check>, seenChecks: set<CheckType>) returns (deletes: set<int>)
    ensures deletes == set kind | kind in checkMap.Keys && kind !in seenChecks :: checkMap[kind].id
  {
    deletes := {};
    var rest := checkMap.Keys;
    while rest != {}
      invariant rest <= checkMap.Keys
      invariant deletes == set kind | kind in checkMap.Keys - rest && kind !in seenChecks :: checkMap[kind].id
      decreases rest
    {
      var kind := Pick(rest);
      rest := rest - {kind};
      if kind !in seenChecks {
        deletes := deletes + {checkMap[kind].id};
      }
    }
  }

  lemma UnseenAreUnasked(last: EndpointDTO, e: EndpointDTO, checkMap: map<CheckType, Check>)
    requires IndexedByKind(last.checks, checkMap)
    ensures (set kind | kind in checkMap.Keys && kind !in (set r | r in e.checks :: r.kind) :: checkMap[kind].id)
         == set c | c in last.checks && (forall r :: r in e.checks ==> r.kind != c.kind) :: c.id
  {
    forall c | c in last.checks && (forall r :: r in e.checks ==> r.kind != c.kind)
      ensures c.id in set kind | kind in checkMap.Keys && kind !in (set r | r in e.checks :: r.kind) ::
                        checkMap[kind].id
    {
      assert checkMap[c.kind] == c;
    }
  }

  // ---------------------------------------------------------------- the plan against the store

  lemma ViewChecks(t: Tables, now: Time, e: int, d: EndpointDTO)
    requires Valid(t) && IsView(t, now, e, d)
    ensures DistinctKinds(d.checks)
    ensures forall c :: c in d.checks ==> c.id in IdsOf(t, e) && c == Scrutinize(now, t.checks[c.id])
    ensures forall k :: k in IdsOf(t, e) ==> Scrutinize(now, t.checks[k]) in d.checks
  {
    forall c | c in d.checks
      ensures c.id in IdsOf(t, e) && c == Scrutinize(now, t.checks[c.id])
    {
      var row :| row in ChecksOf(t, e) && c == Scrutinize(now, row);
      var k :| k in t.checks && t.checks[k] == row;
      assert CheckKeyed(t, k);
    }
    forall k | k in IdsOf(t, e)
      ensures Scrutinize(now, t.checks[k]) in d.checks
    {
      assert t.checks[k] in ChecksOf(t, e);
    }
    forall i, j | 0 <= i < j < |d.checks|
      ensures d.checks[i].kind != d.checks[j].kind
    {
      var c, d' := d.checks[i], d.checks[j];
      assert c in d.checks && d' in d.checks && c.id != d'.id;
      assert !SameSlot(t.checks[c.id], t.checks[d'.id]);
    }
  }

  /** The stored check in the slot of an owned check, seen through the index by type. */
  lemma SlotByKind(t: Tables, now: Time, last: EndpointDTO, byKind: map<CheckType, Check>, c: Check)
    requires Valid(t) && IsView(t, now, c.endpointId, last) && IndexedByKind(last.checks, byKind)
    ensures SlotTaken(t, c) <==> c.kind in byKind
    ensures c.kind in byKind ==>
              && byKind[c.kind].id in t.checks && SameSlot(t.checks[byKind[c.kind].id], c)
              && byKind[c.kind] == Scrutinize(now, t.checks[byKind[c.kind].id])
    ensures forall k :: k in t.checks && SameSlot(t.checks[k], c) ==> c.kind in byKind && byKind[c.kind].id == k
    ensures c in last.checks <==> c.kind in byKind && byKind[c.kind] == c
  {
    ViewChecks(t, now, c.endpointId, last);
    if c.kind in byKind {
      assert byKind[c.kind] in last.checks;
      assert SameSlot(t.checks[byKind[c.kind].id], c);
    }
    forall k | k in t.checks && SameSlot(t.checks[k], c)
      ensures c.kind in byKind && byKind[c.kind].id == k
    {
      assert CheckKeyed(t, k);
      assert Scrutinize(now, t.checks[k]) in last.checks;
    }
  }

  /** The stages of one edit of the checks: the store before, after deleting, after adding, after
      updating; the request as planned, with the additions stamped, and with everything stamped. */
  datatype Stages = Stages(
    t: Tables, deleted: Tables, added: Tables, done: Tables,
    last: EndpointDTO, e: EndpointDTO, slug: string, byKind: map<CheckType, Check>,
    planned: seq<Check>, stamped: seq<Check>, final: seq<Check>,
    adds: seq<int>, updates: seq<int>, deletes: set<int>,
    start: Time, from: Time, mid: Time, to: Time)

  ghost predicate Planned(x: Stages) {
    && Valid(x.t) && IsView(x.t, x.start, x.e.id, x.last) && IndexedByKind(x.last.checks, x.byKind)
    && |x.planned| == |x.e.checks|
    && Ascending(x.adds, |x.planned|) && Ascending(x.updates, |x.planned|)
    && (forall i :: 0 <= i < |x.planned| ==>
           PlannedAt(x.last, x.e, x.slug, x.byKind, i, x.planned[i], x.adds, x.updates))
    && x.deletes == (set c | c in x.last.checks && (forall r :: r in x.e.checks ==> r.kind != c.kind) :: c.id)
    && x.deleted.checks == x.t.checks - x.deletes && x.deleted.nextCheck == x.t.nextCheck
    && SameRowsOf(x.t, x.deleted, x.deleted.checks.Keys)
  }

  lemma KeptCheck(x: Stages, i: int)
    requires Planned(x) && 0 <= i < |x.planned| && i !in x.adds
    ensures var c := Owned(x.e.checks[i], x.e);
      && x.planned[i].id == c.id && c.id in x.t.checks && SameSlot(x.t.checks[c.id], c)
      && c.id in x.deleted.checks
      && c.kind in x.byKind && x.byKind[c.kind] == Scrutinize(x.start, x.t.checks[c.id])
  {
    var c := Owned(x.e.checks[i], x.e);
    SlotByKind(x.t, x.start, x.last, x.byKind, c);
    assert PlannedAt(x.last, x.e, x.slug, x.byKind, i, x.planned[i], x.adds, x.updates);
    assert x.e.checks[i] in x.e.checks;
    ViewChecks(x.t, x.start, x.e.id, x.last);
  }

  lemma DeletedOwn(x: Stages, k: int)
    requires Planned(x) && k in x.deletes
    ensures k in x.t.checks && x.t.checks[k].endpointId == x.e.id
  {
  }

  lemma KeptApart(x: Stages, i: int, j: int)
    requires Planned(x) && DistinctKinds(x.e.checks) && 0 <= i < |x.planned| && 0 <= j < |x.planned| && i != j
    requires i !in x.adds && j !in x.adds
    ensures x.planned[i].id != x.planned[j].id
  {
  }

  /** A stored check of the endpoint that survives the deletions is asked for by some position. */
  lemma Survivor(x: Stages, k: int)
    requires Planned(x) && k in IdsOf(x.deleted, x.e.id)
    ensures exists i :: 0 <= i < |x.planned| && i !in x.adds && x.planned[i].id == k
  {
    ViewChecks(x.t, x.start, x.e.id, x.last);
    assert CheckKeyed(x.t, k);
    var c := Scrutinize(x.start, x.t.checks[k]);
    assert c in x.last.checks && c.id == k;
    assert k !in x.deletes;
    var r :| r in x.e.checks && r.kind == c.kind;
    var i :| 0 <= i < |x.e.checks| && x.e.checks[i] == r;
    assert PlannedAt(x.last, x.e, x.slug, x.byKind, i, x.planned[i], x.adds, x.updates);
    assert x.byKind[c.kind] == c;
  }

  ghost predicate Executed(x: Stages) {
    && Planned(x) && DistinctKinds(x.e.checks)
    && |x.stamped| == |x.planned| == |x.final|
    && x.from <= x.mid <= x.to
    && AddedAt(x.deleted, x.added, x.planned, x.stamped, x.adds, x.from, x.mid)
    && (forall i :: i in x.updates ==> x.stamped[i].id in x.added.checks)
    && RewrittenAt(x.added, x.done, x.stamped, x.final, x.updates, x.mid, x.to)
  }

  ghost function EventOf(x: Stages): EndpointUpdated {
    EndpointUpdated(x.last, x.e.(slug := x.slug, checks := x.final, updated := x.from))
  }

  /** A position that was added. */
  lemma AddedRealised(x: Stages, i: int)
    requires Executed(x) && i in x.adds
    ensures i !in x.updates && x.final[i] == x.stamped[i] && x.final[i].id !in x.deleted.checks
    ensures WasAdded(x.t, x.done, Owned(x.e.checks[i], x.e), x.final[i], x.from, x.to)
  {
    assert PlannedAt(x.last, x.e, x.slug, x.byKind, i, x.planned[i], x.adds, x.updates);
    SlotByKind(x.t, x.start, x.last, x.byKind, Owned(x.e.checks[i], x.e));
    forall j | j in x.updates
      ensures x.stamped[j].id != x.stamped[i].id
    {
      assert PlannedAt(x.last, x.e, x.slug, x.byKind, j, x.planned[j], x.adds, x.updates);
      KeptCheck(x, j);
    }
    if x.final[i].id in x.t.checks {
      DeletedOwn(x, x.final[i].id);
    }
  }

  /** A position that was rewritten. */
  lemma UpdateRealised(x: Stages, i: int)
    requires Executed(x) && i in x.updates
    ensures i !in x.adds && x.final[i].id == x.planned[i].id
    ensures WasRewritten(x.t, x.done, EventOf(x), Owned(x.e.checks[i], x.e), x.final[i], x.from, x.to)
  {
    assert PlannedAt(x.last, x.e, x.slug, x.byKind, i, x.planned[i], x.adds, x.updates);
    SlotByKind(x.t, x.start, x.last, x.byKind, Owned(x.e.checks[i], x.e));
    KeptCheck(x, i);
  }

  /** A position that was left alone. */
  lemma UntouchedRealised(x: Stages, i: int)
    requires Executed(x) && 0 <= i < |x.final| && i !in x.adds && i !in x.updates
    ensures x.final[i].id == x.planned[i].id
    ensures WasUntouched(x.t, x.done, EventOf(x), Owned(x.e.checks[i], x.e), x.final[i])
  {
    assert PlannedAt(x.last, x.e, x.slug, x.byKind, i, x.planned[i], x.adds, x.updates);
    SlotByKind(x.t, x.start, x.last, x.byKind, Owned(x.e.checks[i], x.e));
    KeptCheck(x, i);
    forall j | j in x.updates
      ensures x.stamped[j].id != x.planned[i].id
    {
      assert PlannedAt(x.last, x.e, x.slug, x.byKind, j, x.planned[j], x.adds, x.updates);
      KeptApart(x, i, j);
    }
  }

  lemma PositionRealised(x: Stages, i: int)
    requires Executed(x) && 0 <= i < |x.final|
    ensures CheckRealised(x.t, x.done, EventOf(x), Owned(x.e.checks[i], x.e), x.final[i], x.to)
    ensures i !in x.adds ==> x.final[i].id == x.planned[i].id
    ensures i in x.adds ==> x.final[i].id == x.stamped[i].id && x.final[i].id !in x.deleted.checks
    ensures x.final[i].id in x.done.checks && x.done.checks[x.final[i].id].endpointId == x.e.id
  {
    if i in x.adds {
      AddedRealised(x, i);
    } else if i in x.updates {
      UpdateRealised(x, i);
    } else {
      UntouchedRealised(x, i);
    }
  }

  lemma ChecksCarriedOut(x: Stages)
    requires Executed(x)
    ensures ChecksRealised(x.t, x.done, x.e, EventOf(x), x.to)
  {
    forall i | 0 <= i < |x.final|
      ensures CheckRealised(x.t, x.done, EventOf(x), Owned(x.e.checks[i], x.e), x.final[i], x.to)
      ensures x.final[i].id in IdsOf(x.done, x.e.id)
    {
      PositionRealised(x, i);
    }
    forall i, j | 0 <= i < j < |x.final|
      ensures x.final[i].id != x.final[j].id
    {
      PositionRealised(x, i);
      PositionRealised(x, j);
      if i !in x.adds {
        KeptCheck(x, i);
        if j !in x.adds {
          KeptApart(x, i, j);
        }
      } else if j !in x.adds {
        KeptCheck(x, j);
      }
    }
    forall k | k in IdsOf(x.done, x.e.id)
      ensures k in Ids(x.final)
    {
      var i := PositionOf(x, k);
      PositionRealised(x, i);
      assert x.final[i] in x.final;
    }
  }

  /** Which position of the request accounts for a check of the endpoint after the edit. */
  lemma PositionOf(x: Stages, k: int) returns (i: int)
    requires Executed(x) && k in IdsOf(x.done, x.e.id)
    ensures 0 <= i < |x.final| && x.final[i].id == k
  {
    if k in x.deleted.checks {
      if exists j :: j in x.updates && x.stamped[j].id == k {
        i :| i in x.updates && x.stamped[i].id == k;
        assert PlannedAt(x.last, x.e, x.slug, x.byKind, i, x.planned[i], x.adds, x.updates);
      } else {
        assert x.done.checks[k] == x.added.checks[k] == x.deleted.checks[k];
        Survivor(x, k);
        i :| 0 <= i < |x.planned| && i !in x.adds && x.planned[i].id == k;
      }
    } else {
      assert k in x.added.checks;
      i :| i in x.adds && x.stamped[i].id == k;
      assert PlannedAt(x.last, x.e, x.slug, x.byKind, i, x.planned[i], x.adds, x.updates);
    }
    PositionRealised(x, i);
  }

  // ---------------------------------------------------------------- the edit

  /** Position i meets no conflict just when the batch it is in will accept it. */
  lemma PositionAcceptable(x: Stages, i: int)
    requires Planned(x) && 0 <= i < |x.planned|
    ensures i in x.updates ==> i !in x.adds && x.planned[i].id in x.t.checks
    ensures i !in x.adds ==> SlotTaken(x.t, Owned(x.e.checks[i], x.e))
    ensures i in x.adds ==> !SlotTaken(x.t, x.planned[i]) && x.planned[i] == Owned(x.e.checks[i], x.e)
    ensures CheckAcceptable(x.t, Owned(x.e.checks[i], x.e)) <==>
            && (i in x.adds ==> RouteAccepted(UnknownRoute, x.planned[i].route))
            && (i in x.updates ==> RouteAccepted(x.t.checks[x.planned[i].id].route, x.planned[i].route))
  {
    var c := Owned(x.e.checks[i], x.e);
    SlotByKind(x.t, x.start, x.last, x.byKind, c);
    assert PlannedAt(x.last, x.e, x.slug, x.byKind, i, x.planned[i], x.adds, x.updates);
    if i !in x.adds {
      KeptCheck(x, i);
      assert CheckKeyed(x.t, c.id);
    }
  }

  /** Together the two batches accept what the request asks for just when every check is acceptable. */
  lemma BatchesAcceptable(x: Stages)
    requires Planned(x) && DistinctKinds(x.e.checks)
    ensures forall i :: i in x.updates ==> x.planned[i].id in x.t.checks
    ensures NewChecksUnnumbered(x.t, x.e) ==> forall i :: i in x.adds ==> x.planned[i].id == 0
    ensures (forall i :: 0 <= i < |x.e.checks| ==> CheckAcceptable(x.t, Owned(x.e.checks[i], x.e))) <==>
            BatchAddable(x.deleted, x.planned, x.adds) && BatchUpdatable(x.t, x.planned, x.updates)
  {
    forall i | 0 <= i < |x.planned|
      ensures i in x.updates ==> x.planned[i].id in x.t.checks
    {
      PositionAcceptable(x, i);
    }
    forall i | 0 <= i < |x.planned|
      ensures CheckAcceptable(x.t, Owned(x.e.checks[i], x.e)) <==>
            && (i in x.adds ==> RouteAccepted(UnknownRoute, x.planned[i].route))
            && (i in x.updates ==> RouteAccepted(x.t.checks[x.planned[i].id].route, x.planned[i].route))
    {
      PositionAcceptable(x, i);
    }
    forall i, k | i in x.adds && k in x.deleted.checks
      ensures !SameSlot(x.deleted.checks[k], x.planned[i])
    {
      PositionAcceptable(x, i);
    }
    forall i, j | i in x.adds && j in x.adds && i != j
      ensures !SameSlot(x.planned[i], x.planned[j])
    {
      PositionAcceptable(x, i);
      PositionAcceptable(x, j);
      assert x.e.checks[i].kind != x.e.checks[j].kind;
    }
    if NewChecksUnnumbered(x.t, x.e) {
      forall i | i in x.adds
        ensures x.planned[i].id == 0
      {
        PositionAcceptable(x, i);
        assert !SlotTaken(x.t, Owned(x.e.checks[i], x.e));
      }
    }
  }

  /** Changing columns of an endpoint row other than its org leaves the store valid. */
  lemma EndpointRowKeepsValid(t: Tables, u: Tables, e: int)
    requires Valid(t) && e in t.endpoints && e in u.endpoints
    requires u == t.(endpoints := u.endpoints, endpointTags := u.endpointTags)
    requires u.endpoints - {e} == t.endpoints - {e} && u.endpoints[e].id == e
    requires u.endpoints[e].orgId == t.endpoints[e].orgId
    requires EndpointsKeyed(u) || u.endpointTags == t.endpointTags
    ensures Valid(u)
  {
    assert u.endpoints.Keys == t.endpoints.Keys by {
      assert u.endpoints.Keys == (u.endpoints - {e}).Keys + {e};
    }
    forall i | i in t.endpoints
      ensures u.endpoints[i].id == i && u.endpoints[i].orgId == t.endpoints[i].orgId
    {
      if i != e {
        assert i in t.endpoints - {e};
        assert (u.endpoints - {e})[i] == (t.endpoints - {e})[i];
      }
    }
    forall k | k in u.checks
      ensures CheckKeyed(u, k)
    {
      assert CheckKeyed(t, k);
    }
    forall k, p | k in u.checks && p in RouteIds(u.checks[k].route) && !Gone(u, p)
      ensures IdRow(k, p) in u.idIndex
    {
      assert !Gone(t, p);
    }
  }

  /** The endpoint row and the tags, before any check is looked at. */
  method UpdateRowAndTags(db: Database, slugOf: string -> string, e: EndpointDTO, last: EndpointDTO)
    returns (ok: bool, updated: Time)
    requires Valid(db.tables) && e.id in db.tables.endpoints && db.tables.endpoints[e.id].orgId == e.orgId
    requires IsView(db.tables, db.now, e.id, last)
    modifies db
    ensures db.now == updated >= old(db.now)
    ensures ok <==> NameFree(old(db.tables), e) && !("" in e.tags && "" in TagsOf(old(db.tables), e.id))
    ensures ok ==> && Valid(db.tables)
                   && db.tables
                          == old(db.tables).(endpoints := db.tables.endpoints, endpointTags := db.tables.endpointTags)
                   && SameElsewhere(old(db.tables), db.tables, e.id)
                   && db.tables.endpoints == old(db.tables.endpoints)[e.id :=
                        Endpoint(e.id, e.orgId, e.name, slugOf(e.name), old(db.tables.endpoints)[e.id].created,
                            updated)]
                   && TagsOf(db.tables, e.id) == Elements(e.tags) + TagsOf(old(db.tables), e.id) * {""}
  {
    ghost var t := db.tables;
    updated := db.Now();
    // names are unique within an org
    ok := !exists i :: i in db.tables.endpoints && i != e.id
                       && db.tables.endpoints[i].orgId == e.orgId && db.tables.endpoints[i].name == e.name;
    if !ok {
      return;
    }
    db.tables := db.tables.(endpoints := db.tables.endpoints[e.id :=
      Endpoint(e.id, e.orgId, e.name, slugOf(e.name), last.created, updated)]);
    EndpointRowKeepsValid(t, db.tables, e.id);
    assert TagsOf(db.tables, e.id) == TagsOf(t, e.id);
    ghost var u := db.tables;
    ok := UpdateEndpointTags(db, e.orgId, e.id, last.tags, e.tags);
    if ok {
      EndpointRowKeepsValid(u, db.tables, e.id);
    }
  }

  /** After the additions every position to update still addresses its row. */
  lemma UpdatesReady(x: Stages)
    requires Planned(x) && |x.stamped| == |x.planned|
    requires AddedAt(x.deleted, x.added, x.planned, x.stamped, x.adds, x.from, x.mid)
    requires x.e.id in x.added.endpoints && x.added.endpoints[x.e.id].orgId == x.e.orgId
    ensures Addressed(x.added, x.stamped, x.updates, x.e.id)
    ensures DistinctKinds(x.e.checks) ==> Apart(x.stamped, x.updates)
    ensures forall i :: i in x.updates ==> x.planned[i].id in x.t.checks
    ensures BatchUpdatable(x.added, x.stamped, x.updates) <==> BatchUpdatable(x.t, x.planned, x.updates)
  {
    forall i | i in x.updates
      ensures 0 <= i < |x.stamped| && i !in x.adds && x.stamped[i] == x.planned[i]
      ensures BelongsTo(x.added, x.stamped[i], x.e.id)
      ensures x.stamped[i].id in x.added.checks && SameSlot(x.added.checks[x.stamped[i].id], x.stamped[i])
      ensures x.planned[i].id in x.t.checks && x.added.checks[x.stamped[i].id] == x.t.checks[x.planned[i].id]
    {
      assert PlannedAt(x.last, x.e, x.slug, x.byKind, i, x.planned[i], x.adds, x.updates);
      KeptCheck(x, i);
    }
    if DistinctKinds(x.e.checks) {
      forall i, j | i in x.updates && j in x.updates && i != j
        ensures x.stamped[i].id != x.stamped[j].id
      {
        KeptApart(x, i, j);
      }
    }
  }

  /** What was planned gives the endpoint the types asked for. */
  lemma PlanReshapes(x: Stages)
    requires Planned(x) && |x.stamped| == |x.planned|
    requires AddedAt(x.deleted, x.added, x.planned, x.stamped, x.adds, x.from, x.mid)
    requires Addressed(x.added, x.stamped, x.updates, x.e.id) && RewrittenWithin(x.added, x.done, x.stamped, x.updates)
    ensures Reshaped(x.t, x.done, x.e)
  {
    forall k | k in IdsOf(x.done, x.e.id)
      ensures Asked(x.e, x.done.checks[k].kind)
    {
      assert SameSlot(x.done.checks[k], x.added.checks[k]);
      OriginOf(x, k);
    }
    forall kind | Asked(x.e, kind)
      ensures exists k :: k in IdsOf(x.done, x.e.id) && x.done.checks[k].kind == kind
    {
      var i :| 0 <= i < |x.e.checks| && x.e.checks[i].kind == kind;
      assert PlannedAt(x.last, x.e, x.slug, x.byKind, i, x.planned[i], x.adds, x.updates);
      var k := if i in x.adds then x.stamped[i].id else x.planned[i].id;
      if i !in x.adds {
        KeptCheck(x, i);
      }
      assert SameSlot(x.done.checks[k], x.added.checks[k]);
      assert k in IdsOf(x.done, x.e.id) && x.done.checks[k].kind == kind;
    }
    forall k | k in IdsOf(x.t, x.e.id) && Asked(x.e, x.t.checks[k].kind)
      ensures k in IdsOf(x.done, x.e.id) && SameSlot(x.done.checks[k], x.t.checks[k])
    {
      AskedSurvives(x, k);
      assert SameSlot(x.done.checks[k], x.added.checks[k]);
    }
  }

  /** A check of the endpoint after the additions has a type that was asked for. */
  lemma OriginOf(x: Stages, k: int)
    requires Planned(x) && |x.stamped| == |x.planned|
    requires AddedAt(x.deleted, x.added, x.planned, x.stamped, x.adds, x.from, x.mid) && k in IdsOf(x.added, x.e.id)
    ensures Asked(x.e, x.added.checks[k].kind)
  {
    var i;
    if k in x.deleted.checks {
      Survivor(x, k);
      i :| 0 <= i < |x.planned| && i !in x.adds && x.planned[i].id == k;
      KeptCheck(x, i);
    } else {
      i :| i in x.adds && x.stamped[i].id == k;
    }
    assert PlannedAt(x.last, x.e, x.slug, x.byKind, i, x.planned[i], x.adds, x.updates);
    assert x.e.checks[i].kind == x.added.checks[k].kind;
  }

  /** A stored check whose type is asked for is not deleted. */
  lemma AskedSurvives(x: Stages, k: int)
    requires Planned(x) && k in IdsOf(x.t, x.e.id) && Asked(x.e, x.t.checks[k].kind)
    ensures k in x.deleted.checks && x.deleted.checks[k] == x.t.checks[k]
  {
    ViewChecks(x.t, x.start, x.e.id, x.last);
    assert CheckKeyed(x.t, k);
    var i :| 0 <= i < |x.e.checks| && x.e.checks[i].kind == x.t.checks[k].kind;
    assert x.e.checks[i] in x.e.checks;
    forall c | c in x.last.checks && c.id == k
      ensures c == Scrutinize(x.start, x.t.checks[k])
    {
    }
  }

  /** Additions are accepted only when no new type is asked for twice. */
  lemma AddsOnce(x: Stages)
    requires Planned(x) && BatchAddable(x.deleted, x.planned, x.adds)
    ensures NewKindsOnce(x.t, x.e)
  {
    forall i, j | 0 <= i < j < |x.e.checks| && x.e.checks[i].kind == x.e.checks[j].kind
      ensures SlotTaken(x.t, Owned(x.e.checks[i], x.e))
    {
      PositionAcceptable(x, i);
      PositionAcceptable(x, j);
      assert PlannedAt(x.last, x.e, x.slug, x.byKind, i, x.planned[i], x.adds, x.updates);
      assert PlannedAt(x.last, x.e, x.slug, x.byKind, j, x.planned[j], x.adds, x.updates);
    }
  }

  /** Plans the check edits, and deletes the checks that are no longer asked for. */
  method DeleteUnasked(db: Database, last: EndpointDTO, e: EndpointDTO, slug: string, ghost t: Tables,
                       ghost start: Time)
    returns (ok: bool, planned: seq<Check>, adds: seq<int>, updates: seq<int>, ghost x: Stages)
    requires Valid(t) && IsView(t, start, e.id, last)
    requires Valid(db.tables)
    requires db.tables == t.(endpoints := db.tables.endpoints, endpointTags := db.tables.endpointTags)
    modifies db`tables
    ensures ok ==>
              && Valid(db.tables) && OnlyChecksMoved(old(db.tables), db.tables)
                     && SameElsewhere(old(db.tables), db.tables, e.id)
                   && Planned(x) && x.deleted == db.tables
                   && x == x.(t := t, last := last, e := e, slug := slug, planned := planned, adds := adds,
                          updates := updates,
                              from := old(db.now))
    ensures !ok ==> exists i :: 0 <= i < |e.checks| && !CheckAcceptable(t, Owned(e.checks[i], e))
  {
    ViewChecks(t, start, e.id, last);
    var deletes;
    ghost var byKind;
    ok, planned, adds, updates, deletes, byKind := PlanChecks(last, e, slug);
    x := Stages(t, t, t, t, last, e, slug, byKind, planned, planned, planned, adds, updates, deletes, start, db.now,
        db.now, db.now);
    if !ok {
      ghost var i :| 0 <= i < |e.checks| && e.checks[i].kind in byKind && byKind[e.checks[i].kind].id != e.checks[i].id;
      SlotByKind(t, start, last, byKind, Owned(e.checks[i], e));
      assert !CheckAcceptable(t, Owned(e.checks[i], e));
      return;
    }
    assert forall k :: k in deletes ==> k in IdsOf(t, e.id);
    DeleteChecks(db, deletes, e.id);
    x := x.(deleted := db.tables);
  }

  /** Carries out the additions and updates of a plan. */
  method AddAndUpdate(db: Database, planned: seq<Check>, adds: seq<int>, updates: seq<int>, ghost x: Stages)
    returns (ok: bool, final: seq<Check>)
    requires Planned(x) && x == x.(planned := planned, adds := adds, updates := updates)
    requires Valid(db.tables) && x.deleted == db.tables && x.from == db.now
    requires x.e.id in db.tables.endpoints && db.tables.endpoints[x.e.id].orgId == x.e.orgId
    modifies db
    ensures db.now >= old(db.now)
    ensures ok ==>
              && Valid(db.tables) && OnlyChecksMoved(old(db.tables), db.tables)
                     && SameElsewhere(old(db.tables), db.tables, x.e.id)
                   && Reshaped(x.t, db.tables, x.e) && NewKindsOnce(x.t, x.e)
    ensures ok && DistinctKinds(x.e.checks) ==> ChecksRealised(x.t, db.tables, x.e, EventOf(x.(final := final)), db.now)
    ensures NewChecksUnnumbered(x.t, x.e) && DistinctKinds(x.e.checks) ==>
              (ok <==> forall i :: 0 <= i < |x.e.checks| ==> CheckAcceptable(x.t, Owned(x.e.checks[i], x.e)))
  {
    if DistinctKinds(x.e.checks) {
      BatchesAcceptable(x);
    }
    forall i | i in adds
      ensures BelongsTo(db.tables, planned[i], x.e.id)
    {
      PositionAcceptable(x, i);
    }
    var stamped;
    ok, stamped := AddChecks(db, planned, adds, x.e.id);
    if !ok {
      return false, planned;
    }
    AddsOnce(x);
    ghost var y := x.(added := db.tables, stamped := stamped, mid := db.now);
    assert Planned(y);
    UpdatesReady(y);
    ok, final := UpdateChecks(db, stamped, updates, x.e.id);
    if !ok {
      return;
    }
    SameElsewhereTransitive(x.deleted, y.added, db.tables, x.e.id);
    y := y.(done := db.tables, final := final, to := db.now);
    assert Planned(y);
    PlanReshapes(y);
    if DistinctKinds(x.e.checks) {
      ChecksCarriedOut(y);
    }
  }

  /** The check edits, over an endpoint read as last when the store was t. */
  method ApplyChecks(db: Database, last: EndpointDTO, e: EndpointDTO, slug: string, ghost t: Tables, ghost start: Time)
    returns (r: Result<seq<Check>>)
    requires Valid(t) && IsView(t, start, e.id, last)
    requires Valid(db.tables)
    requires db.tables == t.(endpoints := db.tables.endpoints, endpointTags := db.tables.endpointTags)
    requires e.id in db.tables.endpoints && db.tables.endpoints[e.id].orgId == e.orgId
    modifies db
    ensures db.now >= old(db.now)
    ensures r.Success? ==>
              && Valid(db.tables) && OnlyChecksMoved(old(db.tables), db.tables)
                     && SameElsewhere(old(db.tables), db.tables, e.id)
              && Reshaped(t, db.tables, e) && NewKindsOnce(t, e)
    ensures r.Success? && DistinctKinds(e.checks) ==>
              ChecksRealised(t, db.tables, e,
                EndpointUpdated(last, e.(slug := slug, checks := r.value, updated := old(db.now))), db.now)
    ensures NewChecksUnnumbered(t, e) && DistinctKinds(e.checks) ==>
              (r.Success? <==> forall i :: 0 <= i < |e.checks| ==> CheckAcceptable(t, Owned(e.checks[i], e)))
    ensures r.Failure? ==> r.error != NotFound
  {
    ghost var t1 := db.tables;
    var ok, planned, adds, updates;
    ghost var x;
    ok, planned, adds, updates, x := DeleteUnasked(db, last, e, slug, t, start);
    if !ok {
      return Failure(Invalid);
    }
    ghost var t2 := db.tables;
    var final;
    ok, final := AddAndUpdate(db, planned, adds, updates, x);
    if !ok {
      return Failure(Constraint);
    }
    SameElsewhereTransitive(t1, t2, db.tables, e.id);
    r := Success(final);
  }

  /** updateEndpoint: what it changed before failing is left to the transaction to undo. */
  method ApplyUpdate(db: Database, slugOf: string -> string, e: EndpointDTO) returns (r: Result<EndpointUpdated>)
    requires Valid(db.tables)
    modifies db
    ensures db.now >= old(db.now)
    ensures r.Success? ==> && RowRealised(old(db.tables), db.tables, slugOf, e, r.value, old(db.now), db.now)
                           && Reshaped(old(db.tables), db.tables, e) && NewKindsOnce(old(db.tables), e)
                           && NameFree(old(db.tables), e)
    ensures r.Success? && DistinctKinds(e.checks) ==> ChecksRealised(old(db.tables), db.tables, e, r.value, db.now)
    ensures NewChecksUnnumbered(old(db.tables), e) && DistinctKinds(e.checks) ==>
              (r.Success? <==> Acceptable(old(db.tables), e))
    ensures r == Failure(NotFound) <==>
              !(e.id in old(db.tables.endpoints) && old(db.tables.endpoints)[e.id].orgId == e.orgId)
  {
    ghost var t, start := db.tables, db.now;
    var found := GetEndpointById(db, e.orgId, e.id);
    if found.Failure? {
      return Failure(NotFound);
    }
    var last := found.value;
    var ok, updated := UpdateRowAndTags(db, slugOf, e, last);
    if !ok {
      return Failure(Constraint);
    }
    ghost var t1 := db.tables;
    var slug := slugOf(e.name);
    var done := ApplyChecks(db, last, e, slug, t, start);
    if done.Failure? {
      return Failure(done.error);
    }
    SameElsewhereTransitive(t, t1, db.tables, e.id);
    assert TagsOf(db.tables, e.id) == TagsOf(t1, e.id);
    r := Success(EndpointUpdated(last, e.(slug := slug, checks := done.value, updated := updated)));
  }

  /** An edit in its transaction. On an error nothing changes; without one, the edit is carried
      out provided the commit succeeds, which the caller is not told: the event is published before
      the commit and tells of the edit either way. A request may repeat a type
      that the endpoint has; what is promised of every request is Reshaped, and of one that repeats
      no type that each position is realised. */
  method UpdateEndpoint(db: Database, slugOf: string -> string, e: EndpointDTO,
                        commits: bool) returns (r: Result<EndpointUpdated>)
    requires Valid(db.tables)
    modifies db
    ensures Valid(db.tables) && db.now >= old(db.now)
    ensures r.Success? ==> NewKindsOnce(old(db.tables), e) && NameFree(old(db.tables), e)
    ensures NewChecksUnnumbered(old(db.tables), e) && DistinctKinds(e.checks) ==>
              (r.Success? <==> Acceptable(old(db.tables), e))
    ensures r == Failure(NotFound) <==>
              !(e.id in old(db.tables.endpoints) && old(db.tables.endpoints)[e.id].orgId == e.orgId)
    ensures r.Failure? || !commits ==> db.tables == old(db.tables)
    ensures r.Success? && commits ==> && RowRealised(old(db.tables), db.tables, slugOf, e, r.value, old(db.now), db.now)
                                      && Reshaped(old(db.tables), db.tables, e)
    ensures r.Success? && commits && DistinctKinds(e.checks) ==>
              Realised(old(db.tables), db.tables, slugOf, e, r.value, old(db.now), db.now)
    ensures r.Success? && DistinctKinds(e.checks) ==>
              exists w :: Realised(old(db.tables), w, slugOf, e, r.value, old(db.now), db.now)
  {
    var sess := new Session(db);
    r := ApplyUpdate(db, slugOf, e);
    assert r.Success? && DistinctKinds(e.checks) ==>
        Realised(old(db.tables), db.tables, slugOf, e, r.value, old(db.now), db.now);
    if r.Success? {
      sess.Complete(commits);
    }
    sess.Cleanup();
  }

  // ---------------------------------------------------------------- creating an endpoint

  /** u is t with endpoint e created, and d tells of it. */
  ghost predicate Created(t: Tables, u: Tables, slugOf: string -> string, e: EndpointDTO, d: EndpointDTO, from: Time,
                          to: Time) {
    && Valid(u) && SameElsewhere(t, u, d.id)
    && d.id == t.nextEndpoint && u.nextEndpoint == t.nextEndpoint + 1 && t.nextCheck <= u.nextCheck
    && d == e.(id := d.id, slug := slugOf(e.name), checks := d.checks, created := d.created, updated := d.updated)
    && from <= d.created <= d.updated <= to
    && u.endpoints == t.endpoints[d.id := Endpoint(d.id, d.orgId, d.name, d.slug, d.created, d.updated)]
    && TagsOf(u, d.id) == Elements(e.tags)
    && |d.checks| == |e.checks|
    && (forall i :: 0 <= i < |e.checks| ==> WasAdded(t, u, Owned(e.checks[i], d), d.checks[i], d.updated, to))
    && DistinctIds(d.checks) && IdsOf(u, d.id) == Ids(d.checks)
  }

  ghost predicate NameUnused(t: Tables, e: EndpointDTO) {
    forall i :: i in t.endpoints && t.endpoints[i].orgId == e.orgId ==> t.endpoints[i].name != e.name
  }

  /** A request without ids conflicts with nothing stored and repeats nothing itself. */
  ghost predicate Creatable(t: Tables, e: EndpointDTO) {
    && NameUnused(t, e)
    && NoRepeats(e.tags)
    && DistinctKinds(e.checks)
    && forall c :: c in e.checks ==> RouteAccepted(UnknownRoute, c.route)
  }

  lemma NewEndpointKeepsValid(t: Tables, u: Tables, endpoint: Endpoint, tags: set<string>)
    requires Valid(t) && endpoint.id == t.nextEndpoint
    requires u == t.(endpoints := t.endpoints[endpoint.id := endpoint], nextEndpoint := t.nextEndpoint + 1,
                     endpointTags := t.endpointTags + set tag | tag in tags ::
                         EndpointTag(endpoint.orgId, endpoint.id, tag))
    ensures Valid(u) && SameElsewhere(t, u, endpoint.id)
    ensures TagsOf(u, endpoint.id) == tags && IdsOf(u, endpoint.id) == {}
  {
    forall k | k in u.checks
      ensures CheckKeyed(u, k) && u.checks[k].endpointId != endpoint.id
    {
      assert CheckKeyed(t, k);
    }
    forall k, p | k in u.checks && p in RouteIds(u.checks[k].route) && !Gone(u, p)
      ensures IdRow(k, p) in u.idIndex
    {
      assert !Gone(t, p);
    }
    forall tag | tag in tags
      ensures tag in TagsOf(u, endpoint.id)
    {
      assert EndpointTag(endpoint.orgId, endpoint.id, tag) in u.endpointTags;
    }
    assert forall k :: k in u.checks ==> k !in IdsOf(u, endpoint.id);
  }

  method Positions(n: nat) returns (all: seq<int>)
    ensures Ascending(all, n) && forall i :: 0 <= i < n ==> i in all
  {
    all := seq(n, i => i);
    forall i | 0 <= i < n
      ensures i in all
    {
      assert all[i] == i;
    }
  }

  /** The endpoint row and its tags: unique on (org_id, name) and on (endpoint_id, tag). */
  method InsertRowAndTags(db: Database, endpoint: Endpoint, tags: seq<string>) returns (ok: bool)
    requires Valid(db.tables) && endpoint.id == db.tables.nextEndpoint
    modifies db`tables
    ensures ok <==>
              (forall i :: i in old(db.tables.endpoints) && old(db.tables.endpoints)[i].orgId == endpoint.orgId ==>
                       old(db.tables.endpoints)[i].name != endpoint.name)
                    && NoRepeats(tags)
    ensures ok ==> && Valid(db.tables) && SameElsewhere(old(db.tables), db.tables, endpoint.id)
                   && db.tables
                          == old(db.tables).(endpoints := db.tables.endpoints, endpointTags := db.tables.endpointTags,
                                                   nextEndpoint := endpoint.id + 1)
                   && db.tables.endpoints == old(db.tables.endpoints)[endpoint.id := endpoint]
                   && TagsOf(db.tables, endpoint.id) == Elements(tags) && IdsOf(db.tables, endpoint.id) == {}
  {
    ghost var t := db.tables;
    ok := !exists i :: i in db.tables.endpoints && db.tables.endpoints[i].orgId == endpoint.orgId
                       && db.tables.endpoints[i].name == endpoint.name;
    if !ok {
      return;
    }
    db.tables := db.tables.(endpoints := db.tables.endpoints[endpoint.id := endpoint],
        nextEndpoint := db.tables.nextEndpoint + 1);
    ok := NoRepeats(tags);
    if ok {
      db.tables := db.tables.(endpointTags := db.tables.endpointTags
                                + set tag | tag in Elements(tags) :: EndpointTag(endpoint.orgId, endpoint.id, tag));
      NewEndpointKeepsValid(t, db.tables, endpoint, Elements(tags));
    }
  }

  method ApplyCreate(db: Database, slugOf: string -> string, e: EndpointDTO) returns (r: Result<EndpointDTO>)
    requires Valid(db.tables)
    modifies db
    ensures db.now >= old(db.now)
    ensures r.Success? ==> && Created(old(db.tables), db.tables, slugOf, e, r.value, old(db.now), db.now)
                           && NameUnused(old(db.tables), e)
    ensures (forall c :: c in e.checks ==> c.id == 0) ==> (r.Success? <==> Creatable(old(db.tables), e))
  {
    ghost var t := db.tables;
    var created := db.Now();
    var updated := db.Now();
    var endpoint := Endpoint(db.tables.nextEndpoint, e.orgId, e.name, slugOf(e.name), created, updated);
    var ok := InsertRowAndTags(db, endpoint, e.tags);
    if !ok {
      return Failure(Constraint);
    }
    var d := e.(id := endpoint.id, slug := endpoint.slug, created := created, updated := updated);
    ghost var u := db.tables;
    var final;
    ok, final := InsertChecks(db, e, d);
    if !ok {
      return Failure(Constraint);
    }
    SameElsewhereTransitive(t, u, db.tables, d.id);
    assert TagsOf(db.tables, d.id) == TagsOf(u, d.id);
    forall i | 0 <= i < |e.checks|
      ensures WasAdded(t, db.tables, Owned(e.checks[i], d), final[i], d.updated, db.now)
    {
      assert WasAdded(u, db.tables, Owned(e.checks[i], d), final[i], d.updated, db.now);
    }
    r := Success(d.(checks := final));
  }

  /** Every check of the request, added to the endpoint d that was just created. */
  method InsertChecks(db: Database, e: EndpointDTO, d: EndpointDTO) returns (ok: bool, final: seq<Check>)
    requires Valid(db.tables) && d.id in db.tables.endpoints && db.tables.endpoints[d.id].orgId == d.orgId
    requires IdsOf(db.tables, d.id) == {} && d.updated == db.now
    modifies db
    ensures db.now >= old(db.now)
    ensures ok ==>
              && Valid(db.tables) && OnlyChecksMoved(old(db.tables), db.tables)
                     && SameElsewhere(old(db.tables), db.tables, d.id)
                   && |final| == |e.checks| && DistinctIds(final) && IdsOf(db.tables, d.id) == Ids(final)
    ensures ok ==> forall i :: 0 <= i < |e.checks| ==>
              WasAdded(old(db.tables), db.tables, Owned(e.checks[i], d), final[i], d.updated, db.now)
    ensures (forall c :: c in e.checks ==> c.id == 0) ==>
              (ok <==> DistinctKinds(e.checks) && forall c :: c in e.checks ==> RouteAccepted(UnknownRoute, c.route))
  {
    ghost var u := db.tables;
    var before := seq(|e.checks|, i requires 0 <= i < |e.checks| => Owned(e.checks[i], d));
    var all := Positions(|e.checks|);
    ok, final := AddChecks(db, before, all, d.id);
    NewBatchAddable(u, e, d, before, all);
    if ok {
      BatchIsEndpoint(u, db.tables, before, final, all, d.id, d.updated, db.now);
      forall i | 0 <= i < |e.checks|
        ensures WasAdded(u, db.tables, Owned(e.checks[i], d), final[i], d.updated, db.now)
      {
        assert i in all;
        assert forall k :: k in u.checks ==> k !in IdsOf(u, d.id);
      }
    }
  }

  lemma NewBatchAddable(u: Tables, e: EndpointDTO, d: EndpointDTO, before: seq<Check>, all: seq<int>)
    requires |before| == |e.checks| && Ascending(all, |before|) && forall i :: 0 <= i < |before| ==> i in all
    requires forall i :: 0 <= i < |before| ==> before[i] == Owned(e.checks[i], d)
    requires IdsOf(u, d.id) == {}
    ensures BatchAddable(u, before, all) <==>
            DistinctKinds(e.checks) && forall c :: c in e.checks ==> RouteAccepted(UnknownRoute, c.route)
  {
    if BatchAddable(u, before, all) {
      forall i, j | 0 <= i < j < |e.checks|
        ensures e.checks[i].kind != e.checks[j].kind
      {
        assert i in all && j in all && !SameSlot(before[i], before[j]);
      }
      forall c | c in e.checks
        ensures RouteAccepted(UnknownRoute, c.route)
      {
        var i :| 0 <= i < |e.checks| && e.checks[i] == c;
        assert RouteAccepted(UnknownRoute, before[i].route);
      }
    }
    forall i, k | i in all && k in u.checks
      ensures !SameSlot(u.checks[k], before[i])
    {
      assert k !in IdsOf(u, d.id);
    }
    if DistinctKinds(e.checks) {
      forall i, j | i in all && j in all && i != j
        ensures !SameSlot(before[i], before[j])
      {
        assert e.checks[i].kind != e.checks[j].kind;
      }
    }
  }

  lemma AllDistinct(final: seq<Check>, all: seq<int>)
    requires forall i :: i in all <==> 0 <= i < |final|
    requires forall i, j :: i in all && j in all && i != j ==> final[i].id != final[j].id
    ensures DistinctIds(final)
  {
  }

  lemma BatchIsEndpoint(u: Tables, v: Tables, before: seq<Check>, final: seq<Check>, all: seq<int>, e: int, from: Time,
                        to: Time)
    requires |before| == |final| && Ascending(all, |before|) && forall i :: 0 <= i < |before| ==> i in all
    requires forall i :: 0 <= i < |before| ==> before[i].endpointId == e
    requires AddedAt(u, v, before, final, all, from, to) && IdsOf(u, e) == {}
    ensures DistinctIds(final) && IdsOf(v, e) == Ids(final)
  {
    AllDistinct(final, all);
    forall k | k in IdsOf(v, e)
      ensures k in Ids(final)
    {
      assert k !in IdsOf(u, e);
      var i :| i in all && final[i].id == k;
      assert final[i] in final;
    }
    forall c | c in final
      ensures c.id in IdsOf(v, e)
    {
      var i :| 0 <= i < |final| && final[i] == c;
      assert i in all;
    }
  }

  method AddEndpoint(db: Database, slugOf: string -> string, e: EndpointDTO,
                     commits: bool) returns (r: Result<EndpointDTO>)
    requires Valid(db.tables)
    modifies db
    ensures Valid(db.tables) && db.now >= old(db.now)
    ensures r.Success? ==> NameUnused(old(db.tables), e)
    ensures (forall c :: c in e.checks ==> c.id == 0) ==> (r.Success? <==> Creatable(old(db.tables), e))
    ensures r.Failure? || !commits ==> db.tables == old(db.tables)
    ensures r.Success? && commits ==> Created(old(db.tables), db.tables, slugOf, e, r.value, old(db.now), db.now)
    ensures r.Success? ==> exists w :: Created(old(db.tables), w, slugOf, e, r.value, old(db.now), db.now)
  {
    var sess := new Session(db);
    r := ApplyCreate(db, slugOf, e);
    assert r.Success? ==> Created(old(db.tables), db.tables, slugOf, e, r.value, old(db.now), db.now);
    if r.Success? {
      sess.Complete(commits);
    }
    sess.Cleanup();
  }

  // ---------------------------------------------------------------- deleting an endpoint

  /** u is t without endpoint e, its tags, its checks and their index rows; d shows what it was. */
  ghost predicate Deleted(t: Tables, u: Tables, e: int, d: EndpointDTO, now: Time) {
    && Valid(u) && SameElsewhere(t, u, e)
    && u.endpoints == t.endpoints - {e} && u.nextEndpoint == t.nextEndpoint && u.nextCheck == t.nextCheck
    && TagsOf(u, e) == {} && IdsOf(u, e) == {}
    && IsView(t, now, e, d)
  }

  /** deleteCheck for each of the checks; w is the store apart from the endpoint and tag rows. */
  method DeleteEach(db: Database, checks: seq<Check>, ghost id: int, ghost t: Tables)
    requires Valid(t) && forall c :: c in checks ==> c.id in IdsOf(t, id)
    requires db.tables == t.(endpoints := db.tables.endpoints, endpointTags := db.tables.endpointTags)
    modifies db`tables
    ensures var w := db.tables.(endpoints := t.endpoints, endpointTags := t.endpointTags);
            Valid(w) && SameElsewhere(t, w, id) && OnlyChecksMoved(t, w) && w.nextCheck == t.nextCheck
            && w.checks == t.checks - Ids(checks)
    ensures db.tables.endpoints == old(db.tables.endpoints) && db.tables.endpointTags == old(db.tables.endpointTags)
  {
    ghost var rows, w := db.tables, t;
    for i := 0 to |checks|
      invariant Valid(w) && SameElsewhere(t, w, id) && OnlyChecksMoved(t, w) && w.nextCheck == t.nextCheck
      invariant db.tables == w.(endpoints := rows.endpoints, endpointTags := rows.endpointTags)
      invariant w.checks == t.checks - Ids(checks[..i])
    {
      var k := checks[i].id;
      assert checks[i] in checks;
      assert checks[..i + 1] == checks[..i] + [checks[i]];
      assert Ids(checks[..i + 1]) == Ids(checks[..i]) + {k};
      OneLess(t, w, k, id);
      DeleteCheck(db, k);
      w := WithoutCheck(w, k);
    }
    assert checks[..|checks|] == checks;
  }

  lemma OneLess(t: Tables, w: Tables, k: int, e: int)
    requires Valid(w) && SameElsewhere(t, w, e) && OnlyChecksMoved(t, w) && k in IdsOf(t, e)
    ensures var v := WithoutCheck(w, k);
            Valid(v) && SameElsewhere(t, v, e) && OnlyChecksMoved(t, v) && v.nextCheck == w.nextCheck
                && v.checks == w.checks - {k}
  {
    WithoutCheckKeepsValid(w, k);
    if k in w.checks {
      assert !OfOther(w, k, e);
      WithoutCheckElsewhere(w, k);
      SameElsewhereTransitive(t, w, WithoutCheck(w, k), e);
    } else {
      WithoutAbsent(w, k);
    }
  }

  method ApplyDelete(db: Database, orgId: int, id: int) returns (r: Result<EndpointDTO>)
    requires Valid(db.tables)
    modifies db`tables
    ensures r.Success? <==> id in old(db.tables.endpoints) && old(db.tables.endpoints)[id].orgId == orgId
    ensures r.Failure? ==> r.error == NotFound
    ensures r.Success? ==> Deleted(old(db.tables), db.tables, id, r.value, db.now)
  {
    ghost var t := db.tables;
    r := GetEndpointById(db, orgId, id);
    if r.Failure? {
      return;
    }
    var existing := r.value;
    db.tables := db.tables.(endpoints := db.tables.endpoints - {id});
    db.tables := db.tables.(endpointTags := set r | r in db.tables.endpointTags
        && !(r.endpointId == id && r.orgId == orgId));
    ghost var rows := db.tables;
    AllChecksListed(t, db.now, id, existing);
    DeleteEach(db, existing.checks, id, t);
    ghost var w := db.tables.(endpoints := t.endpoints, endpointTags := t.endpointTags);
    assert IdsOf(w, id) == {};
    ChecksGone(w, db.tables, id, orgId);
    SameElsewhereTransitive(t, w, db.tables, id);
  }

  lemma AllChecksListed(t: Tables, now: Time, e: int, d: EndpointDTO)
    requires Valid(t) && IsView(t, now, e, d)
    ensures Ids(d.checks) == IdsOf(t, e)
    ensures forall c :: c in d.checks ==> c.id in IdsOf(t, e)
  {
    ViewChecks(t, now, e, d);
    forall k | k in IdsOf(t, e)
      ensures k in Ids(d.checks)
    {
      assert CheckKeyed(t, k);
      assert Scrutinize(now, t.checks[k]) in d.checks;
    }
  }

  lemma WithoutAbsent(t: Tables, k: int)
    requires Valid(t) && k !in t.checks
    ensures WithoutCheck(t, k) == t
  {
  }

  /** Once an endpoint has no checks, its row and tags can go. */
  lemma ChecksGone(w: Tables, u: Tables, e: int, org: int)
    requires Valid(w) && IdsOf(w, e) == {} && e in w.endpoints && w.endpoints[e].orgId == org
    requires u == w.(endpoints := w.endpoints - {e},
                     endpointTags := set r | r in w.endpointTags && !(r.endpointId == e && r.orgId == org))
    ensures Valid(u) && SameElsewhere(w, u, e)
    ensures TagsOf(u, e) == {} && IdsOf(u, e) == {}
  {
    forall k | k in u.checks
      ensures CheckKeyed(u, k) && u.checks[k].endpointId != e
    {
      assert CheckKeyed(w, k) && k !in IdsOf(w, e);
    }
    forall k, p | k in u.checks && p in RouteIds(u.checks[k].route) && !Gone(u, p)
      ensures IdRow(k, p) in u.idIndex
    {
      assert !Gone(w, p);
    }
  }

  method DeleteEndpoint(db: Database, orgId: int, id: int, commits: bool) returns (r: Result<EndpointDTO>)
    requires Valid(db.tables)
    modifies db
    ensures Valid(db.tables) && db.now == old(db.now)
    ensures r.Success? <==> id in old(db.tables.endpoints) && old(db.tables.endpoints)[id].orgId == orgId
    ensures r.Failure? || !commits ==> db.tables == old(db.tables)
    ensures r.Success? && commits ==> Deleted(old(db.tables), db.tables, id, r.value, db.now)
    ensures r.Success? ==> exists w :: Deleted(old(db.tables), w, id, r.value, db.now)
  {
    var sess := new Session(db);
    r := ApplyDelete(db, orgId, id);
    assert r.Success? ==> Deleted(old(db.tables), db.tables, id, r.value, db.now);
    if r.Success? {
      sess.Complete(commits);
    }
    sess.Cleanup();
  }
}
