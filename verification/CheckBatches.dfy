/** Deleting, adding and updating several checks of one endpoint in a row, as updateEndpoint and
    addEndpoint do (endpoint.go). */
module CheckBatches {
  import opened Model
  import opened Database
  import opened RouteIndex

  ghost predicate OfOther(t: Tables, k: int, e: int) {
    k in t.checks && t.checks[k].endpointId != e
  }

  /** Nothing outside endpoint e differs between t and u: rows, tags, checks, index entries. */
  ghost predicate SameElsewhere(t: Tables, u: Tables, e: int) {
    && u.probes == t.probes && u.probeTags == t.probeTags && u.sessions == t.sessions
    && u.nextProbe == t.nextProbe && u.nextSession == t.nextSession
    && u.endpoints - {e} == t.endpoints - {e}
    && (forall r: EndpointTag :: r.endpointId != e ==> (r in u.endpointTags <==> r in t.endpointTags))
    && (forall k :: OfOther(t, k, e) ==> OfOther(u, k, e) && u.checks[k] == t.checks[k])
    && (forall k :: OfOther(u, k, e) ==> OfOther(t, k, e))
    && (forall r: IdRow :: OfOther(t, r.checkId, e) ==> (r in u.idIndex <==> r in t.idIndex))
    && (forall r: TagRow :: OfOther(t, r.checkId, e) ==> (r in u.tagIndex <==> r in t.tagIndex))
  }

  lemma SameElsewhereTransitive(t: Tables, u: Tables, v: Tables, e: int)
    requires SameElsewhere(t, u, e) && SameElsewhere(u, v, e)
    ensures SameElsewhere(t, v, e)
  {
  }

  /** Only checks, index rows and the check counter differ. */
  ghost predicate OnlyChecksMoved(t: Tables, u: Tables) {
    u == t.(checks := u.checks, idIndex := u.idIndex, tagIndex := u.tagIndex, nextCheck := u.nextCheck)
    && t.nextCheck <= u.nextCheck
  }

  /** One more check of endpoint e written. */
  lemma StillElsewhere(t: Tables, u: Tables, c: Check, e: int)
    requires OnlyChecksMoved(t, u) && SameElsewhere(t, u, e) && c.endpointId == e
    requires c.id in u.checks ==> u.checks[c.id].endpointId == e
    ensures OnlyChecksMoved(t, WithCheck(u, c)) && SameElsewhere(t, WithCheck(u, c), e)
  {
  }

  lemma WithoutCheckElsewhere(t: Tables, k: int)
    requires k in t.checks
    ensures SameElsewhere(t, WithoutCheck(t, k), t.checks[k].endpointId)
  {
  }

  /** The id rows of check k in u are the entries of its route, except that an entry its route had
      in t without a row, because the probe was deleted, stays without. */
  ghost predicate RowsFollow(t: Tables, u: Tables, k: int)
    requires k in u.checks
  {
    forall p :: IdRow(k, p) in u.idIndex <==>
      p in RouteIds(u.checks[k].route) && (p in RouteIds(StoredRoute(t, k)) ==> IdRow(k, p) in t.idIndex)
  }

  ghost predicate RowsMoved(t: Tables, u: Tables) {
    forall k :: k in u.checks ==> RowsFollow(t, u, k)
  }

  lemma NoRowsMoved(t: Tables)
    requires Valid(t)
    ensures RowsMoved(t, t)
  {
  }

  /** One more check written, which is in u as it is in t. */
  lemma RowsStillMoved(t: Tables, u: Tables, c: Check)
    requires Valid(u) && RowsMoved(t, u)
    requires if c.id in u.checks then c.id in t.checks && u.checks[c.id] == t.checks[c.id] else c.id !in t.checks
    ensures RowsMoved(t, WithCheck(u, c))
  {
    var v := WithCheck(u, c);
    forall k | k in v.checks
      ensures RowsFollow(t, v, k)
    {
      assert k in u.checks ==> RowsFollow(t, u, k);
    }
  }

  // ---------------------------------------------------------------- deleting

  ghost predicate SameRowsOf(t: Tables, u: Tables, ids: set<int>) {
    forall k, p :: k in ids ==> (IdRow(k, p) in u.idIndex <==> IdRow(k, p) in t.idIndex)
  }

  method DeleteChecks(db: Database, ids: set<int>, ghost e: int)
    requires Valid(db.tables)
    requires forall k :: k in ids ==> k in db.tables.checks && db.tables.checks[k].endpointId == e
    modifies db`tables
    ensures Valid(db.tables)
    ensures db.tables.checks == old(db.tables.checks) - ids
    ensures OnlyChecksMoved(old(db.tables), db.tables) && db.tables.nextCheck == old(db.tables.nextCheck)
    ensures SameElsewhere(old(db.tables), db.tables, e) && SameRowsOf(old(db.tables), db.tables, db.tables.checks.Keys)
  {
    ghost var t := db.tables;
    var rest := ids;
    while rest != {}
      invariant rest <= ids && Valid(db.tables)
      invariant db.tables.checks == t.checks - (ids - rest)
      invariant OnlyChecksMoved(t, db.tables) && db.tables.nextCheck == t.nextCheck
      invariant SameElsewhere(t, db.tables, e) && SameRowsOf(t, db.tables, db.tables.checks.Keys)
      decreases rest
    {
      var k := Pick(rest);
      ghost var u := db.tables;
      WithoutCheckKeepsValid(u, k);
      DeleteCheck(db, k);
      WithoutCheckElsewhere(u, k);
      SameElsewhereTransitive(t, u, db.tables, e);
      rest := rest - {k};
    }
  }

  // ---------------------------------------------------------------- adding

  ghost predicate BelongsTo(t: Tables, c: Check, e: int) {
    c.endpointId == e && e in t.endpoints && t.endpoints[e].orgId == c.orgId
  }

  /** The positions in chosen have been added: stamped in cur over before, and stored in u over t. */
  ghost predicate AddedAt(t: Tables, u: Tables, before: seq<Check>, cur: seq<Check>, chosen: seq<int>, from: Time,
                          to: Time)
    requires |before| == |cur|
    requires forall i :: i in chosen ==> 0 <= i < |cur|
  {
    && (forall i :: 0 <= i < |cur| && i !in chosen ==> cur[i] == before[i])
    && (forall i :: i in chosen ==>
          && StampedNew(before[i], cur[i], from, to)
          && (if before[i].id == 0 then t.nextCheck <= cur[i].id else cur[i].id == before[i].id)
          && cur[i].id !in t.checks && cur[i].id in u.checks && u.checks[cur[i].id] == cur[i])
    && (forall i, j :: i in chosen && j in chosen && i != j ==> cur[i].id != cur[j].id)
    && (forall k :: k in t.checks ==> k in u.checks && u.checks[k] == t.checks[k])
    && (forall k :: k in u.checks && k !in t.checks ==> exists i :: i in chosen && cur[i].id == k)
    && RowsMoved(t, u)
  }

  /** When no id is asked for, the batch is accepted exactly on these conditions. */
  ghost predicate BatchAddable(t: Tables, cur: seq<Check>, chosen: seq<int>)
    requires forall i :: i in chosen ==> 0 <= i < |cur|
  {
    && (forall i, j :: i in chosen && j in chosen && i != j ==> !SameSlot(cur[i], cur[j]))
    && (forall i :: i in chosen ==> RouteAccepted(UnknownRoute, cur[i].route))
    && (forall i, k :: i in chosen && k in t.checks ==> !SameSlot(t.checks[k], cur[i]))
  }

  /** Where a check that was not there before comes from, with one more position added. */
  lemma AddedFrom(t: Tables, u: Tables, v: Tables, cur: seq<Check>, chosen: seq<int>, i: int, c: Check, k: int)
    requires 0 <= i < |cur| && i !in chosen
    requires forall j :: j in chosen ==> 0 <= j < |cur|
    requires k in u.checks && k !in t.checks ==> exists j :: j in chosen && cur[j].id == k
    requires v.checks == u.checks[c.id := c] && k in v.checks && k !in t.checks
    ensures exists j :: j in chosen + [i] && cur[i := c][j].id == k
  {
    var next, more := cur[i := c], chosen + [i];
    if k == c.id {
      assert i in more && next[i].id == k;
    } else {
      var j :| j in chosen && cur[j].id == k;
      assert j in more && next[j].id == k;
    }
  }

  lemma DistinctOneMore(u: Tables, cur: seq<Check>, chosen: seq<int>, i: int, c: Check)
    requires 0 <= i < |cur| && i !in chosen && c.id !in u.checks
    requires forall j :: j in chosen ==> 0 <= j < |cur| && cur[j].id in u.checks
    requires forall j, l :: j in chosen && l in chosen && j != l ==> cur[j].id != cur[l].id
    ensures forall j, l :: j in chosen + [i] && l in chosen + [i] && j != l ==> cur[i := c][j].id != cur[i := c][l].id
  {
  }

  lemma AddedOneMore(t: Tables, u: Tables, v: Tables, before: seq<Check>, cur: seq<Check>, chosen: seq<int>, i: int,
                     c: Check, from: Time, mid: Time, to: Time)
    requires |before| == |cur| && 0 <= i < |cur| && i !in chosen
    requires forall j :: j in chosen ==> 0 <= j < |cur|
    requires AddedAt(t, u, before, cur, chosen, from, mid) && from <= mid <= to
    requires StampedNew(before[i], c, mid, to) && c.id !in u.checks
    requires if before[i].id == 0 then t.nextCheck <= c.id else c.id == before[i].id
    requires v.checks == u.checks[c.id := c] && RowsMoved(t, v)
    ensures AddedAt(t, v, before, cur[i := c], chosen + [i], from, to)
  {
    var next, more := cur[i := c], chosen + [i];
    forall j | j in more
      ensures StampedNew(before[j], next[j], from, to) && next[j].id !in t.checks
      ensures next[j].id in v.checks && v.checks[next[j].id] == next[j]
      ensures if before[j].id == 0 then t.nextCheck <= next[j].id else next[j].id == before[j].id
    {
      if j != i {
        assert j in chosen && next[j] == cur[j];
      }
    }
    DistinctOneMore(u, cur, chosen, i, c);
    forall k | k in v.checks && k !in t.checks
      ensures exists j :: j in more && next[j].id == k
    {
      AddedFrom(t, u, v, cur, chosen, i, c, k);
    }
  }

  /** The slot of position i is free in u just when it is free in t and wanted by no earlier position. */
  lemma AddableNext(t: Tables, u: Tables, before: seq<Check>, cur: seq<Check>, chosen: seq<int>, i: int, from: Time,
                    to: Time)
    requires |before| == |cur| && 0 <= i < |cur| && i !in chosen
    requires forall j :: j in chosen ==> 0 <= j < |cur|
    requires AddedAt(t, u, before, cur, chosen, from, to) && BatchAddable(t, before, chosen)
    ensures Addable(u, before[i]) ==> BatchAddable(t, before, chosen + [i])
    ensures before[i].id == 0 && BatchAddable(t, before, chosen + [i]) ==> Addable(u, before[i])
  {
  }

  lemma PartOfBatch(t: Tables, cur: seq<Check>, part: seq<int>, chosen: seq<int>)
    requires forall i :: i in chosen ==> 0 <= i < |cur|
    requires forall i :: i in part ==> i in chosen
    requires BatchAddable(t, cur, chosen)
    ensures BatchAddable(t, cur, part)
  {
  }

  /** The positions in done have been added, each in its turn. */
  ghost predicate Adding(t: Tables, u: Tables, before: seq<Check>, cur: seq<Check>, done: seq<int>, e: int, from: Time,
                         to: Time)
    requires forall j :: j in done ==> 0 <= j < |before|
  {
    && |cur| == |before| && Valid(u) && OnlyChecksMoved(t, u) && SameElsewhere(t, u, e)
    && AddedAt(t, u, before, cur, done, from, to) && BatchAddable(t, before, done)
  }

  lemma AddStep(t: Tables, u: Tables, before: seq<Check>, cur: seq<Check>, done: seq<int>, i: int, c: Check, e: int,
                from: Time, mid: Time, to: Time)
    requires 0 <= i < |before| && i !in done && forall j :: j in done ==> 0 <= j < |before|
    requires Adding(t, u, before, cur, done, e, from, mid) && from <= mid <= to && BatchAddable(t, before, done + [i])
    requires StampedNew(before[i], c, mid, to) && c.id !in u.checks && c.endpointId == e && Valid(WithCheck(u, c))
    requires c.id == if before[i].id == 0 then u.nextCheck else before[i].id
    ensures Adding(t, WithCheck(u, c), before, cur[i := c], done + [i], e, from, to)
  {
    var v := WithCheck(u, c);
    assert OnlyChecksMoved(t, v) && SameElsewhere(t, v, e) by {
      StillElsewhere(t, u, c, e);
    }
    assert RowsMoved(t, v) by {
      RowsStillMoved(t, u, c);
    }
    AddedOneMore(t, u, v, before, cur, done, i, c, from, mid, to);
  }

  /** Adds one more check. */
  method AddOne(db: Database, ghost t: Tables, before: seq<Check>, cur: seq<Check>, ghost done: seq<int>, i: int,
                ghost e: int, ghost from: Time)
    returns (ok: bool, next: seq<Check>)
    requires 0 <= i < |before| && i !in done && forall j :: j in done ==> 0 <= j < |before|
    requires BelongsTo(db.tables, before[i], e)
    requires Adding(t, db.tables, before, cur, done, e, from, db.now) && from <= db.now
    modifies db
    ensures db.now >= old(db.now) && |next| == |before|
    ensures ok ==> Adding(t, db.tables, before, next, done + [i], e, from, db.now)
    ensures before[i].id == 0 && BatchAddable(t, before, done + [i]) ==> ok
  {
    ghost var u, mid := db.tables, db.now;
    AddableNext(t, u, before, cur, done, i, from, mid);
    var r := AddCheck(db, cur[i]);
    if r.Failure? {
      return false, cur;
    }
    AddStep(t, u, before, cur, done, i, r.value, e, from, mid, db.now);
    return true, cur[i := r.value];
  }

  method AddChecks(db: Database, before: seq<Check>, chosen: seq<int>, ghost e: int)
    returns (ok: bool, cur: seq<Check>)
    requires Valid(db.tables)
    requires NoRepeats(chosen)
    requires forall i :: i in chosen ==> 0 <= i < |before| && BelongsTo(db.tables, before[i], e)
    modifies db
    ensures db.now >= old(db.now)
    ensures |cur| == |before|
    ensures ok ==>
              Valid(db.tables) && OnlyChecksMoved(old(db.tables), db.tables)
              && SameElsewhere(old(db.tables), db.tables, e)
    ensures ok ==> AddedAt(old(db.tables), db.tables, before, cur, chosen, old(db.now), db.now)
                   && BatchAddable(old(db.tables), before, chosen)
    ensures (forall i :: i in chosen ==> before[i].id == 0) ==> (ok <==> BatchAddable(old(db.tables), before, chosen))
  {
    ghost var t, from := db.tables, db.now;
    NoRowsMoved(t);
    cur := before;
    ok := true;
    for n := 0 to |chosen|
      invariant ok && db.now >= from
      invariant forall j :: j in chosen[..n] ==> j in chosen
      invariant Adding(t, db.tables, before, cur, chosen[..n], e, from, db.now)
    {
      var i := chosen[n];
      assert i in chosen && chosen[..n + 1] == chosen[..n] + [i];
      assert BelongsTo(t, before[i], e);
      ok, cur := AddOne(db, t, before, cur, chosen[..n], i, e, from);
      if !ok {
        if BatchAddable(t, before, chosen) {
          PartOfBatch(t, before, chosen[..n + 1], chosen);
        }
        return;
      }
    }
    assert chosen[..|chosen|] == chosen;
  }

  // ---------------------------------------------------------------- updating

  /** The positions in chosen have been rewritten: stamped in cur over before, and stored in u over t. */
  ghost predicate RewrittenAt(t: Tables, u: Tables, before: seq<Check>, cur: seq<Check>, chosen: seq<int>, from: Time,
                              to: Time)
    requires |before| == |cur|
    requires forall i :: i in chosen ==> 0 <= i < |cur| && before[i].id in t.checks
  {
    && u.checks.Keys == t.checks.Keys
    && (forall i :: 0 <= i < |cur| && i !in chosen ==> cur[i] == before[i])
    && (forall i :: i in chosen ==>
          && StampedUpdate(t.checks[before[i].id], before[i], cur[i], from, to)
          && u.checks[before[i].id] == cur[i])
    && (forall k :: k in t.checks && (forall i :: i in chosen ==> before[i].id != k) ==> u.checks[k] == t.checks[k])
    && RowsMoved(t, u)
  }

  ghost predicate BatchUpdatable(t: Tables, before: seq<Check>, chosen: seq<int>)
    requires forall i :: i in chosen ==> 0 <= i < |before| && before[i].id in t.checks
  {
    forall i :: i in chosen ==> RouteAccepted(t.checks[before[i].id].route, before[i].route)
  }

  lemma RewrittenOneMore(t: Tables, u: Tables, v: Tables, before: seq<Check>, cur: seq<Check>, chosen: seq<int>, i: int,
                         c: Check, from: Time, mid: Time, to: Time)
    requires |before| == |cur| && 0 <= i < |cur| && i !in chosen && before[i].id in t.checks
    requires forall j :: j in chosen ==> 0 <= j < |cur| && before[j].id in t.checks && before[j].id != before[i].id
    requires RewrittenAt(t, u, before, cur, chosen, from, mid) && from <= mid <= to
    requires StampedUpdate(t.checks[before[i].id], before[i], c, mid, to)
    requires v.checks == u.checks[before[i].id := c] && RowsMoved(t, v)
    ensures RewrittenAt(t, v, before, cur[i := c], chosen + [i], from, to)
  {
  }

  /** The chosen positions address different checks. */
  ghost predicate Apart(before: seq<Check>, chosen: seq<int>)
    requires forall i :: i in chosen ==> 0 <= i < |before|
  {
    forall i, j :: i in chosen && j in chosen && i != j ==> before[i].id != before[j].id
  }

  /** The same checks in the same slots; only those that chosen positions address may have changed. */
  ghost predicate RewrittenWithin(t: Tables, u: Tables, before: seq<Check>, chosen: seq<int>)
    requires forall i :: i in chosen ==> 0 <= i < |before|
  {
    && u.checks.Keys == t.checks.Keys
    && forall k :: k in t.checks ==>
         && SameSlot(u.checks[k], t.checks[k])
         && ((forall i :: i in chosen ==> before[i].id != k) ==> u.checks[k] == t.checks[k])
  }

  lemma RewrittenWithinMore(t: Tables, u: Tables, v: Tables, before: seq<Check>, chosen: seq<int>, i: int, c: Check)
    requires forall j :: j in chosen ==> 0 <= j < |before|
    requires RewrittenWithin(t, u, before, chosen) && 0 <= i < |before|
    requires before[i].id in u.checks && SameSlot(u.checks[before[i].id], c) && v.checks == u.checks[before[i].id := c]
    ensures RewrittenWithin(t, v, before, chosen + [i])
  {
    forall k | k in t.checks && forall j :: j in chosen + [i] ==> before[j].id != k
      ensures v.checks[k] == t.checks[k]
    {
      assert i in chosen + [i];
      forall j | j in chosen
        ensures before[j].id != k
      {
        assert j in chosen + [i];
      }
    }
  }

  /** What the chosen positions must be for the checks of t. */
  ghost predicate Addressed(t: Tables, before: seq<Check>, chosen: seq<int>, e: int) {
    forall i :: i in chosen ==>
      && 0 <= i < |before| && BelongsTo(t, before[i], e)
      && before[i].id in t.checks && SameSlot(t.checks[before[i].id], before[i])
  }

  /** The positions in done have been rewritten, each in its turn. */
  ghost predicate Rewriting(t: Tables, u: Tables, before: seq<Check>, cur: seq<Check>, done: seq<int>, e: int,
                            apart: bool, from: Time, to: Time)
    requires Addressed(t, before, done, e)
  {
    && |cur| == |before| && Valid(u) && OnlyChecksMoved(t, u) && SameElsewhere(t, u, e)
    && (forall j :: 0 <= j < |cur| && j !in done ==> cur[j] == before[j])
    && RewrittenWithin(t, u, before, done)
    && (apart ==> RewrittenAt(t, u, before, cur, done, from, to) && BatchUpdatable(t, before, done))
  }

  lemma RewriteStepApart(t: Tables, u: Tables, before: seq<Check>, cur: seq<Check>, done: seq<int>, i: int, c: Check,
                         e: int, from: Time, mid: Time, to: Time)
    requires 0 <= i < |before| && Addressed(t, before, done + [i], e) && Addressed(t, before, done, e) && i !in done
    requires Apart(before, done + [i]) && |cur| == |before| && Valid(u)
    requires RewrittenAt(t, u, before, cur, done, from, mid) && BatchUpdatable(t, before, done) && from <= mid <= to
    requires StampedUpdate(u.checks[before[i].id], before[i], c, mid, to)
    requires RouteAccepted(u.checks[before[i].id].route, before[i].route)
    ensures RewrittenAt(t, WithCheck(u, c), before, cur[i := c], done + [i], from, to)
    ensures BatchUpdatable(t, before, done + [i])
  {
    assert i in done + [i];
    assert forall j :: j in done ==> j in done + [i] && before[j].id != before[i].id;
    RowsStillMoved(t, u, c);
    RewrittenOneMore(t, u, WithCheck(u, c), before, cur, done, i, c, from, mid, to);
  }

  /** One position more. */
  lemma RewriteStep(t: Tables, u: Tables, before: seq<Check>, cur: seq<Check>, done: seq<int>, i: int, c: Check, e: int,
                    apart: bool, from: Time, mid: Time, to: Time)
    requires 0 <= i < |before| && i !in done
    requires Valid(t) && Addressed(t, before, done + [i], e) && Addressed(t, before, done, e)
    requires apart ==> Apart(before, done + [i])
    requires Rewriting(t, u, before, cur, done, e, apart, from, mid) && from <= mid <= to
    requires before[i].id in u.checks && StampedUpdate(u.checks[before[i].id], before[i], c, mid, to)
    requires RouteAccepted(u.checks[before[i].id].route, before[i].route) && Valid(WithCheck(u, c))
    ensures Rewriting(t, WithCheck(u, c), before, cur[i := c], done + [i], e, apart, from, to)
  {
    var v := WithCheck(u, c);
    assert i in done + [i];
    assert OnlyChecksMoved(t, v) && SameElsewhere(t, v, e) by {
      StillElsewhere(t, u, c, e);
    }
    assert RewrittenWithin(t, v, before, done + [i]) by {
      RewrittenWithinMore(t, u, v, before, done, i, c);
    }
    if apart {
      RewriteStepApart(t, u, before, cur, done, i, c, e, from, mid, to);
    }
  }

  /** Rewrites one more check. */
  method UpdateOne(db: Database, ghost t: Tables, before: seq<Check>, cur: seq<Check>, ghost done: seq<int>, i: int,
                   ghost e: int, ghost apart: bool, ghost from: Time)
    returns (ok: bool, next: seq<Check>)
    requires 0 <= i < |before| && i !in done
    requires Valid(t) && Addressed(t, before, done + [i], e) && Addressed(t, before, done, e)
    requires apart ==> Apart(before, done + [i])
    requires Rewriting(t, db.tables, before, cur, done, e, apart, from, db.now) && from <= db.now
    modifies db
    ensures db.now >= old(db.now) && |next| == |before|
    ensures ok ==> Rewriting(t, db.tables, before, next, done + [i], e, apart, from, db.now)
    ensures apart && !ok ==> !RouteAccepted(t.checks[before[i].id].route, before[i].route)
  {
    ghost var u, mid := db.tables, db.now;
    assert i in done + [i];
    assert CheckKeyed(u, before[i].id) && CheckKeyed(t, before[i].id);
    assert apart ==> u.checks[before[i].id] == t.checks[before[i].id] by {
      assert apart ==> forall j :: j in done ==> j in done + [i] && before[j].id != before[i].id;
    }
    var r := UpdateCheck(db, cur[i]);
    if r.Failure? {
      return false, cur;
    }
    RewriteStep(t, u, before, cur, done, i, r.value, e, apart, from, mid, db.now);
    return true, cur[i := r.value];
  }

  lemma NextChosen(t: Tables, before: seq<Check>, chosen: seq<int>, e: int, n: nat)
    requires NoRepeats(chosen) && Addressed(t, before, chosen, e) && n < |chosen|
    ensures 0 <= chosen[n] < |before| && chosen[n] !in chosen[..n]
    ensures chosen[..n + 1] == chosen[..n] + [chosen[n]]
    ensures Addressed(t, before, chosen[..n + 1], e)
    ensures Apart(before, chosen) ==> Apart(before, chosen[..n + 1])
    ensures BatchUpdatable(t, before, chosen) ==>
              RouteAccepted(t.checks[before[chosen[n]].id].route, before[chosen[n]].route)
  {
    assert chosen[n] in chosen;
    assert forall i :: i in chosen[..n + 1] ==> i in chosen;
  }

  /** Rewrites the checks at the chosen positions in turn: a check that is addressed twice is
      rewritten twice. */
  method UpdateChecks(db: Database, before: seq<Check>, chosen: seq<int>, ghost e: int)
    returns (ok: bool, cur: seq<Check>)
    requires Valid(db.tables)
    requires NoRepeats(chosen) && Addressed(db.tables, before, chosen, e)
    modifies db
    ensures db.now >= old(db.now)
    ensures |cur| == |before|
    ensures ok ==>
              Valid(db.tables) && OnlyChecksMoved(old(db.tables), db.tables)
                  && SameElsewhere(old(db.tables), db.tables, e)
    ensures ok ==> RewrittenWithin(old(db.tables), db.tables, before, chosen)
    ensures ok && Apart(before, chosen) ==>
              RewrittenAt(old(db.tables), db.tables, before, cur, chosen, old(db.now), db.now)
    ensures Apart(before, chosen) ==> (ok <==> BatchUpdatable(old(db.tables), before, chosen))
  {
    ghost var t, from, apart := db.tables, db.now, Apart(before, chosen);
    NoRowsMoved(t);
    cur := before;
    ok := true;
    for n := 0 to |chosen|
      invariant ok && db.now >= from
      invariant Addressed(t, before, chosen[..n], e)
      invariant Rewriting(t, db.tables, before, cur, chosen[..n], e, apart, from, db.now)
    {
      var i := chosen[n];
      NextChosen(t, before, chosen, e, n);
      ok, cur := UpdateOne(db, t, before, cur, chosen[..n], i, e, apart, from);
      if !ok {
        return;
      }
    }
    assert chosen[..|chosen|] == chosen;
  }
}
