/** Whole runs of the store: whatever is done to endpoints, probes, sessions and alert states, in
    whatever order, the store stays in order and both lookups agree. */
module Runs {
  import opened Model
  import opened Database
  import opened EndpointStore
  import opened Routing
  import opened ProbeStore
  import opened Refinement
  import CheckState

  // ---------------------------------------------------------------- one operation

  /** Everything that changes the tables; commits tells whether the commit succeeds. */
  datatype Op =
    | CreateEndpoint(e: EndpointDTO, commits: bool)
    | EditEndpoint(e: EndpointDTO, commits: bool)
    | RemoveEndpoint(orgId: int, id: int, commits: bool)
    | CreateProbe(p: ProbeDTO, commits: bool)
    | EditProbe(p: ProbeDTO, commits: bool)
    | RemoveProbe(id: int, orgId: int, commits: bool)
    | OpenSession(s: ProbeSession, commits: bool)
    | CloseSession(orgId: int, socketId: string, commits: bool)
    | ClearSessions(instance: string, commits: bool)
    | StoreStates(jobs: seq<CheckState.Job>)

  ghost predicate Unnumbered(e: EndpointDTO) {
    forall c :: c in e.checks ==> c.id == 0
  }

  predicate OwnedEndpoint(t: Tables, orgId: int, id: int) {
    id in t.endpoints && t.endpoints[id].orgId == orgId
  }

  predicate OwnedProbe(t: Tables, orgId: int, id: int) {
    id in t.probes && t.probes[id].orgId == orgId
  }

  ghost predicate EndpointCreated(t: Tables, u: Tables, slugOf: string -> string, e: EndpointDTO) {
    && (Unnumbered(e) ==> Creatable(t, e)) && NameUnused(t, e)
    && exists d, from, to :: Created(t, u, slugOf, e, d, from, to)
  }

  ghost predicate EndpointEdited(t: Tables, u: Tables, slugOf: string -> string, e: EndpointDTO) {
    && (NewChecksUnnumbered(t, e) && DistinctKinds(e.checks) ==> Acceptable(t, e))
    && NewKindsOnce(t, e) && Reshaped(t, u, e) && NameFree(t, e)
    && exists ev, from, to ::
           RowRealised(t, u, slugOf, e, ev, from, to) && (DistinctKinds(e.checks) ==> ChecksRealised(t, u, e, ev, to))
  }

  ghost predicate EndpointDeleted(t: Tables, u: Tables, orgId: int, id: int) {
    OwnedEndpoint(t, orgId, id) && exists d, now :: Deleted(t, u, id, d, now)
  }

  ghost predicate ProbeCreated(t: Tables, u: Tables, slugOf: string -> string, p: ProbeDTO) {
    exists d, from, to :: ProbeAdded(t, u, slugOf, p, d, from, to)
  }

  ghost predicate ProbeChanged(t: Tables, u: Tables, slugOf: string -> string, p: ProbeDTO) {
    exists from, to :: ProbeEdited(t, u, slugOf, p, from, to)
  }

  /** The new tables are those the operation calls for; when it is refused or its commit is lost they
      are the old ones, and an operation that is free of conflicts is not refused. */
  ghost predicate Did(t: Tables, u: Tables, slugOf: string -> string, op: Op) {
    match op
    case CreateEndpoint(e, commits) =>
      if commits && Unnumbered(e) && Creatable(t, e) then EndpointCreated(t, u, slugOf, e)
      else u == t || (commits && EndpointCreated(t, u, slugOf, e))
    case EditEndpoint(e, commits) =>
      if commits && NewChecksUnnumbered(t, e) && DistinctKinds(e.checks) && Acceptable(t, e)
      then EndpointEdited(t, u, slugOf, e)
      else u == t || (commits && EndpointEdited(t, u, slugOf, e))
    case RemoveEndpoint(orgId, id, commits) =>
      if commits && OwnedEndpoint(t, orgId, id) then EndpointDeleted(t, u, orgId, id) else u == t
    case CreateProbe(p, commits) =>
      if commits && NoRepeats(p.tags) && SlugFree(t, p.orgId, slugOf(p.name), t.nextProbe)
      then ProbeCreated(t, u, slugOf, p)
      else u == t
    case EditProbe(p, commits) =>
      if commits && ProbeEditable(t, slugOf, p) then ProbeChanged(t, u, slugOf, p) else u == t
    case RemoveProbe(id, orgId, commits) =>
      if commits && OwnedProbe(t, orgId, id) then ProbeRemoved(t, u, id, orgId) else u == t
    case OpenSession(s, commits) =>
      if commits && Admissible(t, s) then exists s', from, to :: SessionOpened(t, u, s, s', from, to) else u == t
    case CloseSession(orgId, socketId, commits) =>
      if commits then exists deleted, from, to :: SessionClosed(t, u, orgId, socketId, deleted, from, to) else u == t
    case ClearSessions(instance, commits) =>
      if commits then InstanceCleared(t, u, instance) else u == t
    case StoreStates(jobs) =>
      u == CheckState.WriteJobs(t, jobs)
  }

  /** Performs one operation; a session that is not admissible is not added. */
  method Perform(db: Database, slugOf: string -> string, op: Op)
    requires Sound(db.tables)
    modifies db
    ensures Did(old(db.tables), db.tables, slugOf, op)
  {
    match op
    case CreateEndpoint(e, commits) =>
      var _ := AddEndpoint(db, slugOf, e, commits);
    case EditEndpoint(e, commits) =>
      PerformEdit(db, slugOf, e, commits);
    case RemoveEndpoint(orgId, id, commits) =>
      var _ := DeleteEndpoint(db, orgId, id, commits);
    case CreateProbe(p, commits) =>
      var _ := AddProbe(db, slugOf, p, commits);
    case EditProbe(p, commits) =>
      var _ := UpdateProbe(db, slugOf, p, commits);
    case RemoveProbe(id, orgId, commits) =>
      var _ := DeleteProbe(db, id, orgId, commits);
    case OpenSession(s, commits) =>
      if Admissible(db.tables, s) {
        var _ := AddProbeSession(db, s, commits);
      }
    case CloseSession(orgId, socketId, commits) =>
      var _ := DeleteProbeSession(db, orgId, socketId, commits);
    case ClearSessions(instance, commits) =>
      ClearProbeSessions(db, instance, commits);
    case StoreStates(jobs) =>
      var _ := CheckState.BatchUpdateCheckState(db, jobs);
  }

  method PerformEdit(db: Database, slugOf: string -> string, e: EndpointDTO, commits: bool)
    requires Sound(db.tables)
    modifies db
    ensures Did(old(db.tables), db.tables, slugOf, EditEndpoint(e, commits))
  {
    ghost var t, from := db.tables, db.now;
    var r := UpdateEndpoint(db, slugOf, e, commits);
    if r.Success? && commits {
      assert RowRealised(t, db.tables, slugOf, e, r.value, from, db.now);
      assert EndpointEdited(t, db.tables, slugOf, e);
    }
  }

  // ---------------------------------------------------------------- any number of operations

  /** The stores the operations lead through, from the first to the last. */
  ghost predicate Leads(slugOf: string -> string, stores: seq<Tables>, ops: seq<Op>) {
    && |stores| == |ops| + 1
    && forall i :: 0 <= i < |ops| ==> Did(stores[i], stores[i + 1], slugOf, ops[i])
  }

  /** Ids of probes are issued once: what is gone stays gone. */
  ghost predicate NothingReissued(t: Tables, u: Tables) {
    t.nextProbe <= u.nextProbe && forall p :: Gone(t, p) ==> Gone(u, p)
  }

  /** Both lookups agree on every live probe and enabled check. */
  ghost predicate Dual(t: Tables) {
    forall p, k :: p in t.probes && k in t.checks && t.checks[k].enabled ==>
        (RunsOn(t, p, k) <==> p in ProbesFor(t, t.checks[k]))
  }

  lemma OtherProbesStay(t: Tables, u: Tables, p: int)
    requires u.probes - {p} == t.probes - {p}
    ensures forall q :: q != p ==> (q in u.probes <==> q in t.probes)
  {
    forall q | q != p
      ensures q in u.probes <==> q in t.probes
    {
      assert q in u.probes - {p} <==> q in t.probes - {p};
    }
  }

  lemma {:induction false} ResultsMoveAlerts(t: Tables, jobs: seq<CheckState.Job>)
    ensures CheckState.OnlyAlertsMoved(t, CheckState.WriteJobs(t, jobs))
  {
    if jobs != [] {
      ResultsMoveAlerts(t, jobs[..|jobs| - 1]);
      OneResultMovesAlerts(t, CheckState.WriteJobs(t, jobs[..|jobs| - 1]), jobs[|jobs| - 1]);
    }
  }

  lemma OneResultMovesAlerts(t: Tables, u: Tables, j: CheckState.Job)
    requires CheckState.OnlyAlertsMoved(t, u)
    ensures CheckState.OnlyAlertsMoved(t, CheckState.WriteJob(u, j))
  {
  }

  lemma AlertsKeepSound(t: Tables, u: Tables)
    requires Sound(t) && CheckState.OnlyAlertsMoved(t, u)
    ensures Sound(u)
  {
    CheckState.AlertsMovedKeepsValid(t, u);
  }

  lemma EndpointOpKeepsSound(t: Tables, u: Tables, slugOf: string -> string, op: Op)
    requires Sound(t) && Did(t, u, slugOf, op) && (op.CreateEndpoint? || op.EditEndpoint? || op.RemoveEndpoint?)
    ensures Sound(u) && u.probes == t.probes && u.nextProbe == t.nextProbe
  {
    if u != t {
      match op
      case CreateEndpoint(e, _) =>
        var d, from, to :| Created(t, u, slugOf, e, d, from, to);
        ElsewhereKeepsSound(t, u, d.id);
      case EditEndpoint(e, _) =>
        ElsewhereKeepsSound(t, u, e.id);
      case RemoveEndpoint(_, id, _) =>
        ElsewhereKeepsSound(t, u, id);
    }
  }

  lemma DidKeepsSound(t: Tables, u: Tables, slugOf: string -> string, op: Op)
    requires Sound(t) && Did(t, u, slugOf, op)
    ensures Sound(u) && NothingReissued(t, u)
  {
    if op.CreateEndpoint? || op.EditEndpoint? || op.RemoveEndpoint? {
      EndpointOpKeepsSound(t, u, slugOf, op);
    } else if u != t {
      match op
      case CreateProbe(p, _) =>
        var d, from, to :| ProbeAdded(t, u, slugOf, p, d, from, to);
        OtherProbesStay(t, u, d.id);
      case EditProbe(p, _) =>
        OtherProbesStay(t, u, p.id);
      case StoreStates(jobs) =>
        ResultsMoveAlerts(t, jobs);
        AlertsKeepSound(t, u);
      case _ =>
    }
  }

  /** Whatever is done to a store in order, every store on the way is in order: indexes mirror routes,
      online flags mirror sessions, no probe comes back, and both lookups agree. */
  lemma {:induction false} RunsStaySound(slugOf: string -> string, stores: seq<Tables>, ops: seq<Op>, n: nat)
    requires Leads(slugOf, stores, ops) && Sound(stores[0]) && n <= |ops|
    ensures Sound(stores[n]) && NothingReissued(stores[0], stores[n]) && Dual(stores[n])
  {
    var u := stores[n];
    if n > 0 {
      RunsStaySound(slugOf, stores, ops, n - 1);
      DidKeepsSound(stores[n - 1], stores[n], slugOf, ops[n - 1]);
    }
    forall p, k | p in u.probes && k in u.checks && u.checks[k].enabled
      ensures RunsOn(u, p, k) <==> p in ProbesFor(u, u.checks[k])
    {
      Duality(u, p, k);
    }
  }

  // ---------------------------------------------------------------- unique names

  /** What the unique indexes are there for: within an org no two endpoints share a name, and no two
      probes a slug. */
  ghost predicate NamesUnique(t: Tables) {
    && (forall i, j ::
          i in t.endpoints && j in t.endpoints && i != j && t.endpoints[i].orgId == t.endpoints[j].orgId ==>
            t.endpoints[i].name != t.endpoints[j].name)
    && (forall p, q ::
          p in t.probes && q in t.probes && p != q && t.probes[p].orgId == t.probes[q].orgId ==>
            t.probes[p].slug != t.probes[q].slug)
  }

  /** A name or slug is refused just when taking it would give two rows of the org the same. */
  lemma RefusedJustWhen(t: Tables, e: EndpointDTO, row: Endpoint, p: Probe)
    requires NamesUnique(t) && row.orgId == e.orgId && row.name == e.name
    ensures NameFree(t, e) <==> NamesUnique(t.(endpoints := t.endpoints[e.id := row]))
    ensures e.id !in t.endpoints ==> (NameUnused(t, e) <==> NamesUnique(t.(endpoints := t.endpoints[e.id := row])))
    ensures SlugFree(t, p.orgId, p.slug, p.id) <==> NamesUnique(t.(probes := t.probes[p.id := p]))
  {
    var u, v := t.(endpoints := t.endpoints[e.id := row]), t.(probes := t.probes[p.id := p]);
    if NamesUnique(u) {
      assert u.endpoints[e.id] == row;
      assert forall i :: i in t.endpoints && i != e.id ==> u.endpoints[i] == t.endpoints[i];
    }
    if NamesUnique(v) {
      assert v.probes[p.id] == p;
      assert forall q :: q in t.probes && q != p.id ==> v.probes[q] == t.probes[q];
    }
  }

  lemma OthersAreSame<T>(a: map<int, T>, b: map<int, T>, k: int)
    requires b - {k} == a - {k}
    ensures forall i :: i != k && i in b ==> i in a && b[i] == a[i]
  {
    forall i | i != k && i in b
      ensures i in a && b[i] == a[i]
    {
      assert i in b - {k} && (b - {k})[i] == (a - {k})[i];
    }
  }

  lemma EndpointOpKeepsNames(t: Tables, u: Tables, slugOf: string -> string, op: Op)
    requires Did(t, u, slugOf, op) && (op.CreateEndpoint? || op.EditEndpoint? || op.RemoveEndpoint?)
    requires NamesUnique(t)
    ensures NamesUnique(u)
  {
    if u != t {
      match op
      case CreateEndpoint(e, _) =>
        var d, from, to :| Created(t, u, slugOf, e, d, from, to);
      case EditEndpoint(e, _) =>
        OthersAreSame(t.endpoints, u.endpoints, e.id);
      case RemoveEndpoint(_, id, _) =>
    }
  }

  lemma DidKeepsNames(t: Tables, u: Tables, slugOf: string -> string, op: Op)
    requires Did(t, u, slugOf, op) && NamesUnique(t)
    ensures NamesUnique(u)
  {
    if op.CreateEndpoint? || op.EditEndpoint? || op.RemoveEndpoint? {
      EndpointOpKeepsNames(t, u, slugOf, op);
    } else if u != t {
      match op
      case CreateProbe(p, _) =>
        var d, from, to :| ProbeAdded(t, u, slugOf, p, d, from, to);
        OthersAreSame(t.probes, u.probes, d.id);
      case EditProbe(p, _) =>
        OthersAreSame(t.probes, u.probes, p.id);
      case StoreStates(jobs) =>
        ResultsMoveAlerts(t, jobs);
      case _ =>
    }
  }

  /** Whatever is done, names and slugs stay unique within their orgs. */
  lemma {:induction false} NamesStayUnique(slugOf: string -> string, stores: seq<Tables>, ops: seq<Op>, n: nat)
    requires Leads(slugOf, stores, ops) && NamesUnique(stores[0]) && n <= |ops|
    ensures NamesUnique(stores[n])
  {
    if n > 0 {
      NamesStayUnique(slugOf, stores, ops, n - 1);
      DidKeepsNames(stores[n - 1], stores[n], slugOf, ops[n - 1]);
    }
  }

  // ---------------------------------------------------------------- a database from the start

  lemma LeadsFurther(slugOf: string -> string, stores: seq<Tables>, ops: seq<Op>, op: Op, u: Tables)
    requires Leads(slugOf, stores, ops) && Did(stores[|ops|], u, slugOf, op)
    ensures Leads(slugOf, stores + [u], ops + [op])
  {
  }

  lemma NoRowsAreSound()
    ensures Sound(NoRows())
  {
  }

  /** A freshly migrated database taken through any operations, failed commits among them. */
  method RunStore(slugOf: string -> string, ops: seq<Op>) returns (db: Database, ghost stores: seq<Tables>)
    ensures Leads(slugOf, stores, ops) && stores[0] == NoRows() && stores[|ops|] == db.tables
    ensures Sound(db.tables) && Dual(db.tables) && NamesUnique(db.tables)
  {
    db := new Database();
    stores := [db.tables];
    NoRowsAreSound();
    for i := 0 to |ops|
      invariant fresh(db) && Sound(db.tables)
      invariant Leads(slugOf, stores, ops[..i]) && stores[0] == NoRows() && stores[i] == db.tables
    {
      Perform(db, slugOf, ops[i]);
      assert ops[..i + 1] == ops[..i] + [ops[i]];
      assert Sound(db.tables) by {
        DidKeepsSound(stores[i], db.tables, slugOf, ops[i]);
      }
      LeadsFurther(slugOf, stores, ops[..i], ops[i], db.tables);
      stores := stores + [db.tables];
    }
    assert ops[..|ops|] == ops;
    RunsStaySound(slugOf, stores, ops, |ops|);
    NamesStayUnique(slugOf, stores, ops, |ops|);
  }
}
