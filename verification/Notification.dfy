/** Changes to endpoints and the events about them, whose handlers run in goroutines of their own, at
    whatever time and interleaved (socketio.go): what keeps every session at its refresh. */
module Notification {
  import opened Model
  import opened Database
  import opened Rows
  import opened CheckBatches
  import opened EndpointStore
  import opened Routing
  import opened ProbeStore
  import opened Dispatch
  import opened Refinement
  import opened Runs
  import CheckState

  // ---------------------------------------------------------------- one change and its event

  /** What happens to the store while its probes and sessions stay as they are; commits tells whether
      the commit succeeds. */
  datatype Change =
    | Create(e: EndpointDTO, commits: bool)
    | Edit(e: EndpointDTO, commits: bool)
    | Remove(orgId: int, id: int, commits: bool)
    | Results(jobs: seq<CheckState.Job>)

  predicate Commits(c: Change) {
    c.Results? || c.commits
  }

  ghost predicate EditedAs(t: Tables, u: Tables, slugOf: string -> string, e: EndpointDTO, ev: EndpointUpdated) {
    exists from, to :: Realised(t, u, slugOf, e, ev, from, to)
  }

  ghost predicate CreatedAs(t: Tables, u: Tables, slugOf: string -> string, e: EndpointDTO, d: EndpointDTO) {
    exists from, to :: Created(t, u, slugOf, e, d, from, to)
  }

  ghost predicate DeletedAs(t: Tables, u: Tables, id: int, d: EndpointDTO) {
    exists now :: Deleted(t, u, id, d, now)
  }

  /** In its transaction the change takes t to w, and publishes the cause before it commits. */
  ghost predicate Wrote(t: Tables, w: Tables, slugOf: string -> string, c: Change, cause: Cause) {
    match (c, cause)
    case (Create(e, _), Born(d)) => CreatedAs(t, w, slugOf, e, d)
    case (Edit(e, _), Edited(ev)) => EditedAs(t, w, slugOf, e, ev)
    case (Remove(orgId, id, _), Dead(d)) => OwnedEndpoint(t, orgId, id) && DeletedAs(t, w, id, d)
    case _ => false
  }

  /** The change need not be accepted: it meets a conflict, or asks for ids of its own. */
  ghost predicate Refusable(t: Tables, c: Change) {
    match c
    case Create(e, _) => !(Unnumbered(e) && Creatable(t, e))
    case Edit(e, _) => !(NewChecksUnnumbered(t, e) && Acceptable(t, e))
    case Remove(orgId, id, _) => !OwnedEndpoint(t, orgId, id)
    case Results(_) => false
  }

  /** The change takes t to u and publishes the cause. What it wrote stays only if the commit
      succeeded, but the event is out either way; a change that is refused publishes nothing, and so
      do results. */
  ghost predicate Step(t: Tables, u: Tables, slugOf: string -> string, c: Change, cause: Option<Cause>) {
    match cause
    case Some(x) => exists w :: Wrote(t, w, slugOf, c, x) && u == if Commits(c) then w else t
    case None => if c.Results? then u == CheckState.WriteJobs(t, c.jobs) else u == t && Refusable(t, c)
  }

  /** An edit repeats no type, so that its event shows each check once. */
  predicate Proper(c: Change) {
    c.Edit? ==> forall i, j :: 0 <= i < j < |c.e.checks| ==> c.e.checks[i].kind != c.e.checks[j].kind
  }

  /** The handlers of an event can be run on it. */
  ghost predicate Presentable(cause: Cause) {
    match cause
    case Edited(ev) =>
      && KnownRoutes(ev.last.checks) && KnownRoutes(ev.current.checks)
      && DistinctIds(ev.last.checks) && DistinctIds(ev.current.checks)
    case Born(d) => KnownRoutes(d.checks)
    case Dead(d) => KnownRoutes(d.checks)
  }

  method PerformChange(db: Database, slugOf: string -> string, c: Change) returns (cause: Option<Cause>)
    requires Sound(db.tables) && Proper(c)
    modifies db
    ensures Step(old(db.tables), db.tables, slugOf, c, cause)
  {
    ghost var t, from := db.tables, db.now;
    cause := None;
    match c
    case Create(e, commits) =>
      var r := AddEndpoint(db, slugOf, e, commits);
      if r.Success? {
        cause := Some(Born(r.value));
        ghost var w := db.tables;
        if !commits {
          w :| Created(t, w, slugOf, e, r.value, from, db.now);
        }
        assert Wrote(t, w, slugOf, c, Born(r.value));
      }
    case Edit(e, commits) =>
      var r := UpdateEndpoint(db, slugOf, e, commits);
      if r.Success? {
        cause := Some(Edited(r.value));
        ghost var w := db.tables;
        if !commits {
          w :| Realised(t, w, slugOf, e, r.value, from, db.now);
        }
        assert Wrote(t, w, slugOf, c, Edited(r.value));
      }
    case Remove(orgId, id, commits) =>
      var r := DeleteEndpoint(db, orgId, id, commits);
      if r.Success? {
        cause := Some(Dead(r.value));
        ghost var w := db.tables;
        if !commits {
          w :| Deleted(t, w, id, r.value, db.now);
        }
        assert Wrote(t, w, slugOf, c, Dead(r.value));
      }
    case Results(jobs) =>
      var _ := CheckState.BatchUpdateCheckState(db, jobs);
  }

  /** Handles one event on one instance, over the store as it is by then. */
  method Handle(db: Database, since: Time, instance: string, cause: Cause) returns (es: seq<Emission>)
    requires Presentable(cause)
    ensures Handled(db.tables, since, instance, cause, es)
  {
    var ok;
    match cause
    case Edited(ev) =>
      ok, es := HandleEndpointUpdated(db, since, instance, ev);
      assert forall m :: m in es <==> DueEmission(db.tables, since, instance, ev, m);
    case Born(d) =>
      ok, es := HandleEndpointCreated(db, since, instance, d);
    case Dead(d) =>
      ok, es := HandleEndpointDeleted(db, since, instance, d);
  }

  // ---------------------------------------------------------------- what a step keeps

  lemma BirthPresents(t: Tables, u: Tables, slugOf: string -> string, e: EndpointDTO, d: EndpointDTO)
    requires CreatedAs(t, u, slugOf, e, d)
    ensures KnownRoutes(d.checks)
  {
    var from, to :| Created(t, u, slugOf, e, d, from, to);
    forall c | c in d.checks
      ensures !c.route.UnknownRoute?
    {
      var i :| 0 <= i < |d.checks| && d.checks[i] == c;
      assert WasAdded(t, u, Owned(e.checks[i], d), c, d.updated, to);
      assert CheckKeyed(u, c.id);
    }
  }

  lemma ViewPresents(t: Tables, now: Time, id: int, d: EndpointDTO)
    requires Valid(t) && IsView(t, now, id, d)
    ensures KnownRoutes(d.checks)
  {
    ViewChecks(t, now, id, d);
    forall o | o in d.checks
      ensures !o.route.UnknownRoute?
    {
      assert CheckKeyed(t, o.id);
    }
  }

  lemma DeathPresents(t: Tables, u: Tables, id: int, d: EndpointDTO)
    requires Valid(t) && DeletedAs(t, u, id, d)
    ensures KnownRoutes(d.checks)
  {
    var now :| Deleted(t, u, id, d, now);
    ViewPresents(t, now, id, d);
  }

  lemma StepKeepsSound(t: Tables, u: Tables, slugOf: string -> string, c: Change, cause: Option<Cause>)
    requires Sound(t) && Step(t, u, slugOf, c, cause)
    ensures Sound(u) && SameFleet(t, u)
  {
    if u != t {
      match c
      case Create(e, _) =>
        var from, to :| Created(t, u, slugOf, e, cause.value.d, from, to);
        ElsewhereKeepsSound(t, u, cause.value.d.id);
      case Edit(e, _) =>
        var from, to :| Realised(t, u, slugOf, e, cause.value.ev, from, to);
        ElsewhereKeepsSound(t, u, e.id);
      case Remove(_, id, _) =>
        var now :| Deleted(t, u, id, cause.value.d, now);
        ElsewhereKeepsSound(t, u, id);
      case Results(jobs) =>
        ResultsMoveAlerts(t, jobs);
        AlertsKeepSound(t, u);
    }
  }

  lemma StepPresents(t: Tables, u: Tables, slugOf: string -> string, c: Change, cause: Option<Cause>)
    requires Valid(t) && Step(t, u, slugOf, c, cause) && cause.Some?
    ensures Presentable(cause.value)
  {
    var w :| Wrote(t, w, slugOf, c, cause.value);
    match c
    case Create(e, _) =>
      BirthPresents(t, w, slugOf, e, cause.value.d);
    case Edit(e, _) =>
      var from, to :| Realised(t, w, slugOf, e, cause.value.ev, from, to);
      EventRoutes(t, w, slugOf, e, cause.value.ev, from, to);
      EventChecks(t, w, slugOf, e, cause.value.ev, from, to);
    case Remove(_, id, _) =>
      DeathPresents(t, w, id, cause.value.d);
  }

  // ---------------------------------------------------------------- handlers at whatever time

  lemma {:induction false} SameListing(t: Tables, u: Tables, p: int, instance: string, since: Option<Time>, n: nat)
    requires u.sessions == t.sessions
    ensures SessionsUpTo(u, p, instance, since, n) == SessionsUpTo(t, p, instance, since, n)
  {
    if n != 0 {
      SameListing(t, u, p, instance, since, n - 1);
    }
  }

  lemma SameLive(t: Tables, u: Tables, since: Time, p: int)
    requires SameFleet(t, u)
    ensures Live(u, p, since) == Live(t, p, since)
  {
    if t.nextSession > 0 {
      SameListing(t, u, p, "", Some(since), t.nextSession);
    }
  }

  /** While probes, tags and sessions stay, it does not matter when an event is handled. */
  lemma HandledAtAnyTime(t: Tables, u: Tables, since: Time, instance: string, cause: Cause, es: seq<Emission>)
    requires SameFleet(t, u) && Handled(t, since, instance, cause, es)
    ensures Handled(u, since, instance, cause, es)
  {
    forall q, k
      ensures Target(u, since, instance, q, k) == Target(t, since, instance, q, k)
    {
      SameLive(t, u, since, q);
    }
    forall c: Check
      ensures ProbesFor(u, c) == ProbesFor(t, c)
    {
    }
    forall q, kind, payload
      ensures DueFor(u, cause, q, kind, payload) <==> DueFor(t, cause, q, kind, payload)
    {
    }
  }

  // ---------------------------------------------------------------- sessions stay refreshed

  /** Whatever the session held of its refresh before, it holds of the refresh afterwards, alert
      columns aside. */
  ghost predicate StaysRefreshed(t: Tables, u: Tables, since: Time, instance: string, es: seq<Emission>,
                                 p: int, pos: nat, n: nat, socketId: string, held: map<int, CheckWithSlug>)
  {
    LocalSession(u, since, instance, p, pos, n, socketId)
    && (forall k :: Alike(ForgetAlert, Lookup(held, k), Assigned(t, p, pos, n, k)))
    ==> forall k :: Alike(ForgetAlert, Lookup(ReceiveAll(held, es, socketId), k), Assigned(u, p, pos, n, k))
  }

  /** The events keep every session of the instance refreshed, of each of the probes in ps and at
      whatever position; probes and sessions are as they were. */
  ghost predicate Notified(t: Tables, u: Tables, since: Time, instance: string, ps: set<int>, es: seq<Emission>) {
    SameFleet(t, u) && forall p, pos, n, socketId, held :: p in ps ==>
        StaysRefreshed(t, u, since, instance, es, p, pos, n, socketId, held)
  }

  /** Routes and indexes agree about each of the probes. */
  ghost predicate AllServed(t: Tables, ps: set<int>) {
    forall p :: p in ps ==> Served(t, p)
  }

  /** The change lists probe 0 nowhere. */
  ghost predicate AvoidsZero(c: Change) {
    c.Create? || c.Edit? ==> AvoidsProbeZero(c.e.checks)
  }

  lemma BirthNotifies(t: Tables, u: Tables, slugOf: string -> string, e: EndpointDTO, d: EndpointDTO, since: Time,
                      instance: string, ps: set<int>, es: seq<Emission>)
    requires Valid(t) && Sound(u) && CreatedAs(t, u, slugOf, e, d) && AvoidsProbeZero(e.checks) && AllServed(u, ps)
    requires Handled(u, since, instance, Born(d), es)
    ensures Notified(t, u, since, instance, ps, es)
  {
    var from, to :| Created(t, u, slugOf, e, d, from, to);
    forall p, pos: nat, n: nat, socketId, held | p in ps
      ensures StaysRefreshed(t, u, since, instance, es, p, pos, n, socketId, held)
    {
      if LocalSession(u, since, instance, p, pos, n, socketId)
         && forall k :: Alike(ForgetAlert, Lookup(held, k), Assigned(t, p, pos, n, k)) {
        var x := Scene(u, Born(d), since, instance, es, p, pos, n, socketId);
        CreationRefinesRefresh(x, t, slugOf, e, from, to, ForgetAlert, held);
        forall i | 0 <= i < |e.checks|
          ensures !Misplaces(x, t, e, i, d.checks[i].id)
        {
          NeverMisplaced(x, t, slugOf, e, from, to, i);
        }
        assert forall k :: Refreshed(x, u, k) == Assigned(u, p, pos, n, k);
      }
    }
  }

  lemma EditNotifiesSession(x: Scene, t: Tables, slugOf: string -> string, e: EndpointDTO, from: Time, to: Time,
                            held: map<int, CheckWithSlug>)
    requires AfterEdit(x, t, slugOf, e, from, to) && StoreAvoidsProbeZero(t) && AvoidsProbeZero(e.checks)
    requires Served(t, x.p) && Served(x.u, x.p)
    requires forall k :: Alike(ForgetAlert, Lookup(held, k), Refreshed(x, t, k))
    ensures forall k :: Alike(ForgetAlert, Lookup(ReceiveAll(held, x.es, x.socketId), k), Refreshed(x, x.u, k))
  {
    NeverMisdirected(x, t, slugOf, e, from, to);
    EventsRefineRefreshForProbes(x, t, slugOf, e, from, to, held);
  }

  lemma EditNotifies(t: Tables, u: Tables, slugOf: string -> string, e: EndpointDTO, ev: EndpointUpdated, since: Time,
                     instance: string, ps: set<int>, es: seq<Emission>)
    requires Valid(t) && Sound(u) && EditedAs(t, u, slugOf, e, ev) && StoreAvoidsProbeZero(t)
    requires AvoidsProbeZero(e.checks) && AllServed(t, ps) && AllServed(u, ps)
    requires Handled(u, since, instance, Edited(ev), es)
    ensures Notified(t, u, since, instance, ps, es)
  {
    var from, to :| Realised(t, u, slugOf, e, ev, from, to);
    forall p, pos: nat, n: nat, socketId, held | p in ps
      ensures StaysRefreshed(t, u, since, instance, es, p, pos, n, socketId, held)
    {
      if LocalSession(u, since, instance, p, pos, n, socketId)
         && forall k :: Alike(ForgetAlert, Lookup(held, k), Assigned(t, p, pos, n, k)) {
        var x := Scene(u, Edited(ev), since, instance, es, p, pos, n, socketId);
        EditNotifiesSession(x, t, slugOf, e, from, to, held);
        assert forall k :: Refreshed(x, u, k) == Assigned(u, p, pos, n, k);
      }
    }
  }

  lemma DeathNotifies(t: Tables, u: Tables, id: int, d: EndpointDTO, since: Time, instance: string, ps: set<int>,
                      es: seq<Emission>)
    requires Valid(t) && Sound(u) && DeletedAs(t, u, id, d) && Handled(u, since, instance, Dead(d), es)
    requires AllServed(t, ps)
    ensures Notified(t, u, since, instance, ps, es)
  {
    var now :| Deleted(t, u, id, d, now);
    forall p, pos: nat, n: nat, socketId, held | p in ps
      ensures StaysRefreshed(t, u, since, instance, es, p, pos, n, socketId, held)
    {
      if LocalSession(u, since, instance, p, pos, n, socketId)
         && forall k :: Alike(ForgetAlert, Lookup(held, k), Assigned(t, p, pos, n, k)) {
        var x := Scene(u, Dead(d), since, instance, es, p, pos, n, socketId);
        DeletionRefinesRefresh(x, t, id, now, ForgetAlert, held);
        forall k
          ensures !Forgets(x, t, k)
        {
          assert RunsOn(t, p, k) <==> p in Routed(t, k);
        }
        assert forall k :: Refreshed(x, u, k) == Assigned(u, p, pos, n, k);
      }
    }
  }

  /** Alert results change no column a probe has a use for, and send nothing. */
  lemma AlertsNotify(t: Tables, u: Tables, since: Time, instance: string, ps: set<int>)
    requires CheckState.OnlyAlertsMoved(t, u)
    ensures Notified(t, u, since, instance, ps, [])
  {
  }

  /** A committed step whose event is handled, whenever that is, keeps sessions refreshed. */
  lemma StepNotifies(t: Tables, u: Tables, slugOf: string -> string, c: Change, cause: Option<Cause>, v: Tables,
                     since: Time, instance: string, ps: set<int>, es: seq<Emission>)
    requires Sound(t) && StoreAvoidsProbeZero(t) && AvoidsZero(c) && Step(t, u, slugOf, c, cause) && Commits(c)
    requires SameFleet(t, v) && AllServed(t, ps) && AllServed(u, ps)
    requires if cause.Some? then Handled(v, since, instance, cause.value, es) else es == []
    ensures Notified(t, u, since, instance, ps, es)
  {
    StepKeepsSound(t, u, slugOf, c, cause);
    if cause.Some? {
      HandledAtAnyTime(v, u, since, instance, cause.value, es);
      assert Wrote(t, u, slugOf, c, cause.value);
      match c
      case Create(e, _) => BirthNotifies(t, u, slugOf, e, cause.value.d, since, instance, ps, es);
      case Edit(e, _) => EditNotifies(t, u, slugOf, e, cause.value.ev, since, instance, ps, es);
      case Remove(_, id, _) => DeathNotifies(t, u, id, cause.value.d, since, instance, ps, es);
    } else if c.Results? {
      ResultsMoveAlerts(t, c.jobs);
      AlertsNotify(t, u, since, instance, ps);
    } else {
      AlertsNotify(t, t, since, instance, ps);
    }
  }

  // ---------------------------------------------------------------- handlers in whatever order

  function Concat(parts: seq<seq<Emission>>): seq<Emission> {
    if parts == [] then [] else Concat(parts[..|parts| - 1]) + parts[|parts| - 1]
  }

  /** The last event about check k that reaches the socket. */
  ghost function LastAbout(es: seq<Emission>, socketId: string, k: int): Option<Emission> {
    if es == [] then None
    else if About(es[|es| - 1], socketId, k) then Some(es[|es| - 1])
    else LastAbout(es[..|es| - 1], socketId, k)
  }

  function Leaves(last: Option<Emission>, had: Option<CheckWithSlug>): Option<CheckWithSlug> {
    match last
    case None => had
    case Some(e) => if e.kind == CheckRemoved then None else Some(e.payload)
  }

  /** Of check k a session holds what the last event about it left. */
  lemma {:induction false} LastDecides(held: map<int, CheckWithSlug>, es: seq<Emission>, socketId: string, k: int)
    ensures Lookup(ReceiveAll(held, es, socketId), k) == Leaves(LastAbout(es, socketId, k), Lookup(held, k))
  {
    if es != [] {
      var front, last := es[..|es| - 1], es[|es| - 1];
      LastDecides(held, front, socketId, k);
      ReceiveAt(ReceiveAll(held, front, socketId), last, socketId, k);
    }
  }

  lemma {:induction false} LastAboutAny(es: seq<Emission>, socketId: string, k: int)
    ensures LastAbout(es, socketId, k).Some? <==> exists e :: e in es && About(e, socketId, k)
  {
    if es != [] {
      var front, last := es[..|es| - 1], es[|es| - 1];
      assert es == front + [last];
      LastAboutAny(front, socketId, k);
    }
  }

  /** Either order ends with no event about check k for the socket, or with events of the same effect. */
  ghost predicate SameEnd(m: seq<Emission>, es: seq<Emission>, socketId: string, k: int) {
    var a, b := LastAbout(m, socketId, k), LastAbout(es, socketId, k);
    a.Some? == b.Some? && Alike(ForgetAlert, Leaves(a, None), Leaves(b, None))
  }

  /** For every session of the probes the two orders end the same about each check. */
  ghost predicate SameEnds(u: Tables, since: Time, instance: string, ps: set<int>, m: seq<Emission>,
                           es: seq<Emission>) {
    forall p, pos, n, socketId, k :: p in ps && LocalSession(u, since, instance, p, pos, n, socketId) ==>
        SameEnd(m, es, socketId, k)
  }

  lemma SameEndServesAlike(held: map<int, CheckWithSlug>, es: seq<Emission>, m: seq<Emission>, socketId: string,
                           k: int)
    requires SameEnd(m, es, socketId, k)
    ensures forall w :: Alike(ForgetAlert, Lookup(ReceiveAll(held, es, socketId), k), w) ==>
              Alike(ForgetAlert, Lookup(ReceiveAll(held, m, socketId), k), w)
  {
    LastDecides(held, m, socketId, k);
    LastDecides(held, es, socketId, k);
  }

  lemma SameEndsNotify(t: Tables, u: Tables, since: Time, instance: string, ps: set<int>, es: seq<Emission>,
                       m: seq<Emission>)
    requires Notified(t, u, since, instance, ps, es) && SameEnds(u, since, instance, ps, m, es)
    ensures Notified(t, u, since, instance, ps, m)
  {
    forall p, pos: nat, n: nat, socketId, held | p in ps
      ensures StaysRefreshed(t, u, since, instance, m, p, pos, n, socketId, held)
    {
      assert StaysRefreshed(t, u, since, instance, es, p, pos, n, socketId, held);
      if LocalSession(u, since, instance, p, pos, n, socketId) {
        forall k
          ensures forall w :: Alike(ForgetAlert, Lookup(ReceiveAll(held, es, socketId), k), w) ==>
                    Alike(ForgetAlert, Lookup(ReceiveAll(held, m, socketId), k), w)
        {
          SameEndServesAlike(held, es, m, socketId, k);
        }
      }
    }
  }

  /** What the refresh of a session holds, as the session holds it. */
  ghost function RefreshOf(t: Tables, p: int, pos: nat, n: nat): map<int, CheckWithSlug>
    requires n > 0
  {
    map k | k in t.checks && Assigned(t, p, pos, n, k).Some? :: Assigned(t, p, pos, n, k).value
  }

  lemma NotifiedEndSame(t: Tables, u: Tables, since: Time, instance: string, ps: set<int>, es: seq<Emission>,
                        m: seq<Emission>, p: int, pos: nat, n: nat, socketId: string, k: int)
    requires Notified(t, u, since, instance, ps, es) && Notified(t, u, since, instance, ps, m)
    requires multiset(m) == multiset(es) && p in ps && LocalSession(u, since, instance, p, pos, n, socketId)
    ensures SameEnd(m, es, socketId, k)
  {
    var held := RefreshOf(t, p, pos, n);
    assert StaysRefreshed(t, u, since, instance, es, p, pos, n, socketId, held);
    assert StaysRefreshed(t, u, since, instance, m, p, pos, n, socketId, held);
    assert forall l :: Lookup(held, l) == Assigned(t, p, pos, n, l);
    LastDecides(held, m, socketId, k);
    LastDecides(held, es, socketId, k);
    LastAboutAny(m, socketId, k);
    LastAboutAny(es, socketId, k);
    assert forall e :: e in m <==> e in multiset(m);
    assert forall e :: e in es <==> e in multiset(es);
  }

  /** The same events in another order keep sessions refreshed if and only if for every session and
      check the last event that reaches it has the same effect. */
  lemma ReorderedJustWhen(t: Tables, u: Tables, since: Time, instance: string, ps: set<int>, es: seq<Emission>,
                          m: seq<Emission>)
    requires Notified(t, u, since, instance, ps, es) && multiset(m) == multiset(es)
    ensures Notified(t, u, since, instance, ps, m) <==> SameEnds(u, since, instance, ps, m, es)
  {
    if SameEnds(u, since, instance, ps, m, es) {
      SameEndsNotify(t, u, since, instance, ps, es, m);
    }
    if Notified(t, u, since, instance, ps, m) {
      forall p, pos: nat, n: nat, socketId, k | p in ps && LocalSession(u, since, instance, p, pos, n, socketId)
        ensures SameEnd(m, es, socketId, k)
      {
        NotifiedEndSame(t, u, since, instance, ps, es, m, p, pos, n, socketId, k);
      }
    }
  }

  /** The events about check k, in order. */
  function OnCheck(es: seq<Emission>, k: int): seq<Emission> {
    if es == [] then []
    else
      var front, last := OnCheck(es[..|es| - 1], k), es[|es| - 1];
      if last.payload.check.id == k then front + [last] else front
  }

  /** m holds the events of all parts, those about each check in the order of the parts. */
  ghost predicate KeepsOrder(parts: seq<seq<Emission>>, m: seq<Emission>) {
    forall k :: OnCheck(m, k) == OnCheck(Concat(parts), k)
  }

  lemma {:induction false} OnCheckJoin(a: seq<Emission>, b: seq<Emission>, k: int)
    ensures OnCheck(a + b, k) == OnCheck(a, k) + OnCheck(b, k)
  {
    if b == [] {
      assert a + b == a;
    } else {
      assert (a + b)[..|a + b| - 1] == a + b[..|b| - 1];
      OnCheckJoin(a, b[..|b| - 1], k);
    }
  }

  lemma OnCheckMore(es: seq<Emission>, e: Emission, k: int)
    ensures OnCheck(es + [e], k) == if e.payload.check.id == k then OnCheck(es, k) + [e] else OnCheck(es, k)
  {
    assert (es + [e])[..|es|] == es;
  }

  lemma {:induction false} LastIsOnCheck(es: seq<Emission>, socketId: string, k: int)
    ensures LastAbout(OnCheck(es, k), socketId, k) == LastAbout(es, socketId, k)
  {
    if es != [] {
      var front, last := es[..|es| - 1], es[|es| - 1];
      LastIsOnCheck(front, socketId, k);
      if last.payload.check.id == k {
        assert (OnCheck(front, k) + [last])[..|OnCheck(front, k)|] == OnCheck(front, k);
      }
    }
  }

  lemma OrderKeepsEnds(u: Tables, since: Time, instance: string, ps: set<int>, parts: seq<seq<Emission>>,
                       m: seq<Emission>)
    requires KeepsOrder(parts, m)
    ensures SameEnds(u, since, instance, ps, m, Concat(parts))
  {
    forall socketId, k
      ensures SameEnd(m, Concat(parts), socketId, k)
    {
      LastIsOnCheck(m, socketId, k);
      LastIsOnCheck(Concat(parts), socketId, k);
    }
  }

  lemma {:induction false} ReceiveAllAppend(held: map<int, CheckWithSlug>, a: seq<Emission>, b: seq<Emission>,
                                            socketId: string)
    ensures ReceiveAll(held, a + b, socketId) == ReceiveAll(ReceiveAll(held, a, socketId), b, socketId)
  {
    if b == [] {
      assert a + b == a;
    } else {
      ReceiveAllAppend(held, a, b[..|b| - 1], socketId);
      assert (a + b)[..|a + b| - 1] == a + b[..|b| - 1];
    }
  }

  lemma NotifiedTwice(t: Tables, u: Tables, v: Tables, since: Time, instance: string, ps: set<int>, a: seq<Emission>,
                      b: seq<Emission>)
    requires Notified(t, u, since, instance, ps, a) && Notified(u, v, since, instance, ps, b)
    ensures Notified(t, v, since, instance, ps, a + b)
  {
    forall p, pos: nat, n: nat, socketId, held | p in ps
      ensures StaysRefreshed(t, v, since, instance, a + b, p, pos, n, socketId, held)
    {
      SameLive(u, v, since, p);
      ReceiveAllAppend(held, a, b, socketId);
      assert StaysRefreshed(t, u, since, instance, a, p, pos, n, socketId, held);
      assert StaysRefreshed(u, v, since, instance, b, p, pos, n, socketId, ReceiveAll(held, a, socketId));
    }
  }

  // ---------------------------------------------------------------- runs of changes

  /** The changes, each with what it published, lead through the stores. */
  ghost predicate Steps(stores: seq<Tables>, slugOf: string -> string, changes: seq<Change>,
                        causes: seq<Option<Cause>>) {
    && |stores| == |changes| + 1 && |causes| == |changes|
    && forall i :: 0 <= i < |changes| ==> Step(stores[i], stores[i + 1], slugOf, changes[i], causes[i])
  }

  /** part is what an instance sends about what was published, over store v. */
  ghost predicate AnsweredBy(v: Tables, since: Time, instance: string, cause: Option<Cause>, part: seq<Emission>) {
    if cause.Some? then Handled(v, since, instance, cause.value, part) else part == []
  }

  /** Each event has been handled by the instance, at whatever time. */
  ghost predicate Answered(v: Tables, since: Time, instance: string, causes: seq<Option<Cause>>,
                           parts: seq<seq<Emission>>) {
    && |parts| == |causes|
    && forall i :: 0 <= i < |causes| ==> AnsweredBy(v, since, instance, causes[i], parts[i])
  }

  /** The changes list probe 0 nowhere, and all of them commit. */
  ghost predicate Allowed(changes: seq<Change>) {
    forall c :: c in changes ==> AvoidsZero(c) && Commits(c)
  }

  lemma BirthAvoidsZero(t: Tables, u: Tables, slugOf: string -> string, e: EndpointDTO, d: EndpointDTO)
    requires StoreAvoidsProbeZero(t) && AvoidsProbeZero(e.checks) && CreatedAs(t, u, slugOf, e, d)
    ensures StoreAvoidsProbeZero(u)
  {
    var from, to :| Created(t, u, slugOf, e, d, from, to);
    forall k | k in u.checks
      ensures 0 !in RouteIds(u.checks[k].route)
    {
      if k in IdsOf(u, d.id) {
        assert k in Ids(d.checks);
        var c :| c in d.checks && c.id == k;
        var i :| 0 <= i < |d.checks| && d.checks[i] == c;
        assert WasAdded(t, u, Owned(e.checks[i], d), c, d.updated, to);
        assert e.checks[i] in e.checks;
      } else {
        assert OfOther(u, k, d.id);
      }
    }
  }

  lemma RouteAsAsked(t: Tables, u: Tables, slugOf: string -> string, e: EndpointDTO, ev: EndpointUpdated, from: Time,
                     to: Time, k: int)
    returns (i: int)
    requires Valid(t) && Realised(t, u, slugOf, e, ev, from, to) && k in IdsOf(u, e.id)
    ensures 0 <= i < |e.checks| && u.checks[k].route == e.checks[i].route
  {
    assert k in Ids(ev.current.checks);
    var c :| c in ev.current.checks && c.id == k;
    i :| 0 <= i < |ev.current.checks| && ev.current.checks[i] == c;
    UntouchedJustWhen(t, u, slugOf, e, ev, from, to, i);
  }

  lemma RoutesAvoidZero(t: Tables, u: Tables, e: int)
    requires StoreAvoidsProbeZero(t) && SameElsewhere(t, u, e)
    requires forall k :: k in IdsOf(u, e) ==> 0 !in RouteIds(u.checks[k].route)
    ensures StoreAvoidsProbeZero(u)
  {
    forall k | k in u.checks && k !in IdsOf(u, e)
      ensures 0 !in RouteIds(u.checks[k].route)
    {
      assert OfOther(u, k, e);
    }
  }

  lemma EditAvoidsZero(t: Tables, u: Tables, slugOf: string -> string, e: EndpointDTO, ev: EndpointUpdated)
    requires Valid(t) && StoreAvoidsProbeZero(t) && AvoidsProbeZero(e.checks) && EditedAs(t, u, slugOf, e, ev)
    ensures StoreAvoidsProbeZero(u)
  {
    var from, to :| Realised(t, u, slugOf, e, ev, from, to);
    forall k | k in IdsOf(u, e.id)
      ensures 0 !in RouteIds(u.checks[k].route)
    {
      var i := RouteAsAsked(t, u, slugOf, e, ev, from, to, k);
      assert e.checks[i] in e.checks;
    }
    RoutesAvoidZero(t, u, e.id);
  }

  lemma StepAvoidsZero(t: Tables, u: Tables, slugOf: string -> string, c: Change, cause: Option<Cause>)
    requires Valid(t) && StoreAvoidsProbeZero(t) && AvoidsZero(c) && Step(t, u, slugOf, c, cause)
    ensures StoreAvoidsProbeZero(u)
  {
    if u != t {
      match c
      case Create(e, _) => BirthAvoidsZero(t, u, slugOf, e, cause.value.d);
      case Edit(e, _) => EditAvoidsZero(t, u, slugOf, e, cause.value.ev);
      case Remove(_, id, _) =>
        var now :| Deleted(t, u, id, cause.value.d, now);
        forall k | k in u.checks
          ensures 0 !in RouteIds(u.checks[k].route)
        {
          assert k !in IdsOf(u, id) && OfOther(u, k, id);
        }
      case Results(jobs) => ResultsMoveAlerts(t, jobs);
    }
  }

  /** A run starts from a store in order whose routes avoid probe 0; its changes are allowed, and
      each event has been handled by the instance. */
  ghost predicate Run(stores: seq<Tables>, slugOf: string -> string, changes: seq<Change>, causes: seq<Option<Cause>>,
                      since: Time, instance: string, parts: seq<seq<Emission>>) {
    && Steps(stores, slugOf, changes, causes) && Allowed(changes)
    && Sound(stores[0]) && StoreAvoidsProbeZero(stores[0]) && Answered(stores[0], since, instance, causes, parts)
  }

  /** Along the run routes and indexes agree about the probes. */
  ghost predicate ServedThroughout(stores: seq<Tables>, ps: set<int>) {
    forall n :: 0 <= n < |stores| ==> AllServed(stores[n], ps)
  }

  lemma {:induction false} StaysInOrder(stores: seq<Tables>, slugOf: string -> string, changes: seq<Change>,
                                        causes: seq<Option<Cause>>, since: Time, instance: string,
                                        parts: seq<seq<Emission>>, n: nat)
    requires Run(stores, slugOf, changes, causes, since, instance, parts) && n <= |changes|
    ensures Sound(stores[n]) && StoreAvoidsProbeZero(stores[n]) && SameFleet(stores[0], stores[n])
  {
    if n > 0 {
      StaysInOrder(stores, slugOf, changes, causes, since, instance, parts, n - 1);
      assert changes[n - 1] in changes;
      StepKeepsSound(stores[n - 1], stores[n], slugOf, changes[n - 1], causes[n - 1]);
      StepAvoidsZero(stores[n - 1], stores[n], slugOf, changes[n - 1], causes[n - 1]);
    }
  }

  /** About stored probes they agree. */
  lemma StoredServedThroughout(stores: seq<Tables>, slugOf: string -> string, changes: seq<Change>,
                               causes: seq<Option<Cause>>, since: Time, instance: string, parts: seq<seq<Emission>>,
                               ps: set<int>)
    requires Run(stores, slugOf, changes, causes, since, instance, parts) && ps <= stores[0].probes.Keys
    ensures ServedThroughout(stores, ps)
  {
    forall n, p | 0 <= n < |stores| && p in ps
      ensures Served(stores[n], p)
    {
      StaysInOrder(stores, slugOf, changes, causes, since, instance, parts, n);
      StoredProbesAreServed(stores[n], p);
    }
  }

  /** Handled one after the other, the events of the first n changes keep sessions refreshed. */
  lemma {:induction false} SerialRun(stores: seq<Tables>, slugOf: string -> string, changes: seq<Change>,
                                     causes: seq<Option<Cause>>, since: Time, instance: string,
                                     parts: seq<seq<Emission>>, ps: set<int>, n: nat)
    requires Run(stores, slugOf, changes, causes, since, instance, parts) && n <= |changes|
    requires ServedThroughout(stores, ps)
    ensures Notified(stores[0], stores[n], since, instance, ps, Concat(parts[..n]))
  {
    if n == 0 {
      AlertsNotify(stores[0], stores[0], since, instance, ps);
    } else {
      SerialRun(stores, slugOf, changes, causes, since, instance, parts, ps, n - 1);
      StaysInOrder(stores, slugOf, changes, causes, since, instance, parts, n - 1);
      var t, u, c, cause := stores[n - 1], stores[n], changes[n - 1], causes[n - 1];
      assert c in changes && AnsweredBy(stores[0], since, instance, cause, parts[n - 1]);
      StepNotifies(t, u, slugOf, c, cause, stores[0], since, instance, ps, parts[n - 1]);
      NotifiedTwice(stores[0], t, u, since, instance, ps, Concat(parts[..n - 1]), parts[n - 1]);
      assert parts[..n][..n - 1] == parts[..n - 1];
    }
  }

  /** Any run of creations, edits and removals, results being stored in between, each event handled at
      whatever time, and whatever order the events arrive in: every session that starts with its
      refresh ends with its refresh if and only if for every session and check the event that arrives
      last has the effect of the one that was due last. */
  lemma RunRefreshedJustWhen(stores: seq<Tables>, slugOf: string -> string, changes: seq<Change>,
                             causes: seq<Option<Cause>>, since: Time, instance: string, parts: seq<seq<Emission>>,
                             ps: set<int>, m: seq<Emission>)
    requires Run(stores, slugOf, changes, causes, since, instance, parts) && ServedThroughout(stores, ps)
    requires multiset(m) == multiset(Concat(parts))
    ensures Notified(stores[0], stores[|changes|], since, instance, ps, m) <==>
              SameEnds(stores[|changes|], since, instance, ps, m, Concat(parts))
  {
    SerialRun(stores, slugOf, changes, causes, since, instance, parts, ps, |changes|);
    assert parts[..|changes|] == parts;
    ReorderedJustWhen(stores[0], stores[|changes|], since, instance, ps, Concat(parts), m);
  }

  /** In particular when the events about each check keep their order. */
  lemma RunStaysRefreshed(stores: seq<Tables>, slugOf: string -> string, changes: seq<Change>,
                          causes: seq<Option<Cause>>, since: Time, instance: string, parts: seq<seq<Emission>>,
                          ps: set<int>, m: seq<Emission>)
    requires Run(stores, slugOf, changes, causes, since, instance, parts) && ServedThroughout(stores, ps)
    requires KeepsOrder(parts, m)
    ensures Notified(stores[0], stores[|changes|], since, instance, ps, m)
  {
    SerialRun(stores, slugOf, changes, causes, since, instance, parts, ps, |changes|);
    assert parts[..|changes|] == parts;
    OrderKeepsEnds(stores[|changes|], since, instance, ps, parts, m);
    SameEndsNotify(stores[0], stores[|changes|], since, instance, ps, Concat(parts), m);
  }

  // ---------------------------------------------------------------- a run

  lemma StepsFurther(stores: seq<Tables>, slugOf: string -> string, changes: seq<Change>, causes: seq<Option<Cause>>,
                     c: Change, cause: Option<Cause>, u: Tables)
    requires Steps(stores, slugOf, changes, causes) && Step(stores[|changes|], u, slugOf, c, cause)
    ensures Steps(stores + [u], slugOf, changes + [c], causes + [cause])
  {
  }

  method PerformChanges(db: Database, slugOf: string -> string, changes: seq<Change>)
    returns (causes: seq<Option<Cause>>, ghost stores: seq<Tables>)
    requires Sound(db.tables) && forall c :: c in changes ==> Proper(c)
    modifies db
    ensures Steps(stores, slugOf, changes, causes) && stores[0] == old(db.tables) && stores[|changes|] == db.tables
    ensures SameFleet(stores[0], db.tables)
    ensures forall n :: 0 <= n < |causes| && causes[n].Some? ==> Presentable(causes[n].value)
  {
    causes, stores := [], [db.tables];
    for i := 0 to |changes|
      invariant Sound(db.tables) && Steps(stores, slugOf, changes[..i], causes)
      invariant stores[0] == old(db.tables) && stores[i] == db.tables && SameFleet(stores[0], db.tables)
      invariant forall n :: 0 <= n < |causes| && causes[n].Some? ==> Presentable(causes[n].value)
    {
      assert changes[i] in changes;
      var cause := PerformChange(db, slugOf, changes[i]);
      StepKeepsSound(stores[i], db.tables, slugOf, changes[i], cause);
      if cause.Some? {
        StepPresents(stores[i], db.tables, slugOf, changes[i], cause);
      }
      assert changes[..i + 1] == changes[..i] + [changes[i]];
      StepsFurther(stores, slugOf, changes[..i], causes, changes[i], cause, db.tables);
      causes, stores := causes + [cause], stores + [db.tables];
    }
    assert changes[..|changes|] == changes;
  }

  lemma AnsweredMore(v: Tables, since: Time, instance: string, causes: seq<Option<Cause>>, parts: seq<seq<Emission>>,
                     cause: Option<Cause>, part: seq<Emission>)
    requires Answered(v, since, instance, causes, parts) && AnsweredBy(v, since, instance, cause, part)
    ensures Answered(v, since, instance, causes + [cause], parts + [part])
  {
    forall i | 0 <= i < |causes|
      ensures AnsweredBy(v, since, instance, (causes + [cause])[i], (parts + [part])[i])
    {
      assert AnsweredBy(v, since, instance, causes[i], parts[i]);
    }
  }

  /** Runs the handler of every event that was published. */
  method HandleAll(db: Database, causes: seq<Option<Cause>>, since: Time,
                   instance: string) returns (parts: seq<seq<Emission>>)
    requires forall n :: 0 <= n < |causes| && causes[n].Some? ==> Presentable(causes[n].value)
    ensures Answered(db.tables, since, instance, causes, parts)
  {
    parts := [];
    for i := 0 to |causes|
      invariant Answered(db.tables, since, instance, causes[..i], parts)
    {
      var part := [];
      if causes[i].Some? {
        part := Handle(db, since, instance, causes[i].value);
      }
      AnsweredMore(db.tables, since, instance, causes[..i], parts, causes[i], part);
      assert causes[..i + 1] == causes[..i] + [causes[i]];
      parts := parts + [part];
    }
    assert causes[..|causes|] == causes;
  }

  lemma AnsweredAtAnyTime(t: Tables, u: Tables, since: Time, instance: string, causes: seq<Option<Cause>>,
                          parts: seq<seq<Emission>>)
    requires SameFleet(t, u) && Answered(t, since, instance, causes, parts)
    ensures Answered(u, since, instance, causes, parts)
  {
    forall i | 0 <= i < |causes|
      ensures AnsweredBy(u, since, instance, causes[i], parts[i])
    {
      assert AnsweredBy(t, since, instance, causes[i], parts[i]);
      if causes[i].Some? {
        HandledAtAnyTime(t, u, since, instance, causes[i].value, parts[i]);
      }
    }
  }

  /** All changes first, then the handlers of all their events: the contract says what was done and
      what was sent, and RunStaysRefreshed what it means for the sessions. */
  method RunAndNotify(db: Database, slugOf: string -> string, changes: seq<Change>, since: Time, instance: string)
    returns (causes: seq<Option<Cause>>, parts: seq<seq<Emission>>, ghost stores: seq<Tables>)
    requires Sound(db.tables) && forall c :: c in changes ==> Proper(c)
    modifies db
    ensures Steps(stores, slugOf, changes, causes) && stores[0] == old(db.tables) && stores[|changes|] == db.tables
    ensures Answered(stores[0], since, instance, causes, parts)
    ensures StoreAvoidsProbeZero(old(db.tables)) && Allowed(changes) ==>
              forall ps, m :: ServedThroughout(stores, ps) && KeepsOrder(parts, m) ==>
                Notified(old(db.tables), db.tables, since, instance, ps, m)
  {
    ghost var t := db.tables;
    causes, stores := PerformChanges(db, slugOf, changes);
    parts := HandleAll(db, causes, since, instance);
    AnsweredAtAnyTime(db.tables, t, since, instance, causes, parts);
    if StoreAvoidsProbeZero(t) && Allowed(changes) {
      forall ps, m | ServedThroughout(stores, ps) && KeepsOrder(parts, m)
        ensures Notified(t, db.tables, since, instance, ps, m)
      {
        RunStaysRefreshed(stores, slugOf, changes, causes, since, instance, parts, ps, m);
      }
    }
  }
}
