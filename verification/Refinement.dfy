/** When the events sent about an endpoint leave a session, of a stored or of a deleted probe, with what
    a full refresh would send it (socketio.go against sockets/probe.go, over endpoint.go). */
module Refinement {
  import opened Model
  import opened Database
  import opened RouteIndex
  import opened Rows
  import opened CheckBatches
  import opened EndpointStore
  import opened Routing
  import opened ProbeStore
  import opened Dispatch

  // ---------------------------------------------------------------- one session among many

  /** The session at position pos of the n live sessions of probe p, connected to this instance. The
      probe need not be stored any more: deleting a probe leaves its sessions behind. */
  ghost predicate LocalSession(t: Tables, since: Time, instance: string, p: int, pos: nat, n: nat, socketId: string) {
    && p != 0
    && n == |Live(t, p, since)| && pos < n
    && Live(t, p, since)[pos].instanceId == instance
    && Live(t, p, since)[pos].socketId == socketId
  }

  /** An event about check k and probe q reaches the session just when q is its probe and k its turn
      among the sessions of that probe, or q is 0 and k its turn among all sessions. */
  lemma ReachedJustWhen(t: Tables, since: Time, instance: string, p: int, pos: nat, n: nat, socketId: string, q: int,
                        k: int)
    requires Sound(t) && LocalSession(t, since, instance, p, pos, n, socketId)
    ensures Target(t, since, instance, q, k) == Some(socketId) <==>
      || (q == p && k % n == pos)
      || (q == 0 && var all := Live(t, 0, since); |all| > 0 && all[k % |all|] == Live(t, p, since)[pos])
  {
    SessionsListed(t, p, "", Some(since));
    SessionsListed(t, q, "", Some(since));
    var mine, theirs := Live(t, p, since), Live(t, q, since);
    assert mine[pos] in mine;
    if Target(t, since, instance, q, k) == Some(socketId) {
      var turn := k % |theirs|;
      assert theirs[turn] in theirs;
      assert SameSocket(mine[pos], theirs[turn]);
      assert mine[pos] == theirs[turn];
      assert q == p || q == 0;
    }
  }

  function Lookup(held: map<int, CheckWithSlug>, k: int): Option<CheckWithSlug> {
    if k in held then Some(held[k]) else None
  }

  ghost predicate About(e: Emission, socketId: string, k: int) {
    e.socketId == Some(socketId) && e.payload.check.id == k
  }

  /** Some event about k that reaches the session is a removal. */
  ghost predicate Removes(es: seq<Emission>, socketId: string, k: int) {
    exists e :: e in es && About(e, socketId, k) && e.kind == CheckRemoved
  }

  ghost predicate Upserts(es: seq<Emission>, socketId: string, k: int) {
    exists e :: e in es && About(e, socketId, k) && e.kind != CheckRemoved
  }

  lemma OneMoreEvent(es: seq<Emission>, e: Emission, socketId: string, k: int)
    ensures Removes(es + [e], socketId, k) <==>
              Removes(es, socketId, k) || (About(e, socketId, k) && e.kind == CheckRemoved)
    ensures Upserts(es + [e], socketId, k) <==>
              Upserts(es, socketId, k) || (About(e, socketId, k) && e.kind != CheckRemoved)
  {
    var more := es + [e];
    assert e in more;
    if m :| m in es && About(m, socketId, k) && m.kind == CheckRemoved {
      assert m in more;
    }
    if m :| m in es && About(m, socketId, k) && m.kind != CheckRemoved {
      assert m in more;
    }
  }

  lemma ReceiveAt(held: map<int, CheckWithSlug>, e: Emission, socketId: string, k: int)
    ensures Lookup(Receive(held, e, socketId), k)
         == if !About(e, socketId, k) then Lookup(held, k) else if e.kind == CheckRemoved then None else Some(e.payload)
  {
  }

  /** After removals of k nothing but removals of k come. */
  lemma RemovedLast(front: seq<Emission>, last: Emission, socketId: string, k: int)
    requires RemovalsLast(front + [last]) && Removes(front, socketId, k) && About(last, socketId, k)
    ensures last.kind == CheckRemoved
  {
    var e :| e in front && About(e, socketId, k) && e.kind == CheckRemoved;
    var i :| 0 <= i < |front| && front[i] == e;
    var es := front + [last];
    assert es[i] == e && es[|front|] == last && SameCheck(es[i], es[|front|]);
  }

  /** When the copies of k that reach a session agree and removals come last, a removal decides, then a copy. */
  lemma {:induction false} ReceiveAllAt(held: map<int, CheckWithSlug>, es: seq<Emission>, socketId: string, k: int,
                                        v: CheckWithSlug)
    requires RemovalsLast(es)
    requires forall e :: e in es && About(e, socketId, k) && e.kind != CheckRemoved ==> e.payload == v
    ensures Lookup(ReceiveAll(held, es, socketId), k)
         == if Removes(es, socketId, k) then None else if Upserts(es, socketId, k) then Some(v) else Lookup(held, k)
  {
    if es != [] {
      var front, last := es[..|es| - 1], es[|es| - 1];
      assert es == front + [last] && last in es;
      assert RemovalsLast(front) && forall e :: e in front ==> e in es;
      ReceiveAllAt(held, front, socketId, k, v);
      ReceiveAt(ReceiveAll(held, front, socketId), last, socketId, k);
      OneMoreEvent(front, last, socketId, k);
      if About(last, socketId, k) && Removes(front, socketId, k) {
        RemovedLast(front, last, socketId, k);
      }
    }
  }

  // ---------------------------------------------------------------- comparing up to what matters

  /** Both sides hold nothing, or checks that f does not tell apart, under the same slug. */
  ghost predicate Alike(f: Check -> Check, a: Option<CheckWithSlug>, b: Option<CheckWithSlug>) {
    match (a, b)
    case (None, None) => true
    case (Some(x), Some(y)) => f(x.check) == f(y.check) && x.slug == y.slug
    case _ => false
  }

  // ---------------------------------------------------------------- an event and a session

  /** What happened to the endpoint, as the event tells it. */
  datatype Cause = Edited(ev: EndpointUpdated) | Born(d: EndpointDTO) | Dead(d: EndpointDTO)

  /** The handler of the event must tell probe p this. */
  ghost predicate DueFor(u: Tables, cause: Cause, p: int, kind: EventKind, payload: CheckWithSlug) {
    match cause
    case Edited(ev) => Due(u, ev, p, kind, payload)
    case Born(d) =>
      kind == CheckCreated && payload.slug == d.slug && IsRunning(d, payload.check) && p in ProbesFor(u, payload.check)
    case Dead(d) =>
      kind == CheckRemoved && payload.slug == d.slug && IsRunning(d, payload.check) && p in ProbesFor(u, payload.check)
  }

  /** es is what an instance sends about the cause. */
  ghost predicate Handled(u: Tables, since: Time, instance: string, cause: Cause, es: seq<Emission>) {
    && RemovalsLast(es)
    && forall m :: m in es <==> && DueFor(u, cause, m.probe, m.kind, m.payload)
                                && m.socketId == Target(u, since, instance, m.probe, m.payload.check.id)
  }

  /** One live session of an instance, and the events that instance sent about one cause. */
  datatype Scene = Scene(
    u: Tables, cause: Cause, since: Time, instance: string, es: seq<Emission>,
    p: int, pos: nat, n: nat, socketId: string)

  ghost predicate Staged(x: Scene) {
    && Sound(x.u) && Handled(x.u, x.since, x.instance, x.cause, x.es)
    && LocalSession(x.u, x.since, x.instance, x.p, x.pos, x.n, x.socketId)
  }

  /** Check k falls to the session among those of its probe. */
  predicate Turn(x: Scene, k: int)
    requires x.n > 0
  {
    k % x.n == x.pos
  }

  /** Check k falls to the session among all sessions of all probes, which is whom an event about
      probe 0 goes to: asking for the sessions of probe 0 asks for all of them. */
  predicate ZeroTurn(x: Scene, k: int) {
    Target(x.u, x.since, x.instance, 0, k) == Some(x.socketId)
  }

  /** An event about k for the probes in s reaches the session. */
  predicate Hits(x: Scene, k: int, s: set<int>)
    requires x.n > 0
  {
    (Turn(x, k) && x.p in s) || (ZeroTurn(x, k) && 0 in s)
  }

  lemma Reaches(x: Scene, q: int, k: int)
    requires Staged(x)
    ensures Target(x.u, x.since, x.instance, q, k) == Some(x.socketId) <==>
              (q == x.p && Turn(x, k)) || (q == 0 && ZeroTurn(x, k))
  {
    if q != 0 {
      ReachedJustWhen(x.u, x.since, x.instance, x.p, x.pos, x.n, x.socketId, q, k);
    }
  }

  /** About check k, the cause calls for v at the probes in ups, for removal at those in outs, and nothing else. */
  ghost predicate Telling(x: Scene, k: int, v: CheckWithSlug, ups: set<int>, outs: set<int>) {
    && (forall q, kind, payload: CheckWithSlug :: payload.check.id == k && DueFor(x.u, x.cause, q, kind, payload) ==>
          if kind == CheckRemoved then q in outs else q in ups && payload == v)
    && (forall q :: q in ups ==>
           v.check.id == k && exists kind :: kind != CheckRemoved && DueFor(x.u, x.cause, q, kind, v))
    && (forall q :: q in outs ==>
           exists payload: CheckWithSlug :: payload.check.id == k && DueFor(x.u, x.cause, q, CheckRemoved, payload))
  }

  lemma TellingReaches(x: Scene, k: int, v: CheckWithSlug, ups: set<int>, outs: set<int>)
    requires Staged(x) && Telling(x, k, v, ups, outs)
    ensures Removes(x.es, x.socketId, k) <==> Hits(x, k, outs)
    ensures Upserts(x.es, x.socketId, k) <==> Hits(x, k, ups)
    ensures forall e :: e in x.es && About(e, x.socketId, k) && e.kind != CheckRemoved ==> e.payload == v
  {
    forall m | m in x.es && About(m, x.socketId, k)
      ensures if m.kind == CheckRemoved then Hits(x, k, outs) else Hits(x, k, ups)
    {
      Reaches(x, m.probe, k);
    }
    if Hits(x, k, ups) {
      var q := if Turn(x, k) && x.p in ups then x.p else 0;
      Reaches(x, q, k);
      var kind :| kind != CheckRemoved && DueFor(x.u, x.cause, q, kind, v);
      var m := Emission(q, Some(x.socketId), kind, v);
      assert m in x.es && About(m, x.socketId, k);
    }
    if Hits(x, k, outs) {
      var q := if Turn(x, k) && x.p in outs then x.p else 0;
      Reaches(x, q, k);
      var payload: CheckWithSlug :| payload.check.id == k && DueFor(x.u, x.cause, q, CheckRemoved, payload);
      var m := Emission(q, Some(x.socketId), CheckRemoved, payload);
      assert m in x.es && About(m, x.socketId, k);
    }
  }

  /** What the session holds of check k after the events. */
  lemma SessionAfter(x: Scene, held: map<int, CheckWithSlug>, k: int, v: CheckWithSlug, ups: set<int>, outs: set<int>)
    requires Staged(x) && Telling(x, k, v, ups, outs)
    ensures Lookup(ReceiveAll(held, x.es, x.socketId), k)
         == if Hits(x, k, outs) then None else if Hits(x, k, ups) then Some(v) else Lookup(held, k)
  {
    TellingReaches(x, k, v, ups, outs);
    ReceiveAllAt(held, x.es, x.socketId, k, v);
  }

  // ---------------------------------------------------------------- the refresh before and after

  /** What the refresh of the session holds of check k when the store is t. */
  ghost function Refreshed(x: Scene, t: Tables, k: int): Option<CheckWithSlug>
    requires x.n > 0
  {
    Assigned(t, x.p, x.pos, x.n, k)
  }

  /** The probes a check is to run on: none while it is disabled. */
  function RunOf(t: Tables, c: Check): set<int> {
    if c.enabled then ProbesFor(t, c) else {}
  }

  function Routed(t: Tables, k: int): set<int> {
    if k in t.checks then RunOf(t, t.checks[k]) else {}
  }

  ghost predicate SameFleet(t: Tables, u: Tables) {
    u.probes == t.probes && u.probeTags == t.probeTags && u.sessions == t.sessions && u.nextSession == t.nextSession
  }

  /** The indexes route check k to probe p once it is as c asks for and had route before: by the tag
      rows of the probe, or by a row for its id, which is entered unless the id was listed before. */
  predicate WillRun(t: Tables, c: Check, before: Route, k: int, p: int) {
    c.enabled && match c.route
                 case ByTags(tags) => Tagged(t, c.orgId, p, Elements(tags))
                 case ByIds(ids) => p in ids && (p in RouteIds(before) ==> IdRow(k, p) in t.idIndex)
                 case UnknownRoute => false
  }

  /** A check left as it is runs where it runs. */
  lemma RunsAsStored(t: Tables, k: int, p: int)
    requires Valid(t) && k in t.checks
    ensures RunsOn(t, p, k) <==> WillRun(t, t.checks[k], t.checks[k].route, k, p)
  {
    var c := t.checks[k];
    assert CheckKeyed(t, k);
    if RoutedByTag(t, p, k) {
      var r :| r in t.tagIndex && r.checkId == k && ProbeTag(r.orgId, p, r.tag) in t.probeTags;
      assert r.tag in RouteTags(c.route) && r.orgId == c.orgId;
    }
    if c.route.ByTags? && Tagged(t, c.orgId, p, Elements(c.route.tags)) {
      var tag :| tag in Elements(c.route.tags) && ProbeTag(c.orgId, p, tag) in t.probeTags;
      assert TagRow(c.orgId, k, tag) in t.tagIndex;
    }
  }

  /** Check k falls to the session and the indexes route it to its probe: its refresh has it. */
  predicate Ran(x: Scene, t: Tables, k: int)
    requires x.n > 0
  {
    Turn(x, k) && RunsOn(t, x.p, k)
  }

  /** After the events the session has check k, if it had it before just when had: removals, which go
      to what only the old route lists, come last. */
  predicate EndsWith(x: Scene, k: int, before: set<int>, after: set<int>, had: bool)
    requires x.n > 0
  {
    !Hits(x, k, before - after) && (Hits(x, k, after) || had)
  }

  /** When copies go to the new route and removals to what of the old route is left, the session ends
      right exactly when it has the check just if the refresh has it, and then a copy, sent or kept,
      that f does not tell from the stored one. */
  lemma OutcomeOfTelling(x: Scene, f: Check -> Check, held: map<int, CheckWithSlug>, k: int, v: CheckWithSlug,
                         w: CheckWithSlug, before: set<int>, after: set<int>, had: Option<CheckWithSlug>,
                         wants: Option<CheckWithSlug>)
    requires Staged(x) && Telling(x, k, v, after, before - after) && v.slug == w.slug
    requires wants.Some? ==> wants == Some(w)
    requires Alike(f, Lookup(held, k), had)
    ensures Alike(f, Lookup(ReceiveAll(held, x.es, x.socketId), k), wants) <==>
      && EndsWith(x, k, before, after, had.Some?) == wants.Some?
      && (wants.Some? ==> if Hits(x, k, after) then f(v.check) == f(w.check) else had.Some? ==> Alike(f, had, wants))
  {
    SessionAfter(x, held, k, v, after, before - after);
  }

  /** A check the cause says nothing about, and whose refresh stays. */
  lemma NothingTold(x: Scene, f: Check -> Check, held: map<int, CheckWithSlug>, k: int, t: Tables)
    requires Staged(x) && Refreshed(x, t, k) == Refreshed(x, x.u, k)
    requires forall q, kind, payload: CheckWithSlug :: payload.check.id == k ==> !DueFor(x.u, x.cause, q, kind, payload)
    requires Alike(f, Lookup(held, k), Refreshed(x, t, k))
    ensures Alike(f, Lookup(ReceiveAll(held, x.es, x.socketId), k), Refreshed(x, x.u, k))
  {
    forall m | m in x.es
      ensures !About(m, x.socketId, k)
    {
    }
    ReceiveNothing(held, x.es, x.socketId, k);
  }

  lemma {:induction false} ReceiveNothing(held: map<int, CheckWithSlug>, es: seq<Emission>, socketId: string, k: int)
    requires forall m :: m in es ==> !About(m, socketId, k)
    ensures Lookup(ReceiveAll(held, es, socketId), k) == Lookup(held, k)
  {
    if es != [] {
      var front, last := es[..|es| - 1], es[|es| - 1];
      assert last in es && forall m :: m in front ==> m in es;
      ReceiveNothing(held, front, socketId, k);
      ReceiveAt(ReceiveAll(held, front, socketId), last, socketId, k);
    }
  }

  /** A check of another endpoint looks the same in both refreshes. */
  lemma OtherEndpoint(x: Scene, t: Tables, e: int, k: int)
    requires Staged(x) && Valid(t) && SameElsewhere(t, x.u, e)
    requires k !in IdsOf(t, e) && k !in IdsOf(x.u, e)
    ensures Refreshed(x, t, k) == Refreshed(x, x.u, k)
  {
    if k in t.checks {
      assert OfOther(t, k, e) && CheckKeyed(t, k);
      var i := t.checks[k].endpointId;
      assert i in t.endpoints - {e} && (x.u.endpoints - {e})[i] == (t.endpoints - {e})[i];
      RunsElsewhere(t, x.u, e, k, x.p);
    } else {
      assert !OfOther(x.u, k, e);
    }
  }

  lemma RunsElsewhere(t: Tables, u: Tables, e: int, k: int, p: int)
    requires SameElsewhere(t, u, e) && OfOther(t, k, e)
    ensures RunsOn(u, p, k) <==> RunsOn(t, p, k)
  {
    if r :| r in t.tagIndex && r.checkId == k && ProbeTag(r.orgId, p, r.tag) in t.probeTags {
      assert r in u.tagIndex;
    }
    if r :| r in u.tagIndex && r.checkId == k && ProbeTag(r.orgId, p, r.tag) in u.probeTags {
      assert r in t.tagIndex;
    }
    assert IdRow(k, p) in u.idIndex <==> IdRow(k, p) in t.idIndex;
  }

  lemma SameId(checks: seq<Check>, c: Check, d: Check)
    requires DistinctIds(checks) && c in checks && d in checks && c.id == d.id
    ensures c == d
  {
  }

  // ---------------------------------------------------------------- what an edit makes the handler tell

  /** The edit e, carried out between from and to, is what the event tells of. */
  ghost predicate AfterEdit(x: Scene, t: Tables, slugOf: string -> string, e: EndpointDTO, from: Time, to: Time) {
    x.cause.Edited? && Staged(x) && Valid(t) && Realised(t, x.u, slugOf, e, x.cause.ev, from, to)
  }

  /** The checks of the event are those of the endpoint, before and after. */
  lemma EventChecks(t: Tables, u: Tables, slugOf: string -> string, e: EndpointDTO, ev: EndpointUpdated, from: Time,
                    to: Time)
    requires Valid(t) && Realised(t, u, slugOf, e, ev, from, to)
    ensures DistinctIds(ev.last.checks) && DistinctIds(ev.current.checks)
    ensures forall o :: o in ev.last.checks <==> o.id in IdsOf(t, e.id) && o == Scrutinize(from, t.checks[o.id])
    ensures forall k :: k in IdsOf(t, e.id) ==> t.checks[k].id == k
    ensures forall c :: c in ev.current.checks ==> c.id in IdsOf(u, e.id)
    ensures forall k :: k in IdsOf(u, e.id) ==> k !in t.checks || k in IdsOf(t, e.id)
    ensures forall k :: k in IdsOf(t, e.id) ==> SlugOf(t, t.checks[k]) == ev.last.slug == t.endpoints[e.id].slug
    ensures forall k :: k in IdsOf(u, e.id) ==> SlugOf(u, u.checks[k]) == ev.current.slug == slugOf(e.name)
  {
    ViewChecks(t, from, e.id, ev.last);
    forall k | k in IdsOf(t, e.id)
      ensures t.checks[k].id == k
    {
      assert CheckKeyed(t, k);
    }
    forall c | c in ev.current.checks
      ensures c.id in IdsOf(u, e.id)
    {
      assert c.id in Ids(ev.current.checks);
    }
    forall k | k in IdsOf(u, e.id) && k in t.checks
      ensures k in IdsOf(t, e.id)
    {
      assert !OfOther(t, k, e.id);
    }
  }

  /** About a check stamped by the edit: its copy to the probes of its route, removal from the rest of
      the route it had. */
  lemma StampedTells(x: Scene, ev: EndpointUpdated, c: Check, before: set<int>)
    requires x.cause == Edited(ev) && DistinctIds(ev.last.checks) && DistinctIds(ev.current.checks)
    requires c in ev.current.checks && !(c.updated < ev.current.updated)
    requires forall q :: q in before <==> exists o :: WasRunning(ev.last, o) && o.id == c.id && q in ProbesFor(x.u, o)
    ensures Telling(x, c.id, CheckWithSlug(c, ev.current.slug), RunOf(x.u, c), before - RunOf(x.u, c))
  {
    var v, after := CheckWithSlug(c, ev.current.slug), RunOf(x.u, c);
    forall q, kind, payload: CheckWithSlug | payload.check.id == c.id && DueFor(x.u, x.cause, q, kind, payload)
      ensures if kind == CheckRemoved then q in before - after else q in after && payload == v
    {
      DueOnlyThis(x.u, ev, q, kind, payload, c);
    }
    forall q | q in after
      ensures exists kind :: kind != CheckRemoved && DueFor(x.u, x.cause, q, kind, v)
    {
      var kind := if exists o :: WasRunning(ev.last, o) && o.id == c.id then CheckUpdated else CheckCreated;
      assert DueUpsert(x.u, ev, q, kind, c);
      assert DueFor(x.u, x.cause, q, kind, v);
    }
    forall q | q in before - after
      ensures exists payload: CheckWithSlug ::
                payload.check.id == c.id && DueFor(x.u, x.cause, q, CheckRemoved, payload)
    {
      LeftRouteIsTold(x.u, ev, q, c);
      var payload: CheckWithSlug :| payload.check.id == c.id && Due(x.u, ev, q, CheckRemoved, payload);
      assert DueFor(x.u, x.cause, q, CheckRemoved, payload);
    }
  }

  /** Nothing but this is due about a stamped check. */
  lemma DueOnlyThis(u: Tables, ev: EndpointUpdated, q: int, kind: EventKind, payload: CheckWithSlug, c: Check)
    requires DistinctIds(ev.current.checks) && c in ev.current.checks && payload.check.id == c.id
    requires Due(u, ev, q, kind, payload)
    ensures if kind == CheckRemoved
            then q !in RunOf(u, c) && exists o :: WasRunning(ev.last, o) && o.id == c.id && q in ProbesFor(u, o)
            else q in RunOf(u, c) && payload == CheckWithSlug(c, ev.current.slug)
  {
    var d := payload.check;
    if d in ev.current.checks {
      SameId(ev.current.checks, c, d);
    }
    if DueStopped(u, ev, q, d) && c.enabled {
      assert IsRunning(ev.current, c);
    }
  }

  /** A probe that ran the check and is not in its route any more is told to remove it. */
  lemma LeftRouteIsTold(u: Tables, ev: EndpointUpdated, q: int, c: Check)
    requires DistinctIds(ev.current.checks) && c in ev.current.checks && !(c.updated < ev.current.updated)
    requires q !in RunOf(u, c) && exists o :: WasRunning(ev.last, o) && o.id == c.id && q in ProbesFor(u, o)
    ensures exists payload: CheckWithSlug :: payload.check.id == c.id && Due(u, ev, q, CheckRemoved, payload)
  {
    var o :| WasRunning(ev.last, o) && o.id == c.id && q in ProbesFor(u, o);
    if c.enabled {
      assert DueRerouted(u, ev, q, c);
      assert Due(u, ev, q, CheckRemoved, CheckWithSlug(c, ev.last.slug));
    } else {
      forall d | IsRunning(ev.current, d)
        ensures d.id != c.id
      {
        if d.id == c.id {
          SameId(ev.current.checks, c, d);
        }
      }
      assert DueStopped(u, ev, q, o);
      assert Due(u, ev, q, CheckRemoved, CheckWithSlug(o, ev.last.slug));
    }
  }

  /** About a check the event shows the same before and after, stamped before the edit: nothing. */
  lemma UnstampedTellsNothing(u: Tables, ev: EndpointUpdated, c: Check, q: int, kind: EventKind, payload: CheckWithSlug)
    requires DistinctIds(ev.last.checks) && DistinctIds(ev.current.checks)
    requires c in ev.current.checks && c in ev.last.checks && c.updated < ev.current.updated && payload.check.id == c.id
    ensures !Due(u, ev, q, kind, payload)
  {
    var d := payload.check;
    if d in ev.current.checks {
      SameId(ev.current.checks, c, d);
    }
    if d in ev.last.checks {
      SameId(ev.last.checks, c, d);
    }
  }

  /** The probes that ran a check of the endpoint, as the event shows it. */
  lemma RanBefore(t: Tables, u: Tables, slugOf: string -> string, e: EndpointDTO, ev: EndpointUpdated, from: Time,
                  to: Time, k: int)
    requires Valid(t) && Realised(t, u, slugOf, e, ev, from, to) && (k !in t.checks || k in IdsOf(t, e.id))
    ensures forall q :: q in Routed(t, k) <==> exists o :: WasRunning(ev.last, o) && o.id == k && q in ProbesFor(u, o)
  {
    EventChecks(t, u, slugOf, e, ev, from, to);
    if k in t.checks {
      var o := Scrutinize(from, t.checks[k]);
      assert o in ev.last.checks && o.id == k;
      assert ProbesFor(u, o) == ProbesFor(t, t.checks[k]);
    }
  }

  // ---------------------------------------------------------------- when the events of an edit fall short

  /** Too old to be trusted: a reader is shown Unknown instead of the state. */
  predicate Doubtful(now: Time, c: Check) {
    c.state != EvalUnknown && c.stateCheck < now - 3 * (c.frequency * SECOND)
  }

  /** Position i of the request asks for check k exactly as it is read at from, under the slug it has. */
  ghost predicate LeftAlone(t: Tables, slugOf: string -> string, e: EndpointDTO, from: Time, i: int, k: int)
    requires 0 <= i < |e.checks|
  {
    && k in IdsOf(t, e.id) && Owned(e.checks[i], e) == Scrutinize(from, t.checks[k])
    && e.id in t.endpoints && t.endpoints[e.id].slug == slugOf(e.name)
  }

  /** The route check k has as position c of a request meets it: none when c asks for a new check. */
  ghost function RouteBefore(t: Tables, c: Check, k: int): Route {
    if SlotTaken(t, c) then StoredRoute(t, k) else UnknownRoute
  }

  /** Once position i of the request is carried out as check k, the refresh of the session has it. */
  ghost predicate WillHold(x: Scene, t: Tables, e: EndpointDTO, i: int, k: int)
    requires x.n > 0 && 0 <= i < |e.checks|
  {
    var c := Owned(e.checks[i], e);
    Turn(x, k) && WillRun(t, c, RouteBefore(t, c, k), k, x.p)
  }

  /** The edit, stamped with stamp, sends the session a stale copy of check k: the request leaves the
      check alone, its state is too old to be trusted, the clock has not moved on since it was stamped,
      and the session has it and is told. */
  ghost predicate SendsStale(x: Scene, t: Tables, slugOf: string -> string, e: EndpointDTO, from: Time, stamp: Time,
                             k: int)
    requires x.n > 0
  {
    && (exists i :: 0 <= i < |e.checks| && LeftAlone(t, slugOf, e, from, i, k))
    && Doubtful(from, t.checks[k]) && !(t.checks[k].updated < stamp)
    && Ran(x, t, k) && Hits(x, k, Routed(t, k))
  }

  /** The edit misdirects the session about position i of the request, which has check k: going by
      the routes it ends with the check, going by the indexes it should not, or the other way round. */
  ghost predicate Misdirects(x: Scene, t: Tables, slugOf: string -> string, e: EndpointDTO, from: Time, stamp: Time,
                             i: int, k: int)
    requires x.n > 0 && 0 <= i < |e.checks|
  {
    && !(LeftAlone(t, slugOf, e, from, i, k) && t.checks[k].updated < stamp)
    && EndsWith(x, k, Routed(t, k), RunOf(t, Owned(e.checks[i], e)), Ran(x, t, k)) != WillHold(x, t, e, i, k)
  }

  /** Nobody tells the session, which has check k and keeps it, that position i rewrites it as w. */
  ghost predicate Overlooks(x: Scene, t: Tables, slugOf: string -> string, e: EndpointDTO, from: Time,
                            f: Check -> Check, i: int, k: int, w: Check)
    requires x.n > 0 && 0 <= i < |e.checks|
  {
    && !LeftAlone(t, slugOf, e, from, i, k)
    && Ran(x, t, k) && WillHold(x, t, e, i, k) && !Hits(x, k, RunOf(t, Owned(e.checks[i], e)))
    && !(f(t.checks[k]) == f(w) && SlugOf(t, t.checks[k]) == slugOf(e.name))
  }

  /** Check k is dropped, the session has it, and nobody tells it. */
  predicate Forgets(x: Scene, t: Tables, k: int)
    requires x.n > 0
  {
    Ran(x, t, k) && !Hits(x, k, Routed(t, k))
  }

  /** The event shows a position as it was read exactly when the request leaves it alone. */
  lemma UntouchedJustWhen(t: Tables, u: Tables, slugOf: string -> string, e: EndpointDTO, ev: EndpointUpdated,
                          from: Time, to: Time, i: int)
    requires Valid(t) && Realised(t, u, slugOf, e, ev, from, to) && 0 <= i < |e.checks|
    ensures var c, cur := Owned(e.checks[i], e), ev.current.checks[i];
      && cur.enabled == c.enabled && cur.route == c.route && cur.orgId == c.orgId
      && cur.id in IdsOf(u, e.id)
      && if LeftAlone(t, slugOf, e, from, i, cur.id) then
           cur == c && cur in ev.last.checks && cur.id in u.checks && u.checks[cur.id] == t.checks[cur.id]
         else
           u.checks[cur.id] == cur && ev.current.updated <= cur.updated
  {
    EventChecks(t, u, slugOf, e, ev, from, to);
    var c, cur := Owned(e.checks[i], e), ev.current.checks[i];
    assert CheckRealised(t, u, ev, c, cur, to);
    assert cur in ev.current.checks;
    if LeftAlone(t, slugOf, e, from, i, cur.id) {
      assert SameSlot(t.checks[cur.id], c);
    }
  }

  /** The stored check runs where the request wants it. */
  lemma RunsAsAsked(t: Tables, u: Tables, slugOf: string -> string, e: EndpointDTO, ev: EndpointUpdated, from: Time,
                    to: Time, i: int)
    requires Valid(t) && Realised(t, u, slugOf, e, ev, from, to) && 0 <= i < |e.checks|
    ensures var cur := ev.current.checks[i]; RunOf(u, cur) == Routed(u, cur.id) == RunOf(t, Owned(e.checks[i], e))
  {
    UntouchedJustWhen(t, u, slugOf, e, ev, from, to, i);
  }

  lemma LeftAloneKeepsId(t: Tables, u: Tables, slugOf: string -> string, e: EndpointDTO, ev: EndpointUpdated,
                         from: Time, to: Time, i: int, k: int)
    requires Valid(t) && Realised(t, u, slugOf, e, ev, from, to) && 0 <= i < |e.checks|
    requires LeftAlone(t, slugOf, e, from, i, k)
    ensures ev.current.checks[i].id == k
  {
    var c := Owned(e.checks[i], e);
    assert CheckRealised(t, u, ev, c, ev.current.checks[i], to);
    assert CheckKeyed(t, k) && SameSlot(t.checks[k], c);
  }

  lemma UnstampedAfterEdit(x: Scene, ev: EndpointUpdated, f: Check -> Check, held: map<int, CheckWithSlug>, cur: Check,
                           t: Tables)
    requires Staged(x) && x.cause == Edited(ev) && DistinctIds(ev.last.checks) && DistinctIds(ev.current.checks)
    requires cur in ev.current.checks && cur in ev.last.checks && cur.updated < ev.current.updated
    requires Refreshed(x, t, cur.id) == Refreshed(x, x.u, cur.id)
    requires Alike(f, Lookup(held, cur.id), Refreshed(x, t, cur.id))
    ensures Alike(f, Lookup(ReceiveAll(held, x.es, x.socketId), cur.id), Refreshed(x, x.u, cur.id))
  {
    forall q, kind, payload: CheckWithSlug | payload.check.id == cur.id
      ensures !DueFor(x.u, x.cause, q, kind, payload)
    {
      UnstampedTellsNothing(x.u, ev, cur, q, kind, payload);
    }
    NothingTold(x, f, held, cur.id, t);
  }

  lemma StampedAfterEdit(x: Scene, ev: EndpointUpdated, f: Check -> Check, held: map<int, CheckWithSlug>, cur: Check,
                         stored: Check, before: set<int>, had: Option<CheckWithSlug>, wants: Option<CheckWithSlug>)
    requires Staged(x) && x.cause == Edited(ev) && DistinctIds(ev.last.checks) && DistinctIds(ev.current.checks)
    requires cur in ev.current.checks && !(cur.updated < ev.current.updated)
    requires forall q :: q in before <==> exists o :: WasRunning(ev.last, o) && o.id == cur.id && q in ProbesFor(x.u, o)
    requires wants.Some? ==> wants == Some(CheckWithSlug(stored, ev.current.slug))
    requires Alike(f, Lookup(held, cur.id), had)
    ensures var after := RunOf(x.u, cur);
      Alike(f, Lookup(ReceiveAll(held, x.es, x.socketId), cur.id), wants) <==>
        && EndsWith(x, cur.id, before, after, had.Some?) == wants.Some?
        && (wants.Some? ==> if Hits(x, cur.id, after) then f(cur) == f(stored) else had.Some? ==> Alike(f, had, wants))
  {
    StampedTells(x, ev, cur, before);
    OutcomeOfTelling(x, f, held, cur.id, CheckWithSlug(cur, ev.current.slug), CheckWithSlug(stored, ev.current.slug),
                     before, RunOf(x.u, cur), had, wants);
  }

  /** What matters about position i of the request and the check that has it after the edit. */
  ghost predicate Settled(x: Scene, t: Tables, slugOf: string -> string, e: EndpointDTO, from: Time,
                          ev: EndpointUpdated, i: int) {
    && Staged(x) && x.cause == Edited(ev) && DistinctIds(ev.last.checks) && DistinctIds(ev.current.checks)
    && 0 <= i < |ev.current.checks| == |e.checks|
    && var cur := ev.current.checks[i];
       && cur.id in x.u.checks
       && RunOf(x.u, cur) == RunOf(t, Owned(e.checks[i], e))
       && (if LeftAlone(t, slugOf, e, from, i, cur.id) then
             && cur in ev.last.checks && cur == Scrutinize(from, t.checks[cur.id])
                    && x.u.checks[cur.id] == t.checks[cur.id]
             && Refreshed(x, t, cur.id) == Refreshed(x, x.u, cur.id)
           else
             x.u.checks[cur.id] == cur && !(cur.updated < ev.current.updated))
       && Refreshed(x, t, cur.id) == (if Ran(x, t, cur.id)
                                      then Some(CheckWithSlug(t.checks[cur.id], SlugOf(t, t.checks[cur.id]))) else None)
       && Refreshed(x, x.u, cur.id) == (if WillHold(x, t, e, i, cur.id)
                                        then Some(CheckWithSlug(x.u.checks[cur.id], slugOf(e.name))) else None)
       && ev.current.slug == slugOf(e.name)
       && forall q :: q in Routed(t, cur.id) <==>
              exists o :: WasRunning(ev.last, o) && o.id == cur.id && q in ProbesFor(x.u, o)
  }

  /** The indexes after the edit, about the check at position i. */
  lemma IndexedAfterEdit(t: Tables, u: Tables, slugOf: string -> string, e: EndpointDTO, ev: EndpointUpdated,
                         from: Time, to: Time, i: int, p: int)
    requires Valid(t) && Realised(t, u, slugOf, e, ev, from, to) && 0 <= i < |e.checks|
    ensures var c, k := Owned(e.checks[i], e), ev.current.checks[i].id;
      RunsOn(u, p, k) <==> WillRun(t, c, RouteBefore(t, c, k), k, p)
  {
    var c, cur := Owned(e.checks[i], e), ev.current.checks[i];
    UntouchedJustWhen(t, u, slugOf, e, ev, from, to, i);
    assert CheckRealised(t, u, ev, c, cur, to);
    RunsAsStored(u, cur.id, p);
    assert u.checks[cur.id].route == c.route && u.checks[cur.id].orgId == c.orgId;
    assert Tagged(u, c.orgId, p, RouteTags(c.route)) <==> Tagged(t, c.orgId, p, RouteTags(c.route));
  }

  /** A position left alone leaves the indexes as they were. */
  lemma LeftAloneRuns(t: Tables, slugOf: string -> string, e: EndpointDTO, from: Time, i: int, k: int, p: int)
    requires Valid(t) && 0 <= i < |e.checks| && LeftAlone(t, slugOf, e, from, i, k)
    ensures var c := Owned(e.checks[i], e); RunsOn(t, p, k) <==> WillRun(t, c, RouteBefore(t, c, k), k, p)
    ensures RunOf(t, Owned(e.checks[i], e)) == Routed(t, k)
  {
    RunsAsStored(t, k, p);
    assert SameSlot(t.checks[k], Owned(e.checks[i], e));
  }

  lemma EditSettles(x: Scene, t: Tables, slugOf: string -> string, e: EndpointDTO, from: Time, to: Time, i: int)
    requires AfterEdit(x, t, slugOf, e, from, to) && 0 <= i < |e.checks|
    ensures Settled(x, t, slugOf, e, from, x.cause.ev, i)
  {
    var ev := x.cause.ev;
    var k := ev.current.checks[i].id;
    EventChecks(t, x.u, slugOf, e, ev, from, to);
    UntouchedJustWhen(t, x.u, slugOf, e, ev, from, to, i);
    RunsAsAsked(t, x.u, slugOf, e, ev, from, to, i);
    IndexedAfterEdit(t, x.u, slugOf, e, ev, from, to, i, x.p);
    if LeftAlone(t, slugOf, e, from, i, k) {
      LeftAloneRuns(t, slugOf, e, from, i, k, x.p);
    }
    RanBefore(t, x.u, slugOf, e, ev, from, to, k);
  }

  /** Position i leaves its check alone, yet its copy is sent to the session, and f tells it from the row. */
  ghost predicate ShowsStale(x: Scene, t: Tables, slugOf: string -> string, e: EndpointDTO, from: Time, stamp: Time,
                             f: Check -> Check, i: int, k: int)
    requires x.n > 0 && 0 <= i < |e.checks|
  {
    && LeftAlone(t, slugOf, e, from, i, k) && !(t.checks[k].updated < stamp)
    && Ran(x, t, k) && Hits(x, k, Routed(t, k)) && f(Scrutinize(from, t.checks[k])) != f(t.checks[k])
  }

  /** A check the endpoint has after the edit. */
  lemma PresentAfterEdit(x: Scene, t: Tables, slugOf: string -> string, e: EndpointDTO, from: Time,
                         f: Check -> Check, held: map<int, CheckWithSlug>, ev: EndpointUpdated, i: int)
    requires Settled(x, t, slugOf, e, from, ev, i)
    requires Alike(f, Lookup(held, ev.current.checks[i].id), Refreshed(x, t, ev.current.checks[i].id))
    ensures var k, stamp := ev.current.checks[i].id, ev.current.updated;
      Alike(f, Lookup(ReceiveAll(held, x.es, x.socketId), k), Refreshed(x, x.u, k)) <==>
        && !Misdirects(x, t, slugOf, e, from, stamp, i, k) && !ShowsStale(x, t, slugOf, e, from, stamp, f, i, k)
        && !Overlooks(x, t, slugOf, e, from, f, i, k, x.u.checks[k])
  {
    var cur := ev.current.checks[i];
    assert cur in ev.current.checks;
    if cur.updated < ev.current.updated {
      UnstampedAfterEdit(x, ev, f, held, cur, t);
    } else {
      StampedAfterEdit(x, ev, f, held, cur, x.u.checks[cur.id], Routed(t, cur.id), Refreshed(x, t, cur.id),
                       Refreshed(x, x.u, cur.id));
    }
  }

  /** A check the edit deleted: the session ends without it unless nobody tells it. */
  lemma DeletedByEdit(x: Scene, t: Tables, slugOf: string -> string, e: EndpointDTO, from: Time, to: Time,
                      f: Check -> Check, held: map<int, CheckWithSlug>, k: int)
    requires AfterEdit(x, t, slugOf, e, from, to) && k in IdsOf(t, e.id) && k !in IdsOf(x.u, e.id)
    requires Alike(f, Lookup(held, k), Refreshed(x, t, k))
    ensures Refreshed(x, x.u, k) == None
    ensures Lookup(ReceiveAll(held, x.es, x.socketId), k) == None <==> !Forgets(x, t, k)
  {
    var ev := x.cause.ev;
    EventChecks(t, x.u, slugOf, e, ev, from, to);
    RanBefore(t, x.u, slugOf, e, ev, from, to, k);
    assert k !in x.u.checks by {
      assert !OfOther(x.u, k, e.id);
    }
    var o := Scrutinize(from, t.checks[k]);
    var v := CheckWithSlug(o, ev.last.slug);
    assert Telling(x, k, v, {}, Routed(t, k)) by {
      forall q | q in Routed(t, k)
        ensures Due(x.u, ev, q, CheckRemoved, v)
      {
        assert DueStopped(x.u, ev, q, o);
      }
    }
    SessionAfter(x, held, k, v, {}, Routed(t, k));
  }

  /** Position i of the request has check k. */
  predicate Has(x: Scene, e: EndpointDTO, i: int, k: int)
    requires x.cause.Edited? && |x.cause.ev.current.checks| == |e.checks|
  {
    0 <= i < |e.checks| && x.cause.ev.current.checks[i].id == k
  }

  /** The edit does not misdirect the session about check k, whatever position has it, and does not
      drop it behind its back. */
  ghost predicate Directs(x: Scene, t: Tables, slugOf: string -> string, e: EndpointDTO, from: Time, k: int)
    requires x.n > 0 && x.cause.Edited? && |x.cause.ev.current.checks| == |e.checks|
  {
    && (forall i :: Has(x, e, i, k) ==> !Misdirects(x, t, slugOf, e, from, x.cause.ev.current.updated, i, k))
    && (k in IdsOf(t, e.id) && (forall i :: !Has(x, e, i, k)) ==> !Forgets(x, t, k))
  }

  /** The position that has check k overlooks the session. */
  ghost predicate Overlooked(x: Scene, t: Tables, slugOf: string -> string, e: EndpointDTO, from: Time,
                             f: Check -> Check, k: int)
    requires x.n > 0 && x.cause.Edited? && |x.cause.ev.current.checks| == |e.checks|
  {
    exists i :: Has(x, e, i, k) && Overlooks(x, t, slugOf, e, from, f, i, k, x.cause.ev.current.checks[i])
  }

  /** Only one position can have a check, or leave it alone. */
  lemma OnePosition(x: Scene, t: Tables, slugOf: string -> string, e: EndpointDTO, from: Time, to: Time, i: int)
    requires AfterEdit(x, t, slugOf, e, from, to) && 0 <= i < |e.checks|
    ensures var k := x.cause.ev.current.checks[i].id;
      && (forall j :: Has(x, e, j, k) <==> j == i)
      && forall j :: 0 <= j < |e.checks| && LeftAlone(t, slugOf, e, from, j, k) ==> j == i
  {
    var ev := x.cause.ev;
    forall j | 0 <= j < |e.checks| && LeftAlone(t, slugOf, e, from, j, ev.current.checks[i].id)
      ensures j == i
    {
      LeftAloneKeepsId(t, x.u, slugOf, e, ev, from, to, j, ev.current.checks[i].id);
    }
  }

  /** A check the endpoint does not have after the edit. */
  lemma AbsentAfterEdit(x: Scene, t: Tables, slugOf: string -> string, e: EndpointDTO, from: Time, to: Time,
                        f: Check -> Check, held: map<int, CheckWithSlug>, k: int)
    requires AfterEdit(x, t, slugOf, e, from, to) && k !in IdsOf(x.u, e.id)
    requires Alike(f, Lookup(held, k), Refreshed(x, t, k))
    ensures Alike(f, Lookup(ReceiveAll(held, x.es, x.socketId), k), Refreshed(x, x.u, k)) <==>
              !(k in IdsOf(t, e.id) && Forgets(x, t, k))
  {
    if k in IdsOf(t, e.id) {
      DeletedByEdit(x, t, slugOf, e, from, to, f, held, k);
    } else {
      ElsewhereAfterEdit(x, t, slugOf, e, from, to, f, held, k);
    }
  }

  lemma ElsewhereAfterEdit(x: Scene, t: Tables, slugOf: string -> string, e: EndpointDTO, from: Time, to: Time,
                           f: Check -> Check, held: map<int, CheckWithSlug>, k: int)
    requires AfterEdit(x, t, slugOf, e, from, to) && k !in IdsOf(x.u, e.id) && k !in IdsOf(t, e.id)
    requires Alike(f, Lookup(held, k), Refreshed(x, t, k))
    ensures Alike(f, Lookup(ReceiveAll(held, x.es, x.socketId), k), Refreshed(x, x.u, k))
  {
    EventChecks(t, x.u, slugOf, e, x.cause.ev, from, to);
    assert Refreshed(x, t, k) == Refreshed(x, x.u, k) by {
      OtherEndpoint(x, t, e.id, k);
    }
    NothingDue(x.u, x.cause.ev, k);
    NothingTold(x, f, held, k, t);
  }

  lemma NothingDue(u: Tables, ev: EndpointUpdated, k: int)
    requires forall o :: o in ev.last.checks ==> o.id != k
    requires forall c :: c in ev.current.checks ==> c.id != k
    ensures forall q, kind, payload: CheckWithSlug :: payload.check.id == k ==> !DueFor(u, Edited(ev), q, kind, payload)
  {
  }

  lemma NoPosition(x: Scene, t: Tables, slugOf: string -> string, e: EndpointDTO, from: Time, to: Time, k: int)
    requires AfterEdit(x, t, slugOf, e, from, to) && k !in IdsOf(x.u, e.id)
    ensures Directs(x, t, slugOf, e, from, k) <==> !(k in IdsOf(t, e.id) && Forgets(x, t, k))
    ensures !SendsStale(x, t, slugOf, e, from, x.cause.ev.current.updated, k)
    ensures forall f :: !Overlooked(x, t, slugOf, e, from, f, k)
  {
    var ev := x.cause.ev;
    EventChecks(t, x.u, slugOf, e, ev, from, to);
    forall i | 0 <= i < |e.checks|
      ensures !Has(x, e, i, k) && !LeftAlone(t, slugOf, e, from, i, k)
    {
      assert ev.current.checks[i] in ev.current.checks;
      if LeftAlone(t, slugOf, e, from, i, k) {
        LeftAloneKeepsId(t, x.u, slugOf, e, ev, from, to, i, k);
      }
    }
  }

  lemma PositionOfCheck(x: Scene, t: Tables, slugOf: string -> string, e: EndpointDTO, from: Time, to: Time,
                        k: int) returns (i: int)
    requires AfterEdit(x, t, slugOf, e, from, to) && k in IdsOf(x.u, e.id)
    ensures 0 <= i < |e.checks| == |x.cause.ev.current.checks| && x.cause.ev.current.checks[i].id == k
  {
    var current := x.cause.ev.current.checks;
    assert k in Ids(current);
    var c :| c in current && c.id == k;
    i :| 0 <= i < |current| && current[i] == c;
  }

  /** The copy of check k is stale only through the position that has it. */
  lemma StaleAtPosition(x: Scene, t: Tables, slugOf: string -> string, e: EndpointDTO, from: Time, stamp: Time,
                        f: Check -> Check, i: int, k: int)
    requires x.n > 0 && 0 <= i < |e.checks|
    requires forall j :: 0 <= j < |e.checks| && LeftAlone(t, slugOf, e, from, j, k) ==> j == i
    ensures ShowsStale(x, t, slugOf, e, from, stamp, f, i, k)
       <==> SendsStale(x, t, slugOf, e, from, stamp, k) && f(Scrutinize(from, t.checks[k])) != f(t.checks[k])
  {
  }

  /** Where a position does not leave its check alone, what is stored is what the event shows. */
  lemma OverlooksAtPosition(x: Scene, t: Tables, slugOf: string -> string, e: EndpointDTO, from: Time,
                            f: Check -> Check, i: int)
    requires x.cause.Edited? && Settled(x, t, slugOf, e, from, x.cause.ev, i)
    requires forall j :: Has(x, e, j, x.cause.ev.current.checks[i].id) <==> j == i
    ensures var k := x.cause.ev.current.checks[i].id;
      Overlooked(x, t, slugOf, e, from, f, k) <==> Overlooks(x, t, slugOf, e, from, f, i, k, x.u.checks[k])
  {
    assert Has(x, e, i, x.cause.ev.current.checks[i].id);
  }

  /** The edit serves the session right about check k, as far as f can tell: it does not misdirect it,
      nor send it a stale copy, nor rewrite behind its back a check it keeps. */
  ghost predicate ServesRight(x: Scene, t: Tables, slugOf: string -> string, e: EndpointDTO, from: Time,
                              f: Check -> Check, k: int)
    requires x.n > 0 && x.cause.Edited? && |x.cause.ev.current.checks| == |e.checks|
  {
    && Directs(x, t, slugOf, e, from, k)
    && !(SendsStale(x, t, slugOf, e, from, x.cause.ev.current.updated, k)
         && f(Scrutinize(from, t.checks[k])) != f(t.checks[k]))
    && !Overlooked(x, t, slugOf, e, from, f, k)
  }

  /** Only the position that has check k matters. */
  lemma ServesRightAt(x: Scene, t: Tables, slugOf: string -> string, e: EndpointDTO, from: Time, f: Check -> Check,
                      i: int)
    requires x.cause.Edited? && Settled(x, t, slugOf, e, from, x.cause.ev, i)
    requires forall j :: Has(x, e, j, x.cause.ev.current.checks[i].id) <==> j == i
    requires forall j :: 0 <= j < |e.checks| && LeftAlone(t, slugOf, e, from, j, x.cause.ev.current.checks[i].id) ==>
               j == i
    ensures var k, stamp := x.cause.ev.current.checks[i].id, x.cause.ev.current.updated;
      ServesRight(x, t, slugOf, e, from, f, k) <==>
        && !Misdirects(x, t, slugOf, e, from, stamp, i, k) && !ShowsStale(x, t, slugOf, e, from, stamp, f, i, k)
        && !Overlooks(x, t, slugOf, e, from, f, i, k, x.u.checks[k])
  {
    var k := x.cause.ev.current.checks[i].id;
    assert Has(x, e, i, k);
    OverlooksAtPosition(x, t, slugOf, e, from, f, i);
    StaleAtPosition(x, t, slugOf, e, from, x.cause.ev.current.updated, f, i, k);
  }

  lemma PresentServed(x: Scene, t: Tables, slugOf: string -> string, e: EndpointDTO, from: Time, to: Time,
                      f: Check -> Check, held: map<int, CheckWithSlug>, i: int)
    requires AfterEdit(x, t, slugOf, e, from, to) && 0 <= i < |e.checks|
    requires var k := x.cause.ev.current.checks[i].id; Alike(f, Lookup(held, k), Refreshed(x, t, k))
    ensures var k := x.cause.ev.current.checks[i].id;
      Alike(f, Lookup(ReceiveAll(held, x.es, x.socketId), k), Refreshed(x, x.u, k)) <==>
        ServesRight(x, t, slugOf, e, from, f, k)
  {
    EditSettles(x, t, slugOf, e, from, to, i);
    OnePosition(x, t, slugOf, e, from, to, i);
    PresentAfterEdit(x, t, slugOf, e, from, f, held, x.cause.ev, i);
    ServesRightAt(x, t, slugOf, e, from, f, i);
  }

  /** Check by check, for every edit and every session: the session ends with what the refresh would
      send, as far as f can tell, exactly when the edit serves it right. */
  lemma CheckAfterEdit(x: Scene, t: Tables, slugOf: string -> string, e: EndpointDTO, from: Time, to: Time,
                       f: Check -> Check, held: map<int, CheckWithSlug>, k: int)
    requires AfterEdit(x, t, slugOf, e, from, to)
    requires Alike(f, Lookup(held, k), Refreshed(x, t, k))
    ensures Alike(f, Lookup(ReceiveAll(held, x.es, x.socketId), k), Refreshed(x, x.u, k)) <==>
              ServesRight(x, t, slugOf, e, from, f, k)
  {
    if k in IdsOf(x.u, e.id) {
      var i := PositionOfCheck(x, t, slugOf, e, from, to, k);
      PresentServed(x, t, slugOf, e, from, to, f, held, i);
    } else {
      AbsentAfterEdit(x, t, slugOf, e, from, to, f, held, k);
      NoPosition(x, t, slugOf, e, from, to, k);
    }
  }

  // ---------------------------------------------------------------- the refinement theorems

  /** The alert columns of a check, which a probe has no use for. */
  function ForgetAlert(c: Check): Check {
    c.(state := EvalUnknown, stateChange := 0, stateCheck := 0)
  }

  /** Every column. */
  function Whole(c: Check): Check {
    c
  }

  /** The edit neither misdirects the session nor drops a check behind its back. */
  ghost predicate DirectsWell(x: Scene, t: Tables, slugOf: string -> string, e: EndpointDTO, from: Time)
    requires x.n > 0 && x.cause.Edited? && |x.cause.ev.current.checks| == |e.checks|
  {
    forall k :: Directs(x, t, slugOf, e, from, k)
  }

  /** A session that held its refresh holds the new refresh after the events of an edit, to the last
      column, if and only if the edit does not misdirect it, send it a stale copy or overlook it. */
  lemma EventsRefineRefresh(x: Scene, t: Tables, slugOf: string -> string, e: EndpointDTO, from: Time, to: Time,
                            held: map<int, CheckWithSlug>)
    requires AfterEdit(x, t, slugOf, e, from, to)
    requires forall k :: Lookup(held, k) == Refreshed(x, t, k)
    ensures (forall k :: Lookup(ReceiveAll(held, x.es, x.socketId), k) == Refreshed(x, x.u, k)) <==>
      && DirectsWell(x, t, slugOf, e, from)
      && (forall k :: !SendsStale(x, t, slugOf, e, from, x.cause.ev.current.updated, k))
      && forall k :: !Overlooked(x, t, slugOf, e, from, Whole, k)
  {
    forall k
      ensures Lookup(ReceiveAll(held, x.es, x.socketId), k) == Refreshed(x, x.u, k) <==>
        && Directs(x, t, slugOf, e, from, k) && !SendsStale(x, t, slugOf, e, from, x.cause.ev.current.updated, k)
        && !Overlooked(x, t, slugOf, e, from, Whole, k)
    {
      CheckAfterEdit(x, t, slugOf, e, from, to, Whole, held, k);
    }
  }

  /** Alert columns aside, the events of an edit leave a session with its refresh if and only if the
      edit neither misdirects nor overlooks it. */
  lemma EventsRefineRefreshForProbes(x: Scene, t: Tables, slugOf: string -> string, e: EndpointDTO, from: Time,
                                     to: Time, held: map<int, CheckWithSlug>)
    requires AfterEdit(x, t, slugOf, e, from, to)
    requires forall k :: Alike(ForgetAlert, Lookup(held, k), Refreshed(x, t, k))
    ensures (forall k :: Alike(ForgetAlert, Lookup(ReceiveAll(held, x.es, x.socketId), k), Refreshed(x, x.u, k))) <==>
      DirectsWell(x, t, slugOf, e, from) && forall k :: !Overlooked(x, t, slugOf, e, from, ForgetAlert, k)
  {
    forall k
      ensures Alike(ForgetAlert, Lookup(ReceiveAll(held, x.es, x.socketId), k), Refreshed(x, x.u, k)) <==>
                Directs(x, t, slugOf, e, from, k) && !Overlooked(x, t, slugOf, e, from, ForgetAlert, k)
    {
      CheckAfterEdit(x, t, slugOf, e, from, to, ForgetAlert, held, k);
    }
  }

  // ---------------------------------------------------------------- whom the events serve

  /** Routes and indexes agree about probe p: its refresh and the events go by the same checks. */
  ghost predicate Served(t: Tables, p: int) {
    forall k :: RunsOn(t, p, k) <==> p in Routed(t, k)
  }

  lemma StoredProbesAreServed(t: Tables, p: int)
    requires Valid(t) && p in t.probes
    ensures Served(t, p)
  {
    forall k
      ensures RunsOn(t, p, k) <==> p in Routed(t, k)
    {
      if k in t.checks && t.checks[k].enabled {
        Duality(t, p, k);
      }
    }
  }

  /** An event about k misleads the session through probe 0: it brings a check that is not and was not
      its own, or takes away one that stays its own. */
  predicate Misled(x: Scene, k: int, before: set<int>, after: set<int>)
    requires x.n > 0
  {
    && ZeroTurn(x, k)
    && if 0 in after then !(Turn(x, k) && x.p in before + after) else 0 in before && Turn(x, k) && x.p in after
  }

  /** A session whose probe is served is misdirected through probe 0 only, and never overlooked. */
  lemma ServedIsOnlyMisled(x: Scene, t: Tables, slugOf: string -> string, e: EndpointDTO, from: Time, to: Time, i: int)
    requires AfterEdit(x, t, slugOf, e, from, to) && Served(t, x.p) && Served(x.u, x.p) && 0 <= i < |e.checks|
    ensures var k, stamp := x.cause.ev.current.checks[i].id, x.cause.ev.current.updated;
      && (Misdirects(x, t, slugOf, e, from, stamp, i, k) <==>
          && !(LeftAlone(t, slugOf, e, from, i, k) && t.checks[k].updated < stamp)
          && Misled(x, k, Routed(t, k), RunOf(t, Owned(e.checks[i], e))))
      && forall f, w :: !Overlooks(x, t, slugOf, e, from, f, i, k, w)
  {
    var k := x.cause.ev.current.checks[i].id;
    RunsAsAsked(t, x.u, slugOf, e, x.cause.ev, from, to, i);
    IndexedAfterEdit(t, x.u, slugOf, e, x.cause.ev, from, to, i, x.p);
    assert RunsOn(t, x.p, k) <==> x.p in Routed(t, k);
    assert RunsOn(x.u, x.p, k) <==> x.p in Routed(x.u, k);
  }

  /** No route lists probe 0. */
  ghost predicate AvoidsProbeZero(checks: seq<Check>) {
    forall c :: c in checks ==> 0 !in RouteIds(c.route)
  }

  /** No stored route lists probe 0. */
  ghost predicate StoreAvoidsProbeZero(t: Tables) {
    forall k :: k in t.checks ==> 0 !in RouteIds(t.checks[k].route)
  }

  lemma AvoidedByRoute(t: Tables, c: Check)
    requires ProbesKeyed(t) && 0 !in RouteIds(c.route)
    ensures 0 !in RunOf(t, c)
  {
  }

  /** Where no route lists probe 0, no edit misdirects or overlooks a session whose probe is served:
      a stored one always, a deleted one while routes and indexes agree about it. */
  lemma NeverMisdirected(x: Scene, t: Tables, slugOf: string -> string, e: EndpointDTO, from: Time, to: Time)
    requires AfterEdit(x, t, slugOf, e, from, to) && StoreAvoidsProbeZero(t) && AvoidsProbeZero(e.checks)
    requires Served(t, x.p) && Served(x.u, x.p)
    ensures DirectsWell(x, t, slugOf, e, from)
    ensures forall f, k :: !Overlooked(x, t, slugOf, e, from, f, k)
  {
    forall i | 0 <= i < |e.checks|
      ensures 0 !in RunOf(t, Owned(e.checks[i], e))
    {
      assert e.checks[i] in e.checks;
      AvoidedByRoute(t, Owned(e.checks[i], e));
    }
    forall k
      ensures 0 !in Routed(t, k) && !Forgets(x, t, k)
    {
      if k in t.checks {
        AvoidedByRoute(t, t.checks[k]);
      }
      assert RunsOn(t, x.p, k) <==> x.p in Routed(t, k);
    }
    forall i, k | Has(x, e, i, k)
      ensures !Misdirects(x, t, slugOf, e, from, x.cause.ev.current.updated, i, k)
      ensures forall f, w :: !Overlooks(x, t, slugOf, e, from, f, i, k, w)
    {
      ServedIsOnlyMisled(x, t, slugOf, e, from, to, i);
    }
  }

  /** When the clock has moved on since every check of the endpoint was stamped, no copy is stale. */
  lemma NoTieNoStaleCopy(x: Scene, t: Tables, slugOf: string -> string, e: EndpointDTO, from: Time, to: Time)
    requires AfterEdit(x, t, slugOf, e, from, to)
    requires forall k :: k in IdsOf(t, e.id) ==> t.checks[k].updated < from
    ensures forall k :: !SendsStale(x, t, slugOf, e, from, x.cause.ev.current.updated, k)
  {
  }

  /** The event an edit publishes is faithful: what was added or rewritten is stamped no earlier
      than the event; a running check stamped earlier is as it was before, under the same slug. */
  lemma EventIsFaithful(t: Tables, u: Tables, slugOf: string -> string, e: EndpointDTO, ev: EndpointUpdated, from: Time,
                        to: Time, c: Check)
    requires Valid(t) && Realised(t, u, slugOf, e, ev, from, to) && c in ev.current.checks
    ensures c.id in u.checks && u.checks[c.id].endpointId == e.id
    ensures !(c.id in t.checks && u.checks[c.id] == t.checks[c.id]) ==>
              ev.current.updated <= c.updated && u.checks[c.id] == c
    ensures c.updated < ev.current.updated ==> c in ev.last.checks && ev.last.slug == ev.current.slug
    ensures ev.last.slug != ev.current.slug ==> ev.current.updated <= c.updated && u.checks[c.id] == c
  {
    var i :| 0 <= i < |ev.current.checks| && ev.current.checks[i] == c;
    assert CheckRealised(t, u, ev, Owned(e.checks[i], e), c, to);
    assert c.id in Ids(ev.current.checks);
  }

  /** When the clock has moved on since check k was stamped, a rewritten check always looks different,
      so the session is overlooked exactly when it keeps the check and is not told. */
  lemma OverlooksJustWhen(x: Scene, t: Tables, slugOf: string -> string, e: EndpointDTO, from: Time, to: Time, i: int,
                          k: int)
    requires AfterEdit(x, t, slugOf, e, from, to) && Has(x, e, i, k)
    requires k in IdsOf(t, e.id) ==> t.checks[k].updated < from
    ensures Overlooks(x, t, slugOf, e, from, ForgetAlert, i, k, x.cause.ev.current.checks[i]) <==>
      && !LeftAlone(t, slugOf, e, from, i, k)
      && Ran(x, t, k) && WillHold(x, t, e, i, k) && !Hits(x, k, RunOf(t, Owned(e.checks[i], e)))
  {
    var ev := x.cause.ev;
    UntouchedJustWhen(t, x.u, slugOf, e, ev, from, to, i);
    EventChecks(t, x.u, slugOf, e, ev, from, to);
    if k in t.checks {
      assert !OfOther(t, k, e.id);
    }
  }

  // ---------------------------------------------------------------- after creating or deleting an endpoint

  ghost predicate AfterCreation(x: Scene, t: Tables, slugOf: string -> string, e: EndpointDTO, from: Time, to: Time) {
    x.cause.Born? && Staged(x) && Valid(t) && Created(t, x.u, slugOf, e, x.cause.d, from, to)
  }

  /** The new endpoint misplaces position i of the request, which got id k: going by the routes the
      session is told of it, going by the indexes it should not be, or the other way round. */
  ghost predicate Misplaces(x: Scene, t: Tables, e: EndpointDTO, i: int, k: int)
    requires x.n > 0 && 0 <= i < |e.checks|
  {
    var c := Owned(e.checks[i], e);
    Hits(x, k, RunOf(t, c)) != (Turn(x, k) && WillRun(t, c, UnknownRoute, k, x.p))
  }

  /** The indexes after the creation, about the check at position i. */
  lemma IndexedAfterCreation(x: Scene, t: Tables, slugOf: string -> string, e: EndpointDTO, from: Time, to: Time,
                             i: int)
    requires AfterCreation(x, t, slugOf, e, from, to) && 0 <= i < |e.checks|
    ensures var c, k := x.cause.d.checks[i], x.cause.d.checks[i].id;
      && k !in t.checks && k in x.u.checks && x.u.checks[k] == c && SlugOf(x.u, c) == x.cause.d.slug
      && RunOf(x.u, c) == RunOf(t, Owned(e.checks[i], e))
      && (RunsOn(x.u, x.p, k) <==> WillRun(t, Owned(e.checks[i], e), UnknownRoute, k, x.p))
  {
    var d, c := x.cause.d, x.cause.d.checks[i];
    assert WasAdded(t, x.u, Owned(e.checks[i], d), c, d.updated, to);
    assert forall k :: k in t.checks ==> CheckKeyed(t, k);
    RunsAsStored(x.u, c.id, x.p);
    assert Tagged(x.u, c.orgId, x.p, RouteTags(c.route)) <==> Tagged(t, c.orgId, x.p, RouteTags(c.route));
  }

  /** About a check of a new endpoint: its copy to the probes of its route. */
  lemma NewCheckAfterCreation(x: Scene, t: Tables, slugOf: string -> string, e: EndpointDTO, from: Time, to: Time,
                              f: Check -> Check, held: map<int, CheckWithSlug>, i: int)
    requires AfterCreation(x, t, slugOf, e, from, to) && 0 <= i < |e.checks|
    requires Alike(f, Lookup(held, x.cause.d.checks[i].id), Refreshed(x, t, x.cause.d.checks[i].id))
    ensures var k := x.cause.d.checks[i].id;
      Alike(f, Lookup(ReceiveAll(held, x.es, x.socketId), k), Refreshed(x, x.u, k)) <==> !Misplaces(x, t, e, i, k)
  {
    var d := x.cause.d;
    var c := d.checks[i];
    var k, v := c.id, CheckWithSlug(c, d.slug);
    assert c in d.checks;
    IndexedAfterCreation(x, t, slugOf, e, from, to, i);
    assert Telling(x, k, v, RunOf(x.u, c), {} - RunOf(x.u, c)) by {
      forall o | o in d.checks && o.id == k
        ensures o == c
      {
        SameId(d.checks, c, o);
      }
      forall q | q in RunOf(x.u, c)
        ensures DueFor(x.u, x.cause, q, CheckCreated, v)
      {
      }
    }
    OutcomeOfTelling(x, f, held, k, v, v, {}, RunOf(x.u, c), Refreshed(x, t, k), Refreshed(x, x.u, k));
  }

  /** The events of a created endpoint add to a session exactly what its refresh gained, if and only
      if none of the new checks is misplaced. */
  lemma CreationRefinesRefresh(x: Scene, t: Tables, slugOf: string -> string, e: EndpointDTO, from: Time, to: Time,
                               f: Check -> Check, held: map<int, CheckWithSlug>)
    requires AfterCreation(x, t, slugOf, e, from, to)
    requires forall k :: Alike(f, Lookup(held, k), Refreshed(x, t, k))
    ensures (forall k :: Alike(f, Lookup(ReceiveAll(held, x.es, x.socketId), k), Refreshed(x, x.u, k)))
       <==> forall i :: 0 <= i < |e.checks| ==> !Misplaces(x, t, e, i, x.cause.d.checks[i].id)
  {
    var d := x.cause.d;
    forall i | 0 <= i < |e.checks|
      ensures var k := d.checks[i].id;
        Alike(f, Lookup(ReceiveAll(held, x.es, x.socketId), k), Refreshed(x, x.u, k)) <==> !Misplaces(x, t, e, i, k)
    {
      NewCheckAfterCreation(x, t, slugOf, e, from, to, f, held, i);
    }
    forall k | k !in Ids(d.checks)
      ensures Alike(f, Lookup(ReceiveAll(held, x.es, x.socketId), k), Refreshed(x, x.u, k))
    {
      OldCheckAfterCreation(x, t, slugOf, e, from, to, k);
      NothingTold(x, f, held, k, t);
    }
    forall k | k in Ids(d.checks)
      ensures exists i :: 0 <= i < |e.checks| && d.checks[i].id == k
    {
      var c :| c in d.checks && c.id == k;
      var i :| 0 <= i < |d.checks| && d.checks[i] == c;
    }
  }

  /** Where no route lists probe 0, nothing is misplaced for a session whose probe is served. */
  lemma NeverMisplaced(x: Scene, t: Tables, slugOf: string -> string, e: EndpointDTO, from: Time, to: Time, i: int)
    requires AfterCreation(x, t, slugOf, e, from, to) && 0 <= i < |e.checks|
    requires AvoidsProbeZero(e.checks) && Served(x.u, x.p)
    ensures !Misplaces(x, t, e, i, x.cause.d.checks[i].id)
  {
    IndexedAfterCreation(x, t, slugOf, e, from, to, i);
    var c := x.cause.d.checks[i];
    assert e.checks[i] in e.checks;
    AvoidedByRoute(t, Owned(e.checks[i], e));
    assert RunsOn(x.u, x.p, c.id) <==> x.p in Routed(x.u, c.id);
  }

  lemma OldCheckAfterCreation(x: Scene, t: Tables, slugOf: string -> string, e: EndpointDTO, from: Time, to: Time,
                              k: int)
    requires AfterCreation(x, t, slugOf, e, from, to) && k !in Ids(x.cause.d.checks)
    ensures Refreshed(x, t, k) == Refreshed(x, x.u, k)
  {
    var d := x.cause.d;
    assert k !in IdsOf(t, d.id) by {
      if k in t.checks {
        assert CheckKeyed(t, k);
      }
    }
    OtherEndpoint(x, t, d.id, k);
  }

  /** The events of a deleted endpoint take from a session exactly what its refresh lost, if and only
      if it is told of each of its checks; probe 0 does no harm here. */
  lemma DeletionRefinesRefresh(x: Scene, t: Tables, e: int, now: Time, f: Check -> Check, held: map<int, CheckWithSlug>)
    requires x.cause.Dead? && Staged(x) && Valid(t) && Deleted(t, x.u, e, x.cause.d, now)
    requires forall k :: Alike(f, Lookup(held, k), Refreshed(x, t, k))
    ensures (forall k :: Alike(f, Lookup(ReceiveAll(held, x.es, x.socketId), k), Refreshed(x, x.u, k)))
       <==> forall k :: k in IdsOf(t, e) ==> !Forgets(x, t, k)
  {
    ViewChecks(t, now, e, x.cause.d);
    forall k
      ensures Alike(f, Lookup(ReceiveAll(held, x.es, x.socketId), k), Refreshed(x, x.u, k)) <==>
                !(k in IdsOf(t, e) && Forgets(x, t, k))
    {
      if k in IdsOf(t, e) {
        OldCheckAfterDeletion(x, t, e, now, f, held, k);
      } else {
        OtherEndpoint(x, t, e, k);
        NothingTold(x, f, held, k, t);
      }
    }
  }

  lemma OldCheckAfterDeletion(x: Scene, t: Tables, e: int, now: Time, f: Check -> Check, held: map<int, CheckWithSlug>,
                              k: int)
    requires x.cause.Dead? && Staged(x) && Valid(t) && Deleted(t, x.u, e, x.cause.d, now) && k in IdsOf(t, e)
    requires Alike(f, Lookup(held, k), Refreshed(x, t, k))
    ensures Refreshed(x, x.u, k) == None
    ensures Lookup(ReceiveAll(held, x.es, x.socketId), k) == None <==> !Forgets(x, t, k)
  {
    var d := x.cause.d;
    ViewChecks(t, now, e, d);
    assert CheckKeyed(t, k);
    assert k !in x.u.checks by {
      assert !OfOther(x.u, k, e);
    }
    var o := Scrutinize(now, t.checks[k]);
    var v := CheckWithSlug(o, d.slug);
    assert o in d.checks && RunOf(x.u, o) == Routed(t, k);
    assert Telling(x, k, v, {}, Routed(t, k)) by {
      forall q | q in Routed(t, k)
        ensures DueFor(x.u, x.cause, q, CheckRemoved, v)
      {
      }
    }
    SessionAfter(x, held, k, v, {}, Routed(t, k));
  }

  // ---------------------------------------------------------------- what an edit leaves in order

  lemma ElsewhereKeepsSound(t: Tables, u: Tables, e: int)
    requires Sound(t) && Valid(u) && SameElsewhere(t, u, e)
    ensures Sound(u)
  {
  }

  /** The handler can look up every route of the event. */
  lemma EventRoutes(t: Tables, u: Tables, slugOf: string -> string, e: EndpointDTO, ev: EndpointUpdated, from: Time,
                    to: Time)
    requires Valid(t) && Realised(t, u, slugOf, e, ev, from, to)
    ensures KnownRoutes(ev.last.checks) && KnownRoutes(ev.current.checks)
  {
    EventChecks(t, u, slugOf, e, ev, from, to);
    forall o | o in ev.last.checks
      ensures !o.route.UnknownRoute?
    {
      assert CheckKeyed(t, o.id);
    }
    forall c | c in ev.current.checks
      ensures !c.route.UnknownRoute?
    {
      var i :| 0 <= i < |ev.current.checks| && ev.current.checks[i] == c;
      UntouchedJustWhen(t, u, slugOf, e, ev, from, to, i);
      assert CheckKeyed(u, c.id);
      if LeftAlone(t, slugOf, e, from, i, c.id) {
        assert CheckKeyed(t, c.id);
      }
    }
  }
}
