/** Handing checks out to the sessions of a probe: the full refresh (sockets/probe.go) and the
    events sent after an endpoint was edited (socketio.go). */
module Dispatch {
  import opened Model
  import opened Database
  import opened Rows
  import opened Routing
  import opened ProbeStore

  // ---------------------------------------------------------------- choosing a session

  /** The sessions of a probe that sent a heartbeat since then, in the order of their ids. */
  function Live(t: Tables, p: int, since: Time): seq<ProbeSession> {
    GetProbeSessions(t, p, "", Some(since))
  }

  /** A session is live just when its last heartbeat came after the instant, and asking for probe 0 is
      asking for all of them. */
  lemma LiveJustWhen(t: Tables, p: int, since: Time, s: ProbeSession)
    requires SessionsKeyed(t)
    ensures s in Live(t, p, since) <==>
              s.id in t.sessions && t.sessions[s.id] == s && s.updated > since && (p != 0 ==> s.probeId == p)
  {
    SessionsListed(t, p, "", Some(since));
  }

  /** A session that was opened after the instant is live for its probe, besides those that were. */
  lemma OpenedIsLive(t: Tables, u: Tables, s0: ProbeSession, s: ProbeSession, from: Time, to: Time, p: int, since: Time,
                     r: ProbeSession)
    requires SessionsKeyed(t) && SessionOpened(t, u, s0, s, from, to) && since < from
    ensures r in Live(u, p, since) <==> r in Live(t, p, since) || (r == s && (p != 0 ==> s0.probeId == p))
    ensures s.socketId == s0.socketId && s.instanceId == s0.instanceId && s.probeId == s0.probeId && s.orgId == s0.orgId
  {
    LiveJustWhen(u, p, since, r);
    LiveJustWhen(t, p, since, r);
  }

  /** Of the live sessions only those of the socket that was closed are not live any more. */
  lemma ClosedIsNotLive(t: Tables, u: Tables, orgId: int, socketId: string, deleted: Option<ProbeSession>, from: Time,
                        to: Time, p: int, since: Time, r: ProbeSession)
    requires SessionsKeyed(t) && SessionClosed(t, u, orgId, socketId, deleted, from, to)
    ensures r in Live(u, p, since) <==> r in Live(t, p, since) && !(r.orgId == orgId && r.socketId == socketId)
  {
    LiveJustWhen(u, p, since, r);
    LiveJustWhen(t, p, since, r);
  }

  /** The store without the sessions that have stopped sending heartbeats. */
  function WithoutDead(t: Tables, since: Time): Tables {
    t.(sessions := map s | s in t.sessions && t.sessions[s].updated > since :: t.sessions[s])
  }

  lemma {:induction false} DeadAreNotListed(t: Tables, p: int, since: Time, n: nat)
    ensures SessionsUpTo(WithoutDead(t, since), p, "", Some(since), n) == SessionsUpTo(t, p, "", Some(since), n)
  {
    if n != 0 {
      DeadAreNotListed(t, p, since, n - 1);
    }
  }

  datatype EventKind = CheckCreated | CheckUpdated | CheckRemoved

  /** One call of EmitCheckEvent: the socket it reached, if that socket belongs to this instance. */
  datatype Emission = Emission(probe: int, socketId: Option<string>, kind: EventKind, payload: CheckWithSlug)

  /** Where an instance delivers an event about a check: to the session its id selects, if local. */
  function Target(t: Tables, since: Time, instance: string, p: int, checkId: int): Option<string> {
    var sessions := Live(t, p, since);
    if |sessions| < 1 then None
    else
      var pos := checkId % |sessions|;
      if sessions[pos].instanceId == instance then Some(sessions[pos].socketId) else None
  }

  /** The session whose turn it is gets the event just when it is connected to the instance: an event
      about a session elsewhere goes nowhere from here. */
  lemma TargetIsLocal(t: Tables, since: Time, instance: string, p: int, k: int)
    ensures var l := Live(t, p, since);
      match Target(t, since, instance, p, k)
      case None => l == [] || l[k % |l|].instanceId != instance
      case Some(id) => l != [] && l[k % |l|].instanceId == instance && l[k % |l|].socketId == id
  {
  }

  method EmitCheckEvent(db: Database, since: Time, instance: string, p: int, kind: EventKind, payload: CheckWithSlug)
    returns (e: Emission)
    ensures e == Emission(p, Target(db.tables, since, instance, p, payload.check.id), kind, payload)
  {
    var sessions := Live(db.tables, p, since);
    var totalSessions := |sessions|;
    if totalSessions < 1 {
      return Emission(p, None, kind, payload);
    }
    var pos := payload.check.id % totalSessions;
    if sessions[pos].instanceId == instance {
      return Emission(p, Some(sessions[pos].socketId), kind, payload);
    }
    return Emission(p, None, kind, payload);
  }

  // ---------------------------------------------------------------- the full refresh

  /** What the refresh sends the session at position pos of n about check k. */
  function Assigned(t: Tables, p: int, pos: nat, n: nat, k: int): Option<CheckWithSlug>
    requires n > 0
  {
    if RunsOn(t, p, k) && k % n == pos then Some(CheckWithSlug(t.checks[k], SlugOf(t, t.checks[k]))) else None
  }

  /** sent is the refresh for position pos of n: every assigned check once, nothing else. */
  ghost predicate IsRefresh(t: Tables, p: int, pos: nat, n: nat, sent: seq<CheckWithSlug>)
    requires n > 0
  {
    && (forall cs :: cs in sent ==> Assigned(t, p, pos, n, cs.check.id) == Some(cs))
    && (forall k :: Assigned(t, p, pos, n, k).Some? ==> Assigned(t, p, pos, n, k).value in sent)
    && (forall i, j :: 0 <= i < j < |sent| ==> sent[i].check.id != sent[j].check.id)
  }

  /** Sessions that have stopped sending heartbeats neither get an event nor take a check away from the
      others, whatever their number. */
  lemma DeadSessionsDoNotCount(t: Tables, p: int, since: Time, instance: string, pos: nat, n: nat, k: int)
    requires n > 0
    ensures var u := WithoutDead(t, since);
      && Live(u, p, since) == Live(t, p, since)
      && Target(u, since, instance, p, k) == Target(t, since, instance, p, k)
      && Assigned(u, p, pos, n, k) == Assigned(t, p, pos, n, k)
  {
    if t.nextSession > 0 {
      DeadAreNotListed(t, p, since, t.nextSession);
    }
    assert RunsOn(WithoutDead(t, since), p, k) <==> RunsOn(t, p, k);
  }

  /** The body of ProbeSocket.Refresh: None when the socket has no live session any more. */
  method Refresh(db: Database, since: Time, p: int, socketId: string) returns (sent: Option<seq<CheckWithSlug>>)
    requires Valid(db.tables) && SessionsKeyed(db.tables)
    ensures sent.None? <==> forall s :: s in Live(db.tables, p, since) ==> s.socketId != socketId
    ensures forall pos ::
              0 <= pos < |Live(db.tables, p, since)| && Live(db.tables, p, since)[pos].socketId == socketId ==>
              sent.Some? && IsRefresh(db.tables, p, pos, |Live(db.tables, p, since)|, sent.value)
  {
    var sessions := Live(db.tables, p, since);
    SessionsListed(db.tables, p, "", Some(since));
    for pos := 0 to |sessions|
      invariant forall i :: 0 <= i < pos ==> sessions[i].socketId != socketId
    {
      if sessions[pos].socketId != socketId {
        continue;
      }
      var checks := GetProbeChecks(db, p);
      var activeChecks := SelectActive(db.tables, p, pos, |sessions|, checks);
      forall i | 0 <= i < |sessions| && sessions[i].socketId == socketId
        ensures i == pos
      {
        assert sessions[i] in sessions && sessions[pos] in sessions;
        assert SameSocket(sessions[i], sessions[pos]);
      }
      assert sessions[pos] in sessions;
      return Some(activeChecks);
    }
    return None;
  }

  method SelectActive(ghost t: Tables, ghost p: int, pos: nat, n: nat,
                      checks: seq<CheckWithSlug>) returns (active: seq<CheckWithSlug>)
    requires Valid(t) && n > 0
    requires forall cs :: cs in checks <==>
               RunsOn(t, p, cs.check.id) && cs == CheckWithSlug(t.checks[cs.check.id], SlugOf(t, cs.check))
    requires forall i, j :: 0 <= i < j < |checks| ==> checks[i].check.id != checks[j].check.id
    ensures IsRefresh(t, p, pos, n, active)
  {
    active := [];
    for i := 0 to |checks|
      invariant forall cs :: cs in active <==> cs in checks[..i] && cs.check.id % n == pos
      invariant forall a, b :: 0 <= a < b < |active| ==> active[a].check.id != active[b].check.id
    {
      var cs := checks[i];
      assert checks[..i + 1] == checks[..i] + [cs];
      assert cs in checks;
      if cs.check.enabled && cs.check.id % n == pos {
        assert forall j :: 0 <= j < i ==> checks[j].check.id != cs.check.id;
        active := active + [cs];
      }
    }
    assert checks[..|checks|] == checks;
    forall k | Assigned(t, p, pos, n, k).Some?
      ensures Assigned(t, p, pos, n, k).value in active
    {
      assert CheckKeyed(t, k);
      assert Assigned(t, p, pos, n, k).value in checks;
    }
  }

  // ---------------------------------------------------------------- sessions partition the work

  function Flatten(sent: seq<seq<CheckWithSlug>>): seq<CheckWithSlug> {
    if sent == [] then [] else Flatten(sent[..|sent| - 1]) + sent[|sent| - 1]
  }

  /** Together the refreshes of the first m of n sessions hold the checks whose turn falls there, once each. */
  lemma {:induction false} RefreshesSoFar(t: Tables, p: int, n: nat, sent: seq<seq<CheckWithSlug>>, m: nat)
    requires m <= n == |sent| && n > 0
    requires forall pos :: 0 <= pos < n ==> IsRefresh(t, p, pos, n, sent[pos])
    ensures var all := Flatten(sent[..m]);
      && (forall cs :: cs in all ==> cs.check.id % n < m && Assigned(t, p, cs.check.id % n, n, cs.check.id) == Some(cs))
      && (forall k :: RunsOn(t, p, k) && k % n < m ==> CheckWithSlug(t.checks[k], SlugOf(t, t.checks[k])) in all)
      && (forall i, j :: 0 <= i < j < |all| ==> all[i].check.id != all[j].check.id)
  {
    if m != 0 {
      RefreshesSoFar(t, p, n, sent, m - 1);
      var some, last := Flatten(sent[..m - 1]), sent[m - 1];
      assert sent[..m][..m - 1] == sent[..m - 1];
      assert IsRefresh(t, p, m - 1, n, last);
      var all := Flatten(sent[..m]);
      assert all == some + last;
      forall k | RunsOn(t, p, k) && k % n < m
        ensures CheckWithSlug(t.checks[k], SlugOf(t, t.checks[k])) in all
      {
        if k % n == m - 1 {
          assert Assigned(t, p, m - 1, n, k).Some?;
        }
      }
      forall i, j | 0 <= i < j < |all|
        ensures all[i].check.id != all[j].check.id
      {
        if i < |some| && |some| <= j {
          assert some[i] in some && last[j - |some|] in last;
        }
      }
    }
  }

  /** The refreshes of all n live sessions of a probe together hand out exactly the checks that run
      on it, and none of them twice; and the events about each of those checks go to the session
      whose refresh holds it. */
  lemma SessionsPartition(t: Tables, p: int, since: Time, sent: seq<seq<CheckWithSlug>>)
    requires |Live(t, p, since)| == |sent| > 0
    requires forall pos :: 0 <= pos < |sent| ==> IsRefresh(t, p, pos, |sent|, sent[pos])
    requires Valid(t)
    ensures forall cs :: cs in Flatten(sent) <==>
              RunsOn(t, p, cs.check.id) && cs == CheckWithSlug(t.checks[cs.check.id], SlugOf(t, cs.check))
    ensures forall i, j :: 0 <= i < j < |Flatten(sent)| ==> Flatten(sent)[i].check.id != Flatten(sent)[j].check.id
    ensures forall pos, cs :: 0 <= pos < |sent| && cs in sent[pos] ==>
              Target(t, since, Live(t, p, since)[pos].instanceId, p, cs.check.id)
                  == Some(Live(t, p, since)[pos].socketId)
  {
    var n := |Live(t, p, since)|;
    RefreshesSoFar(t, p, n, sent, n);
    assert sent[..n] == sent;
    forall k | RunsOn(t, p, k)
      ensures t.checks[k].id == k
    {
      assert CheckKeyed(t, k);
    }
  }

  // ---------------------------------------------------------------- what an event must cause

  /** The session an emission is for gets its effect; the others are not touched. */
  function Receive(held: map<int, CheckWithSlug>, e: Emission, socketId: string): map<int, CheckWithSlug> {
    if e.socketId != Some(socketId) then held
    else if e.kind == CheckRemoved then held - {e.payload.check.id}
    else held[e.payload.check.id := e.payload]
  }

  function ReceiveAll(held: map<int, CheckWithSlug>, es: seq<Emission>, socketId: string): map<int, CheckWithSlug> {
    if es == [] then held else Receive(ReceiveAll(held, es[..|es| - 1], socketId), es[|es| - 1], socketId)
  }

  /** The enabled checks the endpoint had before. */
  ghost predicate WasRunning(last: EndpointDTO, o: Check) {
    o in last.checks && o.enabled
  }

  ghost predicate IsRunning(current: EndpointDTO, c: Check) {
    c in current.checks && c.enabled
  }

  /** Checks stamped no earlier than the edit count as changed by it. */
  ghost predicate Changed(ev: EndpointUpdated, c: Check) {
    IsRunning(ev.current, c) && !(c.updated < ev.current.updated)
  }

  /** The probe is told of a changed check that it had, or has not had. */
  ghost predicate DueUpsert(t: Tables, ev: EndpointUpdated, p: int, kind: EventKind, c: Check) {
    && Changed(ev, c) && p in ProbesFor(t, c)
    && kind == if exists o :: WasRunning(ev.last, o) && o.id == c.id then CheckUpdated else CheckCreated
  }

  /** The probe no longer runs a changed check. */
  ghost predicate DueRerouted(t: Tables, ev: EndpointUpdated, p: int, c: Check) {
    && Changed(ev, c) && p !in ProbesFor(t, c)
    && exists o :: WasRunning(ev.last, o) && o.id == c.id && p in ProbesFor(t, o)
  }

  /** The check is disabled or gone. */
  ghost predicate DueStopped(t: Tables, ev: EndpointUpdated, p: int, o: Check) {
    && WasRunning(ev.last, o) && p in ProbesFor(t, o)
    && forall c :: IsRunning(ev.current, c) ==> c.id != o.id
  }

  /** Everything an EndpointUpdated event calls for. */
  ghost predicate Due(t: Tables, ev: EndpointUpdated, p: int, kind: EventKind, payload: CheckWithSlug) {
    || (DueUpsert(t, ev, p, kind, payload.check) && payload.slug == ev.current.slug)
    || (kind == CheckRemoved && payload.slug == ev.last.slug
        && (DueRerouted(t, ev, p, payload.check) || DueStopped(t, ev, p, payload.check)))
  }

  ghost predicate KnownRoutes(checks: seq<Check>) {
    forall c :: c in checks ==> !c.route.UnknownRoute?
  }

  /** About one check, removals come after everything else. */
  ghost predicate RemovalsLast(es: seq<Emission>) {
    forall i, j :: 0 <= i < j < |es| && es[i].kind == CheckRemoved && SameCheck(es[i], es[j]) ==>
        es[j].kind == CheckRemoved
  }

  ghost predicate SameCheck(a: Emission, b: Emission) {
    a.payload.check.id == b.payload.check.id
  }

  lemma RemovalsLastJoin(a: seq<Emission>, b: seq<Emission>)
    requires RemovalsLast(a) && RemovalsLast(b)
    requires forall x, y :: x in a && y in b && x.kind == CheckRemoved && SameCheck(x, y) ==> y.kind == CheckRemoved
    ensures RemovalsLast(a + b)
  {
    var es := a + b;
    forall i, j | 0 <= i < j < |es| && es[i].kind == CheckRemoved && SameCheck(es[i], es[j])
      ensures es[j].kind == CheckRemoved
    {
      if i < |a| && |a| <= j {
        assert es[i] in a && es[j] in b;
      }
    }
  }

  lemma OneKind(es: seq<Emission>, kind: EventKind)
    requires forall e :: e in es ==> e.kind == kind
    ensures RemovalsLast(es)
  {
    assert forall i :: 0 <= i < |es| ==> es[i] in es;
  }

  // ---------------------------------------------------------------- the handlers

  /** One event about c to each of the probes that is not in skip. */
  method EmitToProbes(db: Database, since: Time, instance: string, probes: seq<int>, skip: set<int>, kind: EventKind,
                      payload: CheckWithSlug)
    returns (es: seq<Emission>)
    ensures forall e :: e in es <==>
              && e.probe in probes && e.probe !in skip
              && e == Emission(e.probe, Target(db.tables, since, instance, e.probe, payload.check.id), kind, payload)
  {
    es := [];
    for i := 0 to |probes|
      invariant forall e :: e in es <==>
                  && e.probe in probes[..i] && e.probe !in skip
                  && e == Emission(e.probe, Target(db.tables, since, instance, e.probe, payload.check.id), kind,
                         payload)
    {
      assert probes[..i + 1] == probes[..i] + [probes[i]];
      if probes[i] !in skip {
        var e := EmitCheckEvent(db, since, instance, probes[i], kind, payload);
        es := es + [e];
      }
    }
    assert probes[..|probes|] == probes;
  }

  /** What a changed check that was running before sends out. */
  ghost predicate ChangedEmission(t: Tables, since: Time, instance: string, ev: EndpointUpdated, c: Check, o: Check,
                                  e: Emission) {
    && e.socketId == Target(t, since, instance, e.probe, c.id) && e.payload.check == c
    && if e.probe in ProbesFor(t, c) then e.kind == CheckUpdated && e.payload.slug == ev.current.slug
       else e.probe in ProbesFor(t, o) && e.kind == CheckRemoved && e.payload.slug == ev.last.slug
  }

  ghost predicate PlainEmission(t: Tables, since: Time, instance: string, kind: EventKind, slug: string, c: Check,
                                e: Emission) {
    && e.socketId == Target(t, since, instance, e.probe, c.id) && e.payload == CheckWithSlug(c, slug)
    && e.kind == kind && e.probe in ProbesFor(t, c)
  }

  method EmitChanged(db: Database, since: Time, instance: string, ev: EndpointUpdated, c: Check, o: Check)
    returns (ok: bool, es: seq<Emission>)
    ensures ok <==> !c.route.UnknownRoute? && !o.route.UnknownRoute?
    ensures ok ==> forall e :: e in es <==> ChangedEmission(db.tables, since, instance, ev, c, o, e)
    ensures ok ==> RemovalsLast(es)
  {
    var probeIds := GetProbesForCheck(db, c);
    if probeIds.Failure? {
      return false, [];
    }
    es := EmitToProbes(db, since, instance, probeIds.value, {}, CheckUpdated, CheckWithSlug(c, ev.current.slug));
    var oldProbes := GetProbesForCheck(db, o);
    if oldProbes.Failure? {
      return false, es;
    }
    assert forall p :: p in ProbesFor(db.tables, c) <==> p in probeIds.value;
    assert forall p :: p in ProbesFor(db.tables, o) <==> p in oldProbes.value;
    var removed := EmitToProbes(db, since, instance, oldProbes.value, Elements(probeIds.value), CheckRemoved,
                                CheckWithSlug(c, ev.last.slug));
    OneKind(es, CheckUpdated);
    OneKind(removed, CheckRemoved);
    RemovalsLastJoin(es, removed);
    es := es + removed;
    ok := true;
  }

  method EmitPlain(db: Database, since: Time, instance: string, kind: EventKind, slug: string, c: Check)
    returns (ok: bool, es: seq<Emission>)
    ensures ok <==> !c.route.UnknownRoute?
    ensures ok ==>
              RemovalsLast(es) && forall e :: e in es <==> PlainEmission(db.tables, since, instance, kind, slug, c, e)
  {
    var probeIds := GetProbesForCheck(db, c);
    if probeIds.Failure? {
      return false, [];
    }
    assert forall p :: p in ProbesFor(db.tables, c) <==> p in probeIds.value;
    es := EmitToProbes(db, since, instance, probeIds.value, {}, kind, CheckWithSlug(c, slug));
    OneKind(es, kind);
    ok := true;
  }

  /** The enabled checks of last by id. */
  ghost predicate IndexesRunning(last: EndpointDTO, oldChecks: map<int, Check>) {
    && (forall k :: k in oldChecks ==> WasRunning(last, oldChecks[k]) && oldChecks[k].id == k)
    && (forall o :: WasRunning(last, o) ==> o.id in oldChecks && oldChecks[o.id] == o)
  }

  method IndexRunning(last: EndpointDTO) returns (oldChecks: map<int, Check>)
    requires DistinctIds(last.checks)
    ensures IndexesRunning(last, oldChecks)
  {
    oldChecks := map[];
    for i := 0 to |last.checks|
      invariant forall k :: k in oldChecks ==>
                  oldChecks[k] in last.checks[..i] && oldChecks[k].enabled && oldChecks[k].id == k
      invariant forall o :: o in last.checks[..i] && o.enabled ==> o.id in oldChecks && oldChecks[o.id] == o
    {
      var check := last.checks[i];
      assert last.checks[..i + 1] == last.checks[..i] + [check];
      assert forall j :: 0 <= j < i ==> last.checks[j].id != check.id;
      if check.enabled {
        oldChecks := oldChecks[check.id := check];
      }
    }
    assert last.checks[..|last.checks|] == last.checks;
  }

  /** c is one of the checks, running, and counts as changed. */
  ghost predicate ChangedAmong(checks: seq<Check>, at: Time, c: Check) {
    c in checks && c.enabled && !(c.updated < at)
  }

  function RunningIds(checks: seq<Check>): set<int> {
    set c | c in checks && c.enabled :: c.id
  }

  lemma OneMoreRunning(checks: seq<Check>, c: Check)
    ensures RunningIds(checks + [c]) == RunningIds(checks) + if c.enabled then {c.id} else {}
  {
  }

  /** The running checks of current, split by whether the edit changed them and whether they were
      running before. */
  method SortChecks(ev: EndpointUpdated, oldChecks: map<int, Check>)
    returns (seen: set<int>, changed: seq<Check>, created: seq<Check>)
    ensures forall k :: k in seen <==> exists c :: IsRunning(ev.current, c) && c.id == k
    ensures forall c :: c in changed <==> Changed(ev, c) && c.id in oldChecks
    ensures forall c :: c in created <==> Changed(ev, c) && c.id !in oldChecks
    ensures DistinctIds(ev.current.checks) ==> DistinctIds(changed)
  {
    seen, changed, created := {}, [], [];
    var current, at := ev.current.checks, ev.current.updated;
    for i := 0 to |current|
      invariant seen == RunningIds(current[..i])
      invariant forall c :: c in changed <==> ChangedAmong(current[..i], at, c) && c.id in oldChecks
      invariant forall c :: c in created <==> ChangedAmong(current[..i], at, c) && c.id !in oldChecks
      invariant DistinctIds(current) ==> DistinctIds(changed)
    {
      var check := current[i];
      assert current[..i + 1] == current[..i] + [check];
      OneMoreRunning(current[..i], check);
      assert DistinctIds(current) ==> forall c :: c in changed ==> c.id != check.id;
      if check.enabled {
        seen := seen + {check.id};
        if !(check.updated < at) {
          if check.id in oldChecks {
            changed := changed + [check];
          } else {
            created := created + [check];
          }
        }
      }
    }
    assert current[..|current|] == current;
    forall k
      ensures k in seen <==> exists c :: IsRunning(ev.current, c) && c.id == k
    {
      if k in seen {
        var c :| c in current && c.enabled && c.id == k;
        assert IsRunning(ev.current, c);
      }
    }
  }

  /** An emission the event calls for, sent where it belongs. */
  ghost predicate DueEmission(t: Tables, since: Time, instance: string, ev: EndpointUpdated, e: Emission) {
    Due(t, ev, e.probe, e.kind, e.payload) && e.socketId == Target(t, since, instance, e.probe, e.payload.check.id)
  }

  ghost predicate ForChanged(t: Tables, since: Time, instance: string, ev: EndpointUpdated,
                             oldChecks: map<int, Check>, checks: seq<Check>, e: Emission)
    requires forall c :: c in checks ==> c.id in oldChecks
  {
    var c := e.payload.check;
    c in checks && ChangedEmission(t, since, instance, ev, c, oldChecks[c.id], e)
  }

  ghost predicate ForCreated(t: Tables, since: Time, instance: string, ev: EndpointUpdated, checks: seq<Check>,
                             e: Emission) {
    e.payload.check in checks && PlainEmission(t, since, instance, CheckCreated, ev.current.slug, e.payload.check, e)
  }

  ghost predicate ForStopped(t: Tables, since: Time, instance: string, ev: EndpointUpdated,
                             oldChecks: map<int, Check>, ids: set<int>, e: Emission)
  {
    var o := e.payload.check;
    && o.id in ids && o.id in oldChecks && oldChecks[o.id] == o
    && PlainEmission(t, since, instance, CheckRemoved, ev.last.slug, o, e)
  }

  /** The three parts of the handler cover what is due, and no more. */
  lemma DueByPart(t: Tables, since: Time, instance: string, ev: EndpointUpdated, oldChecks: map<int, Check>,
                  seen: set<int>, changed: seq<Check>, created: seq<Check>, e: Emission)
    requires IndexesRunning(ev.last, oldChecks)
    requires forall k :: k in seen <==> exists c :: IsRunning(ev.current, c) && c.id == k
    requires forall c :: c in changed <==> Changed(ev, c) && c.id in oldChecks
    requires forall c :: c in created <==> Changed(ev, c) && c.id !in oldChecks
    ensures DueEmission(t, since, instance, ev, e) <==>
            || ForChanged(t, since, instance, ev, oldChecks, changed, e)
            || ForCreated(t, since, instance, ev, created, e)
            || ForStopped(t, since, instance, ev, oldChecks, oldChecks.Keys - seen, e)
  {
  }

  /** What an event of each kind is about: a check that is new among the enabled ones or was among them,
      as it is now and under the slug the endpoint has now; or one to remove, under the slug it had. */
  ghost predicate Tells(ev: EndpointUpdated, e: Emission) {
    var c := e.payload.check;
    match e.kind
    case CheckCreated =>
      && c in ev.current.checks && c.enabled && e.payload.slug == ev.current.slug
      && forall o :: o in ev.last.checks && o.id == c.id ==> !o.enabled
    case CheckUpdated =>
      && c in ev.current.checks && c.enabled && e.payload.slug == ev.current.slug
      && exists o :: o in ev.last.checks && o.id == c.id && o.enabled
    case CheckRemoved =>
      && e.payload.slug == ev.last.slug && (c in ev.current.checks || c in ev.last.checks) && c.enabled
      && exists o :: o in ev.last.checks && o.id == c.id && o.enabled
  }

  method HandleEndpointUpdated(db: Database, since: Time, instance: string, ev: EndpointUpdated)
    returns (ok: bool, es: seq<Emission>)
    requires DistinctIds(ev.last.checks)
    ensures KnownRoutes(ev.last.checks) && KnownRoutes(ev.current.checks) ==> ok
    ensures ok ==> forall e :: e in es <==> DueEmission(db.tables, since, instance, ev, e)
    ensures ok && DistinctIds(ev.current.checks) ==> RemovalsLast(es)
    ensures ok ==> forall e :: e in es ==> Tells(ev, e)
  {
    ghost var distinct := DistinctIds(ev.current.checks);
    var oldChecks := IndexRunning(ev.last);
    var seen, changed, created := SortChecks(ev, oldChecks);
    es := [];
    for i := 0 to |changed|
      invariant forall e :: e in es <==> ForChanged(db.tables, since, instance, ev, oldChecks, changed[..i], e)
      invariant distinct ==> RemovalsLast(es)
    {
      assert changed[..i + 1] == changed[..i] + [changed[i]];
      assert changed[i] in changed && WasRunning(ev.last, oldChecks[changed[i].id]);
      var sent, more := EmitChanged(db, since, instance, ev, changed[i], oldChecks[changed[i].id]);
      if sent && distinct {
        RemovalsLastJoin(es, more);
      }
      es := es + more;
      if !sent {
        return false, es;
      }
    }
    assert changed[..|changed|] == changed;
    ghost var first := es;
    for i := 0 to |created|
      invariant forall e :: e in es <==> e in first || ForCreated(db.tables, since, instance, ev, created[..i], e)
      invariant distinct ==> RemovalsLast(es)
    {
      assert created[..i + 1] == created[..i] + [created[i]];
      assert created[i] in created;
      var sent, more := EmitPlain(db, since, instance, CheckCreated, ev.current.slug, created[i]);
      if sent && distinct {
        RemovalsLastJoin(es, more);
      }
      es := es + more;
      if !sent {
        return false, es;
      }
    }
    assert created[..|created|] == created;
    ghost var second := es;
    var rest := oldChecks.Keys - seen;
    while rest != {}
      invariant rest <= oldChecks.Keys - seen
      invariant forall e :: e in es <==>
                  e in second || ForStopped(db.tables, since, instance, ev, oldChecks, oldChecks.Keys - seen - rest, e)
      invariant distinct ==> RemovalsLast(es)
      decreases rest
    {
      var k := Pick(rest);
      rest := rest - {k};
      var sent, more := EmitPlain(db, since, instance, CheckRemoved, ev.last.slug, oldChecks[k]);
      if sent && distinct {
        RemovalsLastJoin(es, more);
      }
      es := es + more;
      if !sent {
        assert WasRunning(ev.last, oldChecks[k]);
        return false, es;
      }
    }
    forall e
      ensures e in es <==> DueEmission(db.tables, since, instance, ev, e)
      ensures e in es ==> Tells(ev, e)
    {
      DueByPart(db.tables, since, instance, ev, oldChecks, seen, changed, created, e);
    }
    ok := true;
  }

  /** Sends one kind of event about every enabled check, as after creating or deleting an endpoint. */
  method EmitForEach(db: Database, since: Time, instance: string, kind: EventKind,
                     d: EndpointDTO) returns (ok: bool, es: seq<Emission>)
    ensures KnownRoutes(d.checks) ==> ok
    ensures ok ==> forall e :: e in es <==>
              IsRunning(d, e.payload.check)
                  && PlainEmission(db.tables, since, instance, kind, d.slug, e.payload.check, e)
    ensures ok ==> RemovalsLast(es)
  {
    es := [];
    for i := 0 to |d.checks|
      invariant forall e :: e in es <==>
                  e.payload.check in d.checks[..i] && e.payload.check.enabled
                  && PlainEmission(db.tables, since, instance, kind, d.slug, e.payload.check, e)
    {
      assert d.checks[..i + 1] == d.checks[..i] + [d.checks[i]];
      if !d.checks[i].enabled {
        continue;
      }
      var sent, more := EmitPlain(db, since, instance, kind, d.slug, d.checks[i]);
      es := es + more;
      if !sent {
        assert d.checks[i] in d.checks;
        return false, es;
      }
    }
    assert d.checks[..|d.checks|] == d.checks;
    OneKind(es, kind);
    ok := true;
  }

  method HandleEndpointCreated(db: Database, since: Time, instance: string,
                               d: EndpointDTO) returns (ok: bool, es: seq<Emission>)
    ensures KnownRoutes(d.checks) ==> ok
    ensures ok ==> forall e :: e in es <==>
              IsRunning(d, e.payload.check)
                  && PlainEmission(db.tables, since, instance, CheckCreated, d.slug, e.payload.check, e)
    ensures ok ==> RemovalsLast(es)
  {
    ok, es := EmitForEach(db, since, instance, CheckCreated, d);
  }

  method HandleEndpointDeleted(db: Database, since: Time, instance: string,
                               d: EndpointDTO) returns (ok: bool, es: seq<Emission>)
    ensures KnownRoutes(d.checks) ==> ok
    ensures ok ==> forall e :: e in es <==>
              IsRunning(d, e.payload.check)
                  && PlainEmission(db.tables, since, instance, CheckRemoved, d.slug, e.payload.check, e)
    ensures ok ==> RemovalsLast(es)
  {
    ok, es := EmitForEach(db, since, instance, CheckRemoved, d);
  }
}
