/** Which handlers of events can race, and when a race does harm (socketio.go): each event is handled
    in a goroutine of its own. */
module Races {
  import opened Model
  import opened Database
  import opened Rows
  import opened CheckBatches
  import opened EndpointStore
  import opened Dispatch
  import opened Refinement
  import opened Notification
  import opened Runs

  /** m is some interleaving of the parts. */
  ghost predicate Interleaves(parts: seq<seq<Emission>>, m: seq<Emission>)
    decreases |m|
  {
    if m == [] then forall i :: 0 <= i < |parts| ==> parts[i] == []
    else exists i :: && 0 <= i < |parts| && parts[i] != [] && parts[i][|parts[i]| - 1] == m[|m| - 1]
                     && Interleaves(parts[i := parts[i][..|parts[i]| - 1]], m[..|m| - 1])
  }

  lemma {:induction false} OnCheckHas(es: seq<Emission>, k: int)
    ensures OnCheck(es, k) != [] <==> exists e :: e in es && e.payload.check.id == k
  {
    if es != [] {
      var front, last := es[..|es| - 1], es[|es| - 1];
      assert es == front + [last];
      OnCheckHas(front, k);
    }
  }

  /** An interleaving keeps the events about a check that only one part is about. */
  lemma {:induction false} InterleavingKeeps(parts: seq<seq<Emission>>, m: seq<Emission>, i: nat, k: int)
    requires Interleaves(parts, m) && i < |parts|
    requires forall j :: 0 <= j < |parts| && j != i ==> OnCheck(parts[j], k) == []
    ensures OnCheck(m, k) == OnCheck(parts[i], k)
    decreases |m|
  {
    if m != [] {
      var j :| && 0 <= j < |parts| && parts[j] != [] && parts[j][|parts[j]| - 1] == m[|m| - 1]
               && Interleaves(parts[j := parts[j][..|parts[j]| - 1]], m[..|m| - 1]);
      var front, last := parts[j][..|parts[j]| - 1], m[|m| - 1];
      assert parts[j] == front + [last] && m == m[..|m| - 1] + [last];
      OnCheckMore(front, last, k);
      OnCheckMore(m[..|m| - 1], last, k);
      InterleavingKeeps(parts[j := front], m[..|m| - 1], i, k);
    }
  }

  lemma {:induction false} NoneInConcat(parts: seq<seq<Emission>>, k: int)
    requires forall j :: 0 <= j < |parts| ==> OnCheck(parts[j], k) == []
    ensures OnCheck(Concat(parts), k) == []
  {
    if parts != [] {
      NoneInConcat(parts[..|parts| - 1], k);
      OnCheckJoin(Concat(parts[..|parts| - 1]), parts[|parts| - 1], k);
    }
  }

  function EndpointOf(cause: Cause): int {
    match cause
    case Edited(ev) => ev.current.id
    case Born(d) => d.id
    case Dead(d) => d.id
  }

  /** Check k was issued, and if it is stored it is of endpoint e. */
  ghost predicate OwnedForGood(t: Tables, k: int, e: int) {
    0 < k < t.nextCheck && (k in t.checks ==> t.checks[k].endpointId == e)
  }

  /** New checks get their ids from the store. */
  ghost predicate NumbersNothing(t: Tables, c: Change) {
    (c.Create? ==> Unnumbered(c.e)) && (c.Edit? ==> NewChecksUnnumbered(t, c.e))
  }

  /** A check of the endpoint after the edit that was issued before it was stored before it. */
  lemma NoIssuedCheckIsNew(t: Tables, u: Tables, slugOf: string -> string, e: EndpointDTO, ev: EndpointUpdated,
                           from: Time, to: Time, k: int)
    requires Valid(t) && Realised(t, u, slugOf, e, ev, from, to) && NewChecksUnnumbered(t, e) && k < t.nextCheck
    requires k in IdsOf(u, e.id)
    ensures k in t.checks
  {
    assert k in Ids(ev.current.checks);
    var c :| c in ev.current.checks && c.id == k;
    var i :| 0 <= i < |ev.current.checks| && ev.current.checks[i] == c;
    assert CheckRealised(t, u, ev, Owned(e.checks[i], e), c, to);
  }

  lemma ElsewhereKeepsOwner(t: Tables, u: Tables, e: int, k: int, owner: int)
    requires SameElsewhere(t, u, e) && OwnedForGood(t, k, owner) && t.nextCheck <= u.nextCheck
    requires k in IdsOf(u, e) ==> k in t.checks
    ensures OwnedForGood(u, k, owner)
  {
    if k in u.checks && k !in IdsOf(u, e) {
      assert OfOther(u, k, e);
    }
    if k in IdsOf(u, e) {
      assert !OfOther(t, k, e);
    }
  }

  lemma EditKeepsOwner(t: Tables, u: Tables, slugOf: string -> string, e: EndpointDTO, ev: EndpointUpdated, k: int,
                       owner: int)
    requires Valid(t) && EditedAs(t, u, slugOf, e, ev) && NewChecksUnnumbered(t, e) && OwnedForGood(t, k, owner)
    ensures OwnedForGood(u, k, owner)
  {
    var from, to :| Realised(t, u, slugOf, e, ev, from, to);
    if k in IdsOf(u, e.id) {
      NoIssuedCheckIsNew(t, u, slugOf, e, ev, from, to, k);
    }
    ElsewhereKeepsOwner(t, u, e.id, k, owner);
  }

  /** The checks of a new endpoint were not issued before. */
  lemma BornChecksAreNew(t: Tables, u: Tables, slugOf: string -> string, e: EndpointDTO, d: EndpointDTO, from: Time,
                         to: Time, k: int)
    requires Created(t, u, slugOf, e, d, from, to) && Unnumbered(e) && k in IdsOf(u, d.id)
    ensures t.nextCheck <= k
  {
    assert k in Ids(d.checks);
    var c :| c in d.checks && c.id == k;
    var i :| 0 <= i < |d.checks| && d.checks[i] == c;
    assert WasAdded(t, u, Owned(e.checks[i], d), c, d.updated, to);
    assert e.checks[i] in e.checks;
  }

  lemma BirthKeepsOwner(t: Tables, u: Tables, slugOf: string -> string, e: EndpointDTO, d: EndpointDTO, k: int,
                        owner: int)
    requires Valid(t) && CreatedAs(t, u, slugOf, e, d) && Unnumbered(e) && OwnedForGood(t, k, owner)
    ensures OwnedForGood(u, k, owner)
  {
    var from, to :| Created(t, u, slugOf, e, d, from, to);
    forall l | l in IdsOf(u, d.id)
      ensures t.nextCheck <= l
    {
      BornChecksAreNew(t, u, slugOf, e, d, from, to, l);
    }
    ElsewhereKeepsOwner(t, u, d.id, k, owner);
  }

  /** A check never changes hands, not even after it was deleted. */
  lemma StepKeepsOwner(t: Tables, u: Tables, slugOf: string -> string, c: Change, cause: Option<Cause>, k: int,
                       owner: int)
    requires Valid(t) && Step(t, u, slugOf, c, cause) && NumbersNothing(t, c) && OwnedForGood(t, k, owner)
    ensures OwnedForGood(u, k, owner)
  {
    if u != t {
      match c
      case Create(e, _) => BirthKeepsOwner(t, u, slugOf, e, cause.value.d, k, owner);
      case Edit(e, _) => EditKeepsOwner(t, u, slugOf, e, cause.value.ev, k, owner);
      case Remove(_, id, _) =>
        var now :| Deleted(t, u, id, cause.value.d, now);
        if k in u.checks {
          assert k !in IdsOf(u, id) && OfOther(u, k, id);
        }
      case Results(jobs) => ResultsMoveAlerts(t, jobs);
    }
  }

  /** An event is about checks its endpoint has before or after the step. */
  lemma EventIsOfEndpoint(t: Tables, u: Tables, slugOf: string -> string, c: Change, cause: Cause, v: Tables,
                          since: Time, instance: string, part: seq<Emission>, m: Emission)
    requires Valid(t) && Wrote(t, u, slugOf, c, cause) && Handled(v, since, instance, cause, part) && m in part
    ensures var k, e := m.payload.check.id, EndpointOf(cause); k in IdsOf(t, e) || k in IdsOf(u, e)
  {
    var d := m.payload.check;
    match c
    case Create(e, _) =>
      var from, to :| Created(t, u, slugOf, e, cause.d, from, to);
      assert d.id in Ids(cause.d.checks);
    case Edit(e, _) =>
      var from, to :| Realised(t, u, slugOf, e, cause.ev, from, to);
      EventChecks(t, u, slugOf, e, cause.ev, from, to);
      assert d in cause.ev.current.checks || d in cause.ev.last.checks;
    case Remove(_, id, _) =>
      var now :| Deleted(t, u, id, cause.d, now);
      ViewChecks(t, now, id, cause.d);
  }

  ghost predicate NumberNothing(stores: seq<Tables>, changes: seq<Change>)
    requires |stores| == |changes| + 1
  {
    forall i :: 0 <= i < |changes| ==> NumbersNothing(stores[i], changes[i])
  }

  lemma {:induction false} OwnerStays(stores: seq<Tables>, slugOf: string -> string, changes: seq<Change>,
                                      causes: seq<Option<Cause>>, k: int, owner: int, i: nat, j: nat)
    requires Steps(stores, slugOf, changes, causes) && NumberNothing(stores, changes) && i <= j <= |changes|
    requires forall n :: 0 <= n <= |changes| ==> Valid(stores[n])
    requires OwnedForGood(stores[i], k, owner)
    ensures OwnedForGood(stores[j], k, owner)
    decreases j
  {
    if i < j {
      var n := j - 1;
      OwnerStays(stores, slugOf, changes, causes, k, owner, i, n);
      assert Step(stores[n], stores[n + 1], slugOf, changes[n], causes[n]);
      assert NumbersNothing(stores[n], changes[n]) && Valid(stores[n]);
      StepKeepsOwner(stores[n], stores[n + 1], slugOf, changes[n], causes[n], k, owner);
    }
  }

  /** A part is about a check its endpoint has just before or just after the change. */
  lemma PartIsOfEndpoint(stores: seq<Tables>, slugOf: string -> string, changes: seq<Change>,
                         causes: seq<Option<Cause>>, v: Tables, since: Time, instance: string,
                         parts: seq<seq<Emission>>, i: nat, x: Emission)
    returns (n: nat)
    requires Steps(stores, slugOf, changes, causes) && Answered(v, since, instance, causes, parts)
    requires i < |changes| && Commits(changes[i]) && x in parts[i] && Valid(stores[i])
    ensures causes[i].Some? && i <= n <= i + 1 && x.payload.check.id in IdsOf(stores[n], EndpointOf(causes[i].value))
  {
    assert AnsweredBy(v, since, instance, causes[i], parts[i]);
    assert Step(stores[i], stores[i + 1], slugOf, changes[i], causes[i]);
    EventIsOfEndpoint(stores[i], stores[i + 1], slugOf, changes[i], causes[i].value, v, since, instance, parts[i], x);
    n := if x.payload.check.id in IdsOf(stores[i], EndpointOf(causes[i].value)) then i else i + 1;
  }

  /** Events of different endpoints are about different checks, however far apart. */
  lemma EndpointsShareNoCheck(stores: seq<Tables>, slugOf: string -> string, changes: seq<Change>,
                              causes: seq<Option<Cause>>, v: Tables, since: Time, instance: string,
                              parts: seq<seq<Emission>>, i: nat, j: nat, x: Emission, y: Emission)
    requires Steps(stores, slugOf, changes, causes) && NumberNothing(stores, changes)
    requires forall l :: 0 <= l < |changes| ==> Commits(changes[l])
    requires Answered(v, since, instance, causes, parts)
    requires forall n :: 0 <= n <= |changes| ==> Valid(stores[n])
    requires i < j < |changes| && x in parts[i] && y in parts[j] && SameCheck(x, y)
    ensures causes[i].Some? && causes[j].Some? && EndpointOf(causes[i].value) == EndpointOf(causes[j].value)
  {
    var k := x.payload.check.id;
    var n := PartIsOfEndpoint(stores, slugOf, changes, causes, v, since, instance, parts, i, x);
    var l := PartIsOfEndpoint(stores, slugOf, changes, causes, v, since, instance, parts, j, y);
    assert CheckKeyed(stores[n], k);
    OwnerStays(stores, slugOf, changes, causes, k, EndpointOf(causes[i].value), n, l);
  }

  // ---------------------------------------------------------------- one endpoint at a time

  predicate OfEndpoint(cause: Option<Cause>, e: int) {
    cause.Some? && EndpointOf(cause.value) == e
  }

  /** What is sent about endpoint e, in the order of its changes. */
  function AboutEndpoint(causes: seq<Option<Cause>>, parts: seq<seq<Emission>>, e: int): seq<Emission>
    requires |causes| == |parts|
  {
    if causes == [] then []
    else
      var n := |causes| - 1;
      AboutEndpoint(causes[..n], parts[..n], e) + if OfEndpoint(causes[n], e) then parts[n] else []
  }

  /** Parts about the same check are about the same endpoint. */
  ghost predicate ChecksHaveOwners(causes: seq<Option<Cause>>, parts: seq<seq<Emission>>) {
    && |causes| == |parts|
    && (forall i :: 0 <= i < |parts| && causes[i].None? ==> parts[i] == [])
    && forall i, j, x, y :: 0 <= i < j < |parts| && x in parts[i] && y in parts[j] && SameCheck(x, y) ==>
         causes[i].Some? && OfEndpoint(causes[j], EndpointOf(causes[i].value))
  }

  /** Each queue is what is sent about one endpoint, and no endpoint has two queues or none. */
  ghost predicate QueuedByEndpoint(causes: seq<Option<Cause>>, parts: seq<seq<Emission>>, ids: seq<int>,
                                   queues: seq<seq<Emission>>)
    requires |causes| == |parts|
  {
    && |ids| == |queues| && (forall g, h :: 0 <= g < h < |ids| ==> ids[g] != ids[h])
    && (forall i :: 0 <= i < |causes| && causes[i].Some? ==> EndpointOf(causes[i].value) in ids)
    && forall g :: 0 <= g < |ids| ==> queues[g] == AboutEndpoint(causes, parts, ids[g])
  }

  lemma {:induction false} AboutEndpointHas(causes: seq<Option<Cause>>, parts: seq<seq<Emission>>, e: int, x: Emission)
    returns (i: int)
    requires |causes| == |parts| && x in AboutEndpoint(causes, parts, e)
    ensures 0 <= i < |causes| && OfEndpoint(causes[i], e) && x in parts[i]
  {
    var n := |causes| - 1;
    if OfEndpoint(causes[n], e) && x in parts[n] {
      i := n;
    } else {
      i := AboutEndpointHas(causes[..n], parts[..n], e, x);
    }
  }

  /** When only endpoint e is about check k, its queue has all there is about k. */
  lemma {:induction false} AboutEndpointKeeps(causes: seq<Option<Cause>>, parts: seq<seq<Emission>>, e: int, k: int)
    requires |causes| == |parts|
    requires forall i :: 0 <= i < |parts| && !OfEndpoint(causes[i], e) ==> OnCheck(parts[i], k) == []
    ensures OnCheck(AboutEndpoint(causes, parts, e), k) == OnCheck(Concat(parts), k)
  {
    if causes != [] {
      var n := |causes| - 1;
      AboutEndpointKeeps(causes[..n], parts[..n], e, k);
      OnCheckJoin(Concat(parts[..n]), parts[n], k);
      OnCheckJoin(AboutEndpoint(causes[..n], parts[..n], e), if OfEndpoint(causes[n], e) then parts[n] else [], k);
    }
  }

  /** The queue of another endpoint is not about check k. */
  lemma OtherQueueIsSilent(causes: seq<Option<Cause>>, parts: seq<seq<Emission>>, e: int, k: int)
    requires |causes| == |parts|
    requires forall i :: 0 <= i < |parts| && OfEndpoint(causes[i], e) ==> OnCheck(parts[i], k) == []
    ensures OnCheck(AboutEndpoint(causes, parts, e), k) == []
  {
    OnCheckHas(AboutEndpoint(causes, parts, e), k);
    if x :| x in AboutEndpoint(causes, parts, e) && x.payload.check.id == k {
      var i := AboutEndpointHas(causes, parts, e, x);
      OnCheckHas(parts[i], k);
    }
  }

  /** Two parts about check k are about one endpoint. */
  lemma OwnerOfCheck(causes: seq<Option<Cause>>, parts: seq<seq<Emission>>, i: nat, k: int)
    requires ChecksHaveOwners(causes, parts) && i < |parts| && OnCheck(parts[i], k) != []
    ensures causes[i].Some?
    ensures forall j :: 0 <= j < |parts| && !OfEndpoint(causes[j], EndpointOf(causes[i].value)) ==>
              OnCheck(parts[j], k) == []
  {
    OnCheckHas(parts[i], k);
    var x :| x in parts[i] && x.payload.check.id == k;
    forall j | 0 <= j < |parts| && OnCheck(parts[j], k) != []
      ensures OfEndpoint(causes[j], EndpointOf(causes[i].value))
    {
      OnCheckHas(parts[j], k);
      var y :| y in parts[j] && y.payload.check.id == k;
      assert i < j ==> SameCheck(x, y);
      assert j < i ==> SameCheck(y, x);
    }
  }

  /** However the queues interleave, the events about each check keep their order. */
  lemma QueuesKeepOrder(causes: seq<Option<Cause>>, parts: seq<seq<Emission>>, ids: seq<int>,
                        queues: seq<seq<Emission>>, m: seq<Emission>)
    requires ChecksHaveOwners(causes, parts) && QueuedByEndpoint(causes, parts, ids, queues) && Interleaves(queues, m)
    ensures KeepsOrder(parts, m)
  {
    forall k
      ensures OnCheck(m, k) == OnCheck(Concat(parts), k)
    {
      if i :| 0 <= i < |parts| && OnCheck(parts[i], k) != [] {
        OwnerOfCheck(causes, parts, i, k);
        var e := EndpointOf(causes[i].value);
        var g :| 0 <= g < |ids| && ids[g] == e;
        forall h | 0 <= h < |ids| && h != g
          ensures OnCheck(queues[h], k) == []
        {
          OtherQueueIsSilent(causes, parts, ids[h], k);
        }
        InterleavingKeeps(queues, m, g, k);
        AboutEndpointKeeps(causes, parts, e, k);
      } else {
        SilentEverywhere(causes, parts, ids, queues, m, k);
      }
    }
  }

  lemma SilentEverywhere(causes: seq<Option<Cause>>, parts: seq<seq<Emission>>, ids: seq<int>,
                         queues: seq<seq<Emission>>, m: seq<Emission>, k: int)
    requires |causes| == |parts| && QueuedByEndpoint(causes, parts, ids, queues) && Interleaves(queues, m)
    requires forall i :: 0 <= i < |parts| ==> OnCheck(parts[i], k) == []
    ensures OnCheck(m, k) == [] == OnCheck(Concat(parts), k)
  {
    NoneInConcat(parts, k);
    forall h | 0 <= h < |ids|
      ensures OnCheck(queues[h], k) == []
    {
      OtherQueueIsSilent(causes, parts, ids[h], k);
    }
    if |queues| > 0 {
      InterleavingKeeps(queues, m, 0, k);
    }
  }

  /** When new checks are numbered by the store and the events of each endpoint are handled one after
      the other, any interleaving between endpoints keeps sessions refreshed: only two events of one
      endpoint can race. */
  lemma EndpointsNeverRace(stores: seq<Tables>, slugOf: string -> string, changes: seq<Change>,
                           causes: seq<Option<Cause>>, since: Time, instance: string, parts: seq<seq<Emission>>,
                           ps: set<int>, ids: seq<int>, queues: seq<seq<Emission>>, m: seq<Emission>)
    requires Run(stores, slugOf, changes, causes, since, instance, parts) && NumberNothing(stores, changes)
    requires ServedThroughout(stores, ps)
    requires QueuedByEndpoint(causes, parts, ids, queues) && Interleaves(queues, m)
    ensures Notified(stores[0], stores[|changes|], since, instance, ps, m)
  {
    forall n | 0 <= n <= |changes|
      ensures Valid(stores[n])
    {
      StaysInOrder(stores, slugOf, changes, causes, since, instance, parts, n);
    }
    forall i, j, x, y | 0 <= i < j < |parts| && x in parts[i] && y in parts[j] && SameCheck(x, y)
      ensures causes[i].Some? && OfEndpoint(causes[j], EndpointOf(causes[i].value))
    {
      EndpointsShareNoCheck(stores, slugOf, changes, causes, stores[0], since, instance, parts, i, j, x, y);
    }
    assert forall i :: 0 <= i < |parts| ==> AnsweredBy(stores[0], since, instance, causes[i], parts[i]);
    QueuesKeepOrder(causes, parts, ids, queues, m);
    RunStaysRefreshed(stores, slugOf, changes, causes, since, instance, parts, ps, m);
  }

  // ---------------------------------------------------------------- any interleaving at all

  lemma {:induction false} TakenFromOne(parts: seq<seq<Emission>>, j: nat, front: seq<Emission>, last: Emission)
    requires j < |parts| && parts[j] == front + [last]
    ensures multiset(Concat(parts)) == multiset(Concat(parts[j := front])) + multiset{last}
  {
    var n := |parts| - 1;
    if j == n {
      assert parts[j := front][..n] == parts[..n];
    } else {
      assert parts[j := front][..n] == parts[..n][j := front];
      TakenFromOne(parts[..n], j, front, last);
    }
  }

  lemma {:induction false} NothingLeft(parts: seq<seq<Emission>>)
    requires forall i :: 0 <= i < |parts| ==> parts[i] == []
    ensures Concat(parts) == []
  {
    if parts != [] {
      NothingLeft(parts[..|parts| - 1]);
    }
  }

  /** An interleaving sends what the handlers send, no more and no less. */
  lemma {:induction false} InterleavingSendsAll(parts: seq<seq<Emission>>, m: seq<Emission>)
    requires Interleaves(parts, m)
    ensures multiset(m) == multiset(Concat(parts))
    decreases |m|
  {
    if m == [] {
      NothingLeft(parts);
    } else {
      var j :| && 0 <= j < |parts| && parts[j] != [] && parts[j][|parts[j]| - 1] == m[|m| - 1]
               && Interleaves(parts[j := parts[j][..|parts[j]| - 1]], m[..|m| - 1]);
      var front, last := parts[j][..|parts[j]| - 1], m[|m| - 1];
      assert parts[j] == front + [last] && m == m[..|m| - 1] + [last];
      InterleavingSendsAll(parts[j := front], m[..|m| - 1]);
      TakenFromOne(parts, j, front, last);
    }
  }

  /** The handlers race harmfully exactly when, for some session and check, the event that arrives last
      has another effect than the one that was due last. */
  lemma RaceIsHarmlessJustWhen(stores: seq<Tables>, slugOf: string -> string, changes: seq<Change>,
                               causes: seq<Option<Cause>>, since: Time, instance: string, parts: seq<seq<Emission>>,
                               ps: set<int>, m: seq<Emission>)
    requires Run(stores, slugOf, changes, causes, since, instance, parts) && ServedThroughout(stores, ps)
    requires Interleaves(parts, m)
    ensures Notified(stores[0], stores[|changes|], since, instance, ps, m) <==>
              SameEnds(stores[|changes|], since, instance, ps, m, Concat(parts))
  {
    InterleavingSendsAll(parts, m);
    RunRefreshedJustWhen(stores, slugOf, changes, causes, since, instance, parts, ps, m);
  }
}
