/** Small stores and edits on which the conditions of the main theorems are met or fail. */
module Scenes {
  import opened Model
  import opened Database
  import opened Rows
  import opened CheckBatches
  import opened EndpointStore
  import opened Routing
  import opened ProbeStore
  import opened Dispatch
  import opened Refinement

  // ---------------------------------------------------------------- a store with one of everything

  /** Probe 1 and its one session, on instance "i". */
  function OneProbe(): map<int, Probe> {
    map[1 := Probe(1, 7, "p", "p", 0.0, 0.0, false, true, 0, true, 0, 0, 0)]
  }

  function OneSession(): map<int, ProbeSession> {
    map[1 := ProbeSession(1, 7, 1, "s", "i", "", 10 * SECOND)]
  }

  /** A check of endpoint 1, every 10 s. */
  function SomeCheck(id: nat, route: Route, state: EvalResult, settings: string, updated: Time): Check {
    Check(id, 7, 1, route, Http, 10, 1, true, state, 0, 0, settings, None, 0, updated)
  }

  /** Endpoint 1, edited at a time, with one check that probe 1 runs. */
  function OneCheck(c: Check, at: Time): Tables {
    Tables(map[1 := Endpoint(1, 7, "a", "a", 0, at)], {}, map[1 := c], {IdRow(1, 1)}, {}, OneProbe(), {}, OneSession(),
        2, 2, 2, 2)
  }

  function Request(checks: seq<Check>, at: Time): EndpointDTO {
    EndpointDTO(1, 7, "a", "a", checks, [], 0, at)
  }

  function ToTheSession(q: int, kind: EventKind, c: Check): Emission {
    Emission(q, Some("s"), kind, CheckWithSlug(c, "a"))
  }

  lemma OneSessionIsLive(t: Tables, q: int)
    requires t.sessions == OneSession() && t.nextSession == 2 && 0 <= q <= 1
    ensures Live(t, q, 0) == [t.sessions[1]]
  {
    assert SessionsUpTo(t, q, "", Some(0), 0) == [];
    assert SessionsUpTo(t, q, "", Some(0), 1) == [t.sessions[1]];
    assert SessionsUpTo(t, q, "", Some(0), 2) == [t.sessions[1]];
  }

  lemma OneSessionIsTarget(t: Tables, q: int, k: int)
    requires t.sessions == OneSession() && t.nextSession == 2 && 0 <= q <= 1
    ensures Target(t, 0, "i", q, k) == Some("s") && k % 1 == 0
  {
    OneSessionIsLive(t, q);
  }

  lemma OneCheckIsSound(c: Check, at: Time)
    requires c == SomeCheck(1, ByIds([1]), c.state, c.settings, c.updated)
    ensures Sound(OneCheck(c, at)) && LocalSession(OneCheck(c, at), 0, "i", 1, 0, 1, "s")
  {
    var t := OneCheck(c, at);
    assert t.sessions[1].probeId == 1;
    OneSessionIsLive(t, 1);
  }

  /** A session with one check of its own holds it. */
  lemma OneCheckIsHeld(c: Check, at: Time, k: int)
    requires c == SomeCheck(1, ByIds([1]), c.state, c.settings, c.updated)
    ensures Assigned(OneCheck(c, at), 1, 0, 1, k) == Lookup(map[1 := CheckWithSlug(c, "a")], k)
  {
    assert IdRow(1, 1) in OneCheck(c, at).idIndex;
    assert k % 1 == 0;
  }

  /** What is due when the one check of an edited endpoint was stamped by the edit. */
  lemma OneUpdateIsDue(t: Tables, o: Check, c: Check, was: Time, at: Time)
    requires t.sessions == OneSession() && t.nextSession == 2
    requires o.enabled && c.enabled && o.id == c.id == 1 && o.route == c.route == ByIds([1]) && c.updated == at
    ensures Handled(t, 0, "i", Edited(EndpointUpdated(Request([o], was), Request([c], at))),
              [ToTheSession(1, CheckUpdated, c)])
  {
    var ev := EndpointUpdated(Request([o], was), Request([c], at));
    OneSessionIsTarget(t, 1, 1);
    assert WasRunning(ev.last, o) && IsRunning(ev.current, c);
    assert ProbesFor(t, c) == {1} == ProbesFor(t, o);
  }

  lemma OneReceived(held: map<int, CheckWithSlug>, e: Emission)
    requires e.socketId == Some("s") && e.kind != CheckRemoved
    ensures Lookup(ReceiveAll(held, [e], "s"), e.payload.check.id) == Some(e.payload)
  {
    assert [e][..0] == [];
    ReceiveAt(ReceiveAll(held, [], "s"), e, "s", e.payload.check.id);
  }

  // ---------------------------------------------------------------- one check, edited again and again

  /** The check as it is set at 100 s, 200 s and 300 s. */
  function Version(n: nat): Check {
    SomeCheck(1, ByIds([1]), EvalUnknown,
              if n == 1 then "old" else if n == 2 then "new" else "newer", n * (100 * SECOND))
  }

  function EditTo(n: nat): EndpointDTO
    requires n > 0
  {
    Request([Version(n).(updated := (n - 1) * (100 * SECOND))], (n - 1) * (100 * SECOND))
  }

  function EditEvent(n: nat): EndpointUpdated
    requires n > 0
  {
    EndpointUpdated(Request([Version(n - 1)], (n - 1) * (100 * SECOND)), Request([Version(n)], n * (100 * SECOND)))
  }

  /** The store with version n of the check; the probe may be gone, and with it its index row. */
  function StoreAt(n: nat, gone: bool): Tables {
    var t := OneCheck(Version(n), n * (100 * SECOND));
    if gone then t.(probes := map[], idIndex := {}) else t
  }

  lemma StoreIsSound(n: nat, gone: bool)
    ensures Sound(StoreAt(n, gone)) && LocalSession(StoreAt(n, gone), 0, "i", 1, 0, 1, "s")
  {
    OneCheckIsSound(Version(n), n * (100 * SECOND));
    OneSessionIsLive(StoreAt(n, gone), 1);
  }

  lemma EditRowIsRealised(n: nat, gone: bool)
    requires n > 1
    ensures RowRealised(StoreAt(n - 1, gone), StoreAt(n, gone), s => s, EditTo(n), EditEvent(n), n * (100 * SECOND),
                        n * (100 * SECOND))
  {
    assert Valid(StoreAt(n, gone)) by {
      StoreIsSound(n, gone);
    }
    VersionIsViewed(n - 1, n * (100 * SECOND), gone);
    OnlyVersionDiffers(n, gone);
  }

  lemma VersionIsViewed(n: nat, now: Time, gone: bool)
    ensures IsView(StoreAt(n, gone), now, 1, Request([Version(n)], n * (100 * SECOND)))
  {
    var t := StoreAt(n, gone);
    assert Version(n) in [Version(n)] && t.checks[1] in ChecksOf(t, 1);
  }

  lemma OnlyVersionDiffers(n: nat, gone: bool)
    requires n > 0
    ensures SameElsewhere(StoreAt(n - 1, gone), StoreAt(n, gone), 1)
  {
  }

  lemma EditRewrites(n: nat, gone: bool)
    requires 2 <= n <= 3
    ensures WasRewritten(StoreAt(n - 1, gone), StoreAt(n, gone), EditEvent(n), Owned(EditTo(n).checks[0], EditTo(n)),
                         Version(n), n * (100 * SECOND), n * (100 * SECOND))
  {
    assert EditEvent(n).last.checks == [Version(n - 1)] && Version(n).settings != Version(n - 1).settings;
  }

  lemma EditIsRealised(n: nat, gone: bool)
    requires 2 <= n <= 3
    ensures Realised(StoreAt(n - 1, gone), StoreAt(n, gone), s => s, EditTo(n), EditEvent(n), n * (100 * SECOND),
                     n * (100 * SECOND))
  {
    var t, u, e, ev, at := StoreAt(n - 1, gone), StoreAt(n, gone), EditTo(n), EditEvent(n), n * (100 * SECOND);
    EditRowIsRealised(n, gone);
    EditRewrites(n, gone);
    assert ChecksRealised(t, u, e, ev, at) by {
      assert ev.current.checks[0] in ev.current.checks;
      assert CheckRealised(t, u, ev, Owned(e.checks[0], e), ev.current.checks[0], at);
      assert IdsOf(u, 1) == {1} == Ids(ev.current.checks);
    }
  }

  /** What the handler sends about the edit. */
  lemma EditIsHandled(t: Tables, n: nat)
    requires n > 0 && t.sessions == OneSession() && t.nextSession == 2
    ensures Handled(t, 0, "i", Edited(EditEvent(n)), [ToTheSession(1, CheckUpdated, Version(n))])
  {
    OneUpdateIsDue(t, Version(n - 1), Version(n), (n - 1) * (100 * SECOND), n * (100 * SECOND));
  }

  /** The session holds version n. */
  function Holding(n: nat): map<int, CheckWithSlug> {
    map[1 := CheckWithSlug(Version(n), "a")]
  }

  lemma VersionIsHeld(n: nat, k: int)
    ensures Assigned(StoreAt(n, false), 1, 0, 1, k) == Lookup(Holding(n), k)
  {
    OneCheckIsHeld(Version(n), n * (100 * SECOND), k);
  }
}
