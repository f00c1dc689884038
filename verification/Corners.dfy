/** The conditions of the main theorems at work: exactly when they fail, and inputs on which they do. */
module Corners {
  import opened Model
  import opened Database
  import opened Rows
  import opened CheckBatches
  import opened EndpointStore
  import opened Routing
  import opened ProbeStore
  import opened Dispatch
  import opened Refinement
  import opened Notification
  import opened Races
  import opened Scenes
  import CheckState
  import Migrator

  // ---------------------------------------------------------------- a deleted probe

  /** Deleting a probe takes its id rows but leaves it in the routes: from then on the route lists
      it and the indexes do not, so the two lookups agree on live probes only. */
  lemma DeletedProbeIsStillRoutedTo(t: Tables, u: Tables, p: int, org: int, k: int)
    requires Sound(t) && ProbeRemoved(t, u, p, org)
    requires k in u.checks && p in RouteIds(u.checks[k].route)
    ensures p in ProbesFor(u, u.checks[k]) && !RunsOn(u, p, k)
  {
    forall r | r in u.tagIndex
      ensures r.checkId != k
    {
      assert r.tag in RouteTags(u.checks[r.checkId].route);
    }
  }

  /** Deleting the one probe of the small store leaves its session, and the route that lists it. */
  lemma OneProbeIsRemoved()
    ensures Sound(StoreAt(1, false)) && ProbeRemoved(StoreAt(1, false), StoreAt(1, true), 1, 7)
    ensures LocalSession(StoreAt(1, true), 0, "i", 1, 0, 1, "s")
    ensures 1 in ProbesFor(StoreAt(1, true), Version(1)) && !RunsOn(StoreAt(1, true), 1, 1)
  {
    StoreIsSound(1, false);
    StoreIsSound(1, true);
  }

  /** An edit of the check afterwards, and what it sends. */
  function GoneScene(): Scene {
    Scene(StoreAt(2, true), Edited(EditEvent(2)), 0, "i", [ToTheSession(1, CheckUpdated, Version(2))], 1, 0, 1, "s")
  }

  lemma GoneEditIsStaged()
    ensures AfterEdit(GoneScene(), StoreAt(1, true), s => s, EditTo(2), 200 * SECOND, 200 * SECOND)
  {
    StoreIsSound(1, true);
    StoreIsSound(2, true);
    EditIsRealised(2, true);
    EditIsHandled(StoreAt(2, true), 2);
  }

  /** The edit meets the condition: the session, which holds its refresh, namely nothing, is sent a
      check that no refresh would give it. */
  lemma GoneProbeIsStillTold()
    ensures AfterEdit(GoneScene(), StoreAt(1, true), s => s, EditTo(2), 200 * SECOND, 200 * SECOND)
    ensures Misdirects(GoneScene(), StoreAt(1, true), s => s, EditTo(2), 200 * SECOND, 200 * SECOND, 0, 1)
    ensures forall k :: Lookup(map[], k) == Assigned(StoreAt(1, true), 1, 0, 1, k)
    ensures Lookup(ReceiveAll(map[], GoneScene().es, "s"), 1).Some? && Assigned(StoreAt(2, true), 1, 0, 1, 1) == None
  {
    GoneEditIsStaged();
    OneReceived(map[], GoneScene().es[0]);
  }

  // ---------------------------------------------------------------- a deleted probe with tags of others

  /** The check belongs to org 8, which has put its tag on the probe of org 7. */
  function TaggedCheck(n: nat): Check {
    Version(n).(orgId := 8, route := ByTags(["x"]))
  }

  function TagStore(n: nat, gone: bool): Tables {
    Tables(map[1 := Endpoint(1, 8, "a", "a", 0, n * (100 * SECOND))], {}, map[1 := TaggedCheck(n)], {},
           {TagRow(8, 1, "x")}, if gone then map[] else OneProbe(), {ProbeTag(8, 1, "x")}, OneSession(), 2, 2, 2, 2)
  }

  function TagRequest(c: Check, n: nat): EndpointDTO {
    EndpointDTO(1, 8, "a", "a", [c], [], 0, n * (100 * SECOND))
  }

  function TagEvent(): EndpointUpdated {
    EndpointUpdated(TagRequest(TaggedCheck(1), 1), TagRequest(TaggedCheck(2), 2))
  }

  function TagEdit(): EndpointDTO {
    TagRequest(TaggedCheck(2).(updated := 100 * SECOND), 1)
  }

  /** Nobody is told of an edit: the route finds live probes only. */
  function TagScene(): Scene {
    Scene(TagStore(2, true), Edited(TagEvent()), 0, "i", [], 1, 0, 1, "s")
  }

  lemma TagStoreIsSound(n: nat, gone: bool)
    ensures Sound(TagStore(n, gone)) && LocalSession(TagStore(n, gone), 0, "i", 1, 0, 1, "s")
    ensures RunsOn(TagStore(n, gone), 1, 1) && SlugOf(TagStore(n, gone), TaggedCheck(n)) == "a"
  {
    var t := TagStore(n, gone);
    assert t.sessions[1].probeId == 1;
    OneSessionIsLive(t, 1);
    assert TagRow(8, 1, "x") in t.tagIndex;
    assert RouteTags(TaggedCheck(n).route) == {"x"};
  }

  /** The owner deletes the probe; the tag of the other org stays. */
  lemma TaggedProbeIsRemoved()
    ensures Sound(TagStore(1, false)) && ProbeRemoved(TagStore(1, false), TagStore(1, true), 1, 7)
  {
    TagStoreIsSound(1, false);
    TagStoreIsSound(1, true);
  }

  lemma TagRowIsRealised()
    ensures RowRealised(TagStore(1, true), TagStore(2, true), s => s, TagEdit(), TagEvent(), 200 * SECOND, 200 * SECOND)
  {
    assert Valid(TagStore(2, true)) by {
      TagStoreIsSound(2, true);
    }
    TaggedCheckIsViewed();
    OnlyTaggedCheckDiffers();
  }

  lemma OnlyTaggedCheckDiffers()
    ensures SameElsewhere(TagStore(1, true), TagStore(2, true), 1)
  {
  }

  lemma TaggedCheckIsViewed()
    ensures IsView(TagStore(1, true), 200 * SECOND, 1, TagEvent().last)
  {
    var t := TagStore(1, true);
    assert TaggedCheck(1) in [TaggedCheck(1)] && t.checks[1] in ChecksOf(t, 1);
  }

  lemma TagEditIsRealised()
    ensures Realised(TagStore(1, true), TagStore(2, true), s => s, TagEdit(), TagEvent(), 200 * SECOND, 200 * SECOND)
  {
    var t, u, e, ev := TagStore(1, true), TagStore(2, true), TagEdit(), TagEvent();
    TagRowIsRealised();
    assert ChecksRealised(t, u, e, ev, 200 * SECOND) by {
      assert ev.current.checks[0] in ev.current.checks;
      assert ev.last.checks == [TaggedCheck(1)] && TaggedCheck(1).settings != TaggedCheck(2).settings;
      assert WasRewritten(t, u, ev, Owned(e.checks[0], e), ev.current.checks[0], 200 * SECOND, 200 * SECOND);
      assert CheckRealised(t, u, ev, Owned(e.checks[0], e), ev.current.checks[0], 200 * SECOND);
      assert IdsOf(u, 1) == {1} == Ids(ev.current.checks);
    }
  }

  lemma TagEditIsStaged()
    ensures AfterEdit(TagScene(), TagStore(1, true), s => s, TagEdit(), 200 * SECOND, 200 * SECOND)
  {
    assert Valid(TagStore(1, true)) by {
      TagStoreIsSound(1, true);
    }
    assert Staged(TagScene()) by {
      TagStoreIsSound(2, true);
      NobodyIsTold();
    }
    TagEditIsRealised();
  }

  lemma NobodyIsTold()
    ensures Handled(TagStore(2, true), 0, "i", Edited(TagEvent()), [])
  {
    forall c | c in TagEvent().last.checks || c in TagEvent().current.checks
      ensures ProbesFor(TagStore(2, true), c) == {}
    {
    }
  }

  /** The edit meets the other condition: the session, which holds its refresh, is not told, and keeps
      a version of the check that its refresh no longer has. */
  lemma GoneProbeIsOverlooked()
    ensures AfterEdit(TagScene(), TagStore(1, true), s => s, TagEdit(), 200 * SECOND, 200 * SECOND)
    ensures Overlooked(TagScene(), TagStore(1, true), s => s, TagEdit(), 200 * SECOND, ForgetAlert, 1)
    ensures Assigned(TagStore(1, true), 1, 0, 1, 1) == Some(CheckWithSlug(TaggedCheck(1), "a"))
    ensures Assigned(TagStore(2, true), 1, 0, 1, 1) == Some(CheckWithSlug(TaggedCheck(2), "a"))
    ensures forall held :: ReceiveAll(held, TagScene().es, "s") == held
  {
    TagEditIsStaged();
    TagStoreIsSound(1, true);
    TagStoreIsSound(2, true);
    PositionIsOverlooked();
    assert Has(TagScene(), TagEdit(), 0, 1);
  }

  lemma PositionIsOverlooked()
    ensures Overlooks(TagScene(), TagStore(1, true), s => s, TagEdit(), 200 * SECOND, ForgetAlert, 0, 1, TaggedCheck(2))
  {
    TagStoreIsSound(1, true);
    assert ProbeTag(8, 1, "x") in TagStore(1, true).probeTags && "x" in ["x"];
  }

  // ---------------------------------------------------------------- probe 0

  /** An event about probe q can reach a session of another probe. */
  ghost predicate Strays(t: Tables, since: Time, q: int) {
    exists k: nat, s :: && s in t.sessions && t.sessions[s].probeId != q
                        && Target(t, since, t.sessions[s].instanceId, q, k) == Some(t.sessions[s].socketId)
  }

  lemma SelectedByItsPosition(t: Tables, since: Time, p: int, pos: nat)
    requires pos < |Live(t, p, since)|
    ensures var s := Live(t, p, since)[pos]; Target(t, since, s.instanceId, p, pos) == Some(s.socketId)
  {
  }

  /** Events about a probe stay with its sessions, except those about probe 0, which go astray
      whenever any session is live. */
  lemma OnlyProbeZeroStrays(t: Tables, since: Time, q: int)
    requires SessionsKeyed(t)
    ensures Strays(t, since, q) <==> q == 0 && |Live(t, 0, since)| > 0
  {
    var l := Live(t, q, since);
    SessionsListed(t, q, "", Some(since));
    if q == 0 && |l| > 0 {
      assert l[0] in l;
      SelectedByItsPosition(t, since, 0, 0);
      assert l[0].id in t.sessions && t.sessions[l[0].id] == l[0];
    }
    forall k: nat, s | s in t.sessions
        && Target(t, since, t.sessions[s].instanceId, q, k) == Some(t.sessions[s].socketId)
      ensures |l| > 0 && (q != 0 ==> t.sessions[s].probeId == q)
    {
      var pos := k % |l|;
      assert l[pos] in l;
      assert SameSocket(l[pos], t.sessions[s]);
    }
  }

  // ---------------------------------------------------------------- a tie on the clock

  /** Stamped at 100 s, its state not refreshed since 0 s. */
  function Stamped(): Check {
    SomeCheck(1, ByIds([1]), EvalOk, "", 100 * SECOND)
  }

  function Shown(): Check {
    Scrutinize(100 * SECOND, Stamped())
  }

  /** A second edit within the same reading of the clock, which changes nothing, and what it sends. */
  function TiedScene(): Scene {
    Scene(OneCheck(Stamped(), 100 * SECOND),
          Edited(EndpointUpdated(Request([Shown()], 100 * SECOND), Request([Shown()], 100 * SECOND))),
          0, "i", [ToTheSession(1, CheckUpdated, Shown())], 1, 0, 1, "s")
  }

  lemma TiedEditIsRealised()
    ensures Realised(TiedScene().u, TiedScene().u, s => s, Request([Shown()], 100 * SECOND), TiedScene().cause.ev,
              100 * SECOND, 100 * SECOND)
  {
    TiedRowIsRealised();
    TiedCheckIsUntouched();
    var e, ev := Request([Shown()], 100 * SECOND), TiedScene().cause.ev;
    assert CheckRealised(TiedScene().u, TiedScene().u, ev, Owned(e.checks[0], e), ev.current.checks[0], 100 * SECOND);
    assert IdsOf(TiedScene().u, 1) == {1} == Ids(e.checks) by {
      assert e.checks[0] in e.checks;
    }
  }

  lemma TiedRowIsRealised()
    ensures RowRealised(TiedScene().u, TiedScene().u, s => s, Request([Shown()], 100 * SECOND), TiedScene().cause.ev,
                        100 * SECOND, 100 * SECOND)
  {
    var t := TiedScene().u;
    assert Valid(t) by {
      OneCheckIsSound(Stamped(), 100 * SECOND);
    }
    assert Shown() in [Shown()] && t.checks[1] in ChecksOf(t, 1);
  }

  lemma TiedCheckIsUntouched()
    ensures var e := Request([Shown()], 100 * SECOND);
      WasUntouched(TiedScene().u, TiedScene().u, TiedScene().cause.ev, Owned(Shown(), e), Shown())
  {
    OneCheckIsSound(Stamped(), 100 * SECOND);
    assert Shown() in [Shown()];
  }

  lemma TiedEditIsStaged()
    ensures Staged(TiedScene()) && Valid(TiedScene().u)
  {
    OneCheckIsSound(Stamped(), 100 * SECOND);
    OneUpdateIsDue(TiedScene().u, Shown(), Shown(), 100 * SECOND, 100 * SECOND);
  }

  lemma TiedCheckIsLeftAlone()
    ensures LeftAlone(TiedScene().u, s => s, Request([Shown()], 100 * SECOND), 100 * SECOND, 0, 1)
  {
  }

  lemma TiedCheckIsTold()
    ensures Ran(TiedScene(), TiedScene().u, 1) && Hits(TiedScene(), 1, Routed(TiedScene().u, 1))
  {
    assert IdRow(1, 1) in TiedScene().u.idIndex;
  }

  lemma TiedCheckIsDoubtful()
    ensures Doubtful(100 * SECOND, TiedScene().u.checks[1]) && TiedScene().u.checks[1].updated == 100 * SECOND
  {
  }

  lemma TieSendsStale()
    ensures SendsStale(TiedScene(), TiedScene().u, s => s, Request([Shown()], 100 * SECOND),
                       100 * SECOND, 100 * SECOND, 1)
  {
    TiedCheckIsLeftAlone();
    TiedCheckIsTold();
    TiedCheckIsDoubtful();
  }

  /** The edit meets the condition under which a stale copy is sent. */
  lemma TieMeetsTheCondition()
    ensures AfterEdit(TiedScene(), TiedScene().u, s => s, Request([Shown()], 100 * SECOND), 100 * SECOND, 100 * SECOND)
    ensures SendsStale(TiedScene(), TiedScene().u, s => s, Request([Shown()], 100 * SECOND),
                       100 * SECOND, 100 * SECOND, 1)
  {
    TiedEditIsStaged();
    TiedEditIsRealised();
    TieSendsStale();
  }

  /** The refinement is not exact to the last column: the session held its refresh, the edit changes
      nothing, and the session ends with the state a reader is shown instead of the one stored. */
  lemma TieSendsStaleCopy()
    ensures var x := TiedScene();
            var held: map<int, CheckWithSlug> := map[1 := CheckWithSlug(Stamped(), "a")];
      && (forall k :: Lookup(held, k) == Assigned(x.u, x.p, x.pos, x.n, k))
      && Lookup(ReceiveAll(held, x.es, x.socketId), 1) != Assigned(x.u, x.p, x.pos, x.n, 1)
  {
    var x := TiedScene();
    var held: map<int, CheckWithSlug> := map[1 := CheckWithSlug(Stamped(), "a")];
    forall k
      ensures Lookup(held, k) == Assigned(x.u, x.p, x.pos, x.n, k)
    {
      OneCheckIsHeld(Stamped(), 100 * SECOND, k);
    }
    OneReceived(held, x.es[0]);
  }

  // ---------------------------------------------------------------- probe 0 again

  /** Endpoint 1 before it has a check, and after an edit at 100 s gave it one that lists probe 0. */
  function NoCheck(): Tables {
    Tables(map[1 := Endpoint(1, 7, "a", "a", 0, 0)], {}, map[], {}, {}, OneProbe(), {}, OneSession(), 2, 1, 2, 2)
  }

  function ForZero(id: nat): Check {
    SomeCheck(id, ByIds([0]), EvalUnknown, "", 100 * SECOND).(stateChange := 100 * SECOND, stateCheck := 100 * SECOND,
        created := 100 * SECOND)
  }

  function ZeroStore(): Tables {
    OneCheck(ForZero(1), 100 * SECOND).(idIndex := {IdRow(1, 0)})
  }

  function ZeroScene(): Scene {
    Scene(ZeroStore(), Edited(EndpointUpdated(Request([], 0), Request([ForZero(1)], 100 * SECOND))),
          0, "i", [ToTheSession(0, CheckCreated, ForZero(1))], 1, 0, 1, "s")
  }

  lemma ZeroStoresAreSound()
    ensures Valid(NoCheck()) && Sound(ZeroStore())
  {
    assert ZeroStore().sessions[1].probeId == 1;
  }

  lemma ZeroRowIsRealised()
    ensures RowRealised(NoCheck(), ZeroStore(), s => s, Request([ForZero(0)], 0), ZeroScene().cause.ev, 0, 100 * SECOND)
  {
    ZeroStoresAreSound();
  }

  lemma ZeroEditIsRealised()
    ensures Realised(NoCheck(), ZeroStore(), s => s, Request([ForZero(0)], 0), ZeroScene().cause.ev, 0, 100 * SECOND)
  {
    var t, u, e := NoCheck(), ZeroStore(), Request([ForZero(0)], 0);
    var ev := ZeroScene().cause.ev;
    ZeroRowIsRealised();
    assert ChecksRealised(t, u, e, ev, 100 * SECOND) by {
      assert ev.current.checks[0] in ev.current.checks;
      assert WasAdded(t, u, Owned(e.checks[0], e), ForZero(1), 100 * SECOND, 100 * SECOND);
      assert CheckRealised(t, u, ev, Owned(e.checks[0], e), ev.current.checks[0], 100 * SECOND);
      assert IdsOf(u, 1) == {1} == Ids(ev.current.checks);
    }
  }

  lemma ZeroEventIsDue()
    ensures Handled(ZeroStore(), 0, "i", ZeroScene().cause, ZeroScene().es)
  {
    var t, c := ZeroStore(), ForZero(1);
    var ev := ZeroScene().cause.ev;
    OneSessionIsTarget(t, 0, 1);
    assert c in ev.current.checks && IsRunning(ev.current, c) && ProbesFor(t, c) == {0};
  }

  /** A route that lists probe 0 misdirects: the edit meets the condition, and the session of probe 1,
      which held its refresh, ends with a check that probe 1 does not run. */
  lemma ZeroRouteMisdirects()
    ensures AfterEdit(ZeroScene(), NoCheck(), s => s, Request([ForZero(0)], 0), 0, 100 * SECOND)
    ensures Misdirects(ZeroScene(), NoCheck(), s => s, Request([ForZero(0)], 0), 0, 100 * SECOND, 0, 1)
    ensures forall k :: Lookup(map[], k) == Assigned(NoCheck(), 1, 0, 1, k)
    ensures Lookup(ReceiveAll(map[], ZeroScene().es, "s"), 1).Some? && Assigned(ZeroStore(), 1, 0, 1, 1) == None
  {
    ZeroStoresAreSound();
    ZeroEditIsRealised();
    ZeroEventIsDue();
    OneSessionIsLive(ZeroStore(), 1);
    OneSessionIsTarget(ZeroStore(), 0, 1);
    OneReceived(map[], ZeroScene().es[0]);
  }

  // ---------------------------------------------------------------- a race of two handlers

  function RaceStores(): seq<Tables> {
    [StoreAt(1, false), StoreAt(2, false), StoreAt(3, false)]
  }

  function RaceChanges(): seq<Change> {
    [Edit(EditTo(2), true), Edit(EditTo(3), true)]
  }

  function RaceCauses(): seq<Option<Cause>> {
    [Some(Edited(EditEvent(2))), Some(Edited(EditEvent(3)))]
  }

  function RaceParts(): seq<seq<Emission>> {
    [[ToTheSession(1, CheckUpdated, Version(2))], [ToTheSession(1, CheckUpdated, Version(3))]]
  }

  /** The handler of the later edit runs first. */
  function Overtaken(): seq<Emission> {
    [ToTheSession(1, CheckUpdated, Version(3)), ToTheSession(1, CheckUpdated, Version(2))]
  }

  lemma RaceStep(n: nat)
    requires 2 <= n <= 3
    ensures Step(RaceStores()[n - 2], RaceStores()[n - 1], s => s, Edit(EditTo(n), true), Some(Edited(EditEvent(n))))
  {
    EditIsRealised(n, false);
    assert Wrote(StoreAt(n - 1, false), StoreAt(n, false), s => s, Edit(EditTo(n), true), Edited(EditEvent(n)));
  }

  lemma OvertakenInterleaves()
    ensures Interleaves(RaceParts(), Overtaken())
  {
    var parts, m := RaceParts(), Overtaken();
    var rest := parts[0 := parts[0][..0]];
    assert rest[1 := rest[1][..0]] == [[], []] && m[..1][..0] == [];
    assert Interleaves(rest[1 := rest[1][..0]], m[..1][..0]);
    assert Interleaves(rest, m[..1]);
  }

  lemma RaceSteps()
    ensures Steps(RaceStores(), s => s, RaceChanges(), RaceCauses()) && Allowed(RaceChanges())
  {
    RaceStep(2);
    RaceStep(3);
    TwoSteps(StoreAt(1, false), StoreAt(2, false), StoreAt(3, false), s => s, Edit(EditTo(2), true),
             Edit(EditTo(3), true), Some(Edited(EditEvent(2))), Some(Edited(EditEvent(3))));
    EditsAvoidZero();
  }

  lemma TwoSteps(t: Tables, u: Tables, v: Tables, slugOf: string -> string, c: Change, d: Change, a: Option<Cause>,
                 b: Option<Cause>)
    requires Step(t, u, slugOf, c, a) && Step(u, v, slugOf, d, b)
    ensures Steps([t, u, v], slugOf, [c, d], [a, b])
  {
  }

  lemma EditsAvoidZero()
    ensures Allowed(RaceChanges())
  {
  }

  lemma RaceIsAnswered()
    ensures Answered(StoreAt(1, false), 0, "i", RaceCauses(), RaceParts())
  {
    EditIsHandled(StoreAt(1, false), 2);
    EditIsHandled(StoreAt(1, false), 3);
  }

  /** Two edits of one check, each handled in full, the later one first: a run like any other. */
  lemma HandlersOvertake()
    ensures Run(RaceStores(), s => s, RaceChanges(), RaceCauses(), 0, "i", RaceParts())
    ensures Interleaves(RaceParts(), Overtaken())
  {
    RaceSteps();
    RaceIsAnswered();
    assert Sound(StoreAt(1, false)) && StoreAvoidsProbeZero(StoreAt(1, false)) by {
      StoreIsSound(1, false);
    }
    OvertakenInterleaves();
  }

  /** The condition of a harmless race fails: what arrives last is the older version. */
  lemma OvertakenEndsOtherwise()
    ensures !SameEnd(Overtaken(), Concat(RaceParts()), "s", 1)
  {
    assert RaceParts()[..1] == [[ToTheSession(1, CheckUpdated, Version(2))]];
    assert Concat(RaceParts()[..1]) == [ToTheSession(1, CheckUpdated, Version(2))];
    assert Concat(RaceParts()) == Concat(RaceParts()[..1]) + [ToTheSession(1, CheckUpdated, Version(3))];
  }

  /** And a session that held its refresh ends with the older version of the check. */
  lemma LateHandlerLeavesOldVersion()
    ensures !Notified(RaceStores()[0], RaceStores()[2], 0, "i", {1}, Overtaken())
  {
    StoreIsSound(3, false);
    HandlersOvertake();
    StoredServedThroughout(RaceStores(), s => s, RaceChanges(), RaceCauses(), 0, "i", RaceParts(), {1});
    RaceIsHarmlessJustWhen(RaceStores(), s => s, RaceChanges(), RaceCauses(), 0, "i", RaceParts(), {1}, Overtaken());
    OvertakenEndsOtherwise();
  }

  // ---------------------------------------------------------------- events out before the commit

  lemma LostEditSteps()
    ensures Step(StoreAt(1, false), StoreAt(1, false), s => s, Edit(EditTo(2), false), Some(Edited(EditEvent(2))))
  {
    EditIsRealised(2, false);
    assert Wrote(StoreAt(1, false), StoreAt(2, false), s => s, Edit(EditTo(2), false), Edited(EditEvent(2)));
  }

  /** An edit whose commit is lost has published its event all the same: a session that held its
      refresh ends with a version of the check that was never stored. */
  lemma LostCommitIsStillTold()
    ensures Step(StoreAt(1, false), StoreAt(1, false), s => s, Edit(EditTo(2), false), Some(Edited(EditEvent(2))))
    ensures Handled(StoreAt(1, false), 0, "i", Edited(EditEvent(2)), RaceParts()[0])
    ensures !Notified(StoreAt(1, false), StoreAt(1, false), 0, "i", {1}, RaceParts()[0])
  {
    LostEditSteps();
    EditIsHandled(StoreAt(1, false), 2);
    PhantomLeavesRefresh();
  }

  lemma PhantomLeavesRefresh()
    ensures !Notified(StoreAt(1, false), StoreAt(1, false), 0, "i", {1}, RaceParts()[0])
  {
    var t := StoreAt(1, false);
    assert LocalSession(t, 0, "i", 1, 0, 1, "s") by {
      StoreIsSound(1, false);
    }
    PhantomIsHeld();
    assert !StaysRefreshed(t, t, 0, "i", RaceParts()[0], 1, 0, 1, "s", Holding(1));
  }

  lemma PhantomIsHeld()
    ensures forall k :: Lookup(Holding(1), k) == Assigned(StoreAt(1, false), 1, 0, 1, k)
    ensures !Alike(ForgetAlert, Lookup(ReceiveAll(Holding(1), RaceParts()[0], "s"), 1),
                   Assigned(StoreAt(1, false), 1, 0, 1, 1))
  {
    forall k
      ensures Lookup(Holding(1), k) == Assigned(StoreAt(1, false), 1, 0, 1, k)
    {
      VersionIsHeld(1, k);
    }
    OneReceived(Holding(1), RaceParts()[0][0]);
  }

  /** A result whose commit is lost: the change of state is passed on, the row keeps its state. */
  method LostCommitIsAnnounced(db: Database) returns (stateChanges: seq<CheckState.Job>)
    requires db.tables == StoreAt(1, false)
    modifies db`tables
    ensures db.tables == old(db.tables) && db.tables.checks[1].state == EvalUnknown
    ensures stateChanges == [CheckState.Job(1, EvalCritical, 150 * SECOND)]
  {
    StoreIsSound(1, false);
    var attempts := [CheckState.CommitLost, CheckState.Commits, CheckState.Commits];
    var saved;
    saved, stateChanges := CheckState.StoreResult(db, CheckState.Job(1, EvalCritical, 150 * SECOND), attempts);
  }

  // ---------------------------------------------------------------- migrations

  /** A migration that adds one to the schema, on the condition that the schema is 0. */
  function AddOne(): Migrator.Actions<int> {
    Migrator.Actions((schema, _) => schema == 0, (schema, _) => schema + 1, (schema, _) => schema)
  }

  /** Its condition is met but cannot be asked: it counts as done, and the schema is not the one the
      list makes. */
  lemma UnaskedConditionIsMissed()
    ensures var m, fate := Migrator.Migration("m", true), Migrator.Fate(Migrator.NoFault, true, true);
      && Migrator.Unasked(AddOne(), 0, [m], 0, fate) && !Migrator.Fails(AddOne(), 0, m, fate)
      && Migrator.Schema(AddOne(), 0, [Migrator.StepOf(AddOne(), 0, m, fate)]) == 0
      && Migrator.Fold(AddOne(), 0, [m]) == 1
  {
    var m := Migrator.Migration("m", true);
    Migrator.FoldMore(AddOne(), 0, [], m);
    assert [] + [m] == [m];
  }

  /** A condition that is not met does no harm when it cannot be asked. */
  lemma UnmetConditionNeedNotBeAsked()
    ensures var m, fate := Migrator.Migration("m", true), Migrator.Fate(Migrator.NoFault, true, true);
      && !Migrator.Unasked(AddOne(), 1, [m], 0, fate)
      && Migrator.Schema(AddOne(), 1, [Migrator.StepOf(AddOne(), 1, m, fate)]) == 1 == Migrator.Fold(AddOne(), 1, [m])
  {
    var m := Migrator.Migration("m", true);
    Migrator.FoldMore(AddOne(), 1, [], m);
    assert [] + [m] == [m];
  }

  function Unconditional(): Migrator.Migration {
    Migrator.Migration("m", false)
  }

  function Unrecorded(id: string): Migrator.Fate {
    Migrator.Fate(Migrator.NoFault, false, false)
  }

  lemma OneStepUnrecorded(history: seq<Migrator.Step>, n: nat)
    requires Migrator.StepsTaken(AddOne(), 0, [Unconditional()], Unrecorded, history, n) && |history| == n + 1
    ensures history == history[..n] + [Migrator.Step("m", false)]
    ensures Migrator.NewRows([Unconditional()], Unrecorded, 1) == []
  {
    assert Migrator.StepTaken(AddOne(), 0, [Unconditional()], Unrecorded, history, n, 0);
  }

  /** A start whose record is lost. */
  method StartUnrecorded(mg: Migrator.Migrator<int>)
    requires mg.acts == AddOne() && mg.initial == 0 && mg.migrations == [Unconditional()] && mg.log == []
    requires mg.Consistent()
    modifies mg`log, mg`history, mg`schema
    ensures mg.Consistent() && mg.log == [] && mg.history == old(mg.history) + [Migrator.Step("m", false)]
  {
    ghost var n := |mg.history|;
    NothingIsDone();
    assert mg.Todo() == [Unconditional()];
    var ok := mg.Start(Unrecorded);
    assert !Migrator.Fails(AddOne(), mg.schema, Unconditional(), Unrecorded("m"));
    assert ok && |mg.history| == n + 1;
    OneStepUnrecorded(mg.history, n);
  }

  lemma TwiceIsTwo()
    ensures Migrator.Schema(AddOne(), 0, [Migrator.Step("m", false), Migrator.Step("m", false)]) == 2
  {
    var step := Migrator.Step("m", false);
    Migrator.SchemaMore(AddOne(), 0, [], step);
    Migrator.SchemaMore(AddOne(), 0, [step], step);
    assert [] + [step] == [step] && [step] + [step] == [step, step];
  }

  /** Its record is lost: the next start takes it again, and the schema has it twice. */
  method LostRecordIsTakenTwice() returns (mg: Migrator.Migrator<int>)
    ensures mg.history == [Migrator.Step("m", false), Migrator.Step("m", false)] && mg.schema == 2 && mg.log == []
  {
    mg := new Migrator.Migrator(AddOne(), 0);
    mg.AddMigration("m", false);
    StartUnrecorded(mg);
    StartUnrecorded(mg);
    TwiceIsTwo();
  }

  lemma NothingIsDone()
    ensures Migrator.MissingOf([Migrator.Migration("m", false)], Elements(Migrator.Recorded([])))
              == [Migrator.Migration("m", false)]
  {
  }
}
