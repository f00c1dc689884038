/** What was asked for is what is read back: an endpoint or a probe that was created or edited, as the
    next reader is shown it (endpoint.go, probe.go). */
module ReadBack {
  import opened Model
  import opened Database
  import opened Rows
  import opened EndpointStore
  import opened ProbeRows
  import opened ProbeStore

  // ---------------------------------------------------------------- endpoints

  /** The check shown has the settings asked for. */
  ghost predicate AsAsked(asked: Check, shown: Check) {
    && shown.kind == asked.kind && shown.route == asked.route && shown.frequency == asked.frequency
    && shown.enabled == asked.enabled && shown.settings == asked.settings && shown.health == asked.health
  }

  ghost predicate Shows(shown: seq<Check>, a: Check) {
    exists c :: c in shown && AsAsked(a, c)
  }

  ghost predicate AsksFor(asked: seq<Check>, c: Check) {
    exists a :: a in asked && AsAsked(a, c)
  }

  /** Each check asked for is shown with its settings, and nothing else is shown. */
  ghost predicate AllAsAsked(asked: seq<Check>, shown: seq<Check>) {
    (forall a :: a in asked ==> Shows(shown, a)) && forall c :: c in shown ==> AsksFor(asked, c)
  }

  /** Position i of an accepted edit. A type the endpoint lacked starts Unknown and new; a type it had keeps
      its id and time of creation, and is Unknown since the edit if the edit disables it; what the request
      repeats as it was read stays as it is stored. */
  lemma EditedCheck(t: Tables, u: Tables, slugOf: string -> string, e: EndpointDTO, ev: EndpointUpdated, from: Time,
                    to: Time, i: int)
    requires Valid(t) && Realised(t, u, slugOf, e, ev, from, to) && 0 <= i < |e.checks|
    ensures var k := ev.current.checks[i].id;
      && k in u.checks && u.checks[k].endpointId == e.id && AsAsked(e.checks[i], u.checks[k])
      && if forall l :: l in t.checks ==> t.checks[l].endpointId != e.id || t.checks[l].kind != e.checks[i].kind then
           && u.checks[k].state == EvalUnknown
           && from <= u.checks[k].stateCheck <= u.checks[k].stateChange <= u.checks[k].created
                <= u.checks[k].updated <= to
         else
           && k == e.checks[i].id && k in t.checks && t.checks[k].kind == e.checks[i].kind
           && u.checks[k].created == t.checks[k].created
           && if Owned(e.checks[i], e) in ev.last.checks && t.endpoints[e.id].slug == slugOf(e.name) then
                u.checks[k] == t.checks[k]
              else
                && from <= u.checks[k].updated <= to && u.checks[k].stateCheck == e.checks[i].stateCheck
                && if t.checks[k].enabled && !e.checks[i].enabled then
                     u.checks[k].state == EvalUnknown && from <= u.checks[k].stateChange <= to
                   else
                     u.checks[k].state == e.checks[i].state && u.checks[k].stateChange == e.checks[i].stateChange
  {
    var own, cur := Owned(e.checks[i], e), ev.current.checks[i];
    assert CheckRealised(t, u, ev, own, cur, to);
    if WasUntouched(t, u, ev, own, cur) {
      ViewChecks(t, from, e.id, ev.last);
      assert own == Scrutinize(from, t.checks[own.id]);
      assert SlotTaken(t, own);
    } else if WasRewritten(t, u, ev, own, cur, ev.current.updated, to) {
      assert SlotTaken(t, own);
    }
  }

  lemma BlankAside(a: set<string>, b: set<string>)
    ensures a + b * {""} - {""} == a - {""}
  {
  }

  /** A stored check that is as asked for is also shown so, whether it is trusted or not. */
  lemma ShownAsAsked(u: Tables, now: Time, e: int, d: EndpointDTO, k: int, asked: Check)
    requires Valid(u) && IsView(u, now, e, d) && k in u.checks && u.checks[k].endpointId == e
    requires AsAsked(asked, u.checks[k])
    ensures Shows(d.checks, asked)
    ensures forall c :: c in d.checks && c.id == k ==> AsAsked(asked, c)
  {
    CheckIsShown(u, now, e, d, k);
  }

  /** A view shows what was asked for when each check asked for is stored under one of the ids, and each
      stored check has one of the ids. */
  lemma AllShownAsAsked(u: Tables, now: Time, e: int, d: EndpointDTO, asked: seq<Check>, made: seq<Check>)
    requires Valid(u) && IsView(u, now, e, d) && |asked| == |made| && IdsOf(u, e) == Ids(made)
    requires forall i :: 0 <= i < |asked| ==>
               && made[i].id in u.checks && u.checks[made[i].id].endpointId == e
               && AsAsked(asked[i], u.checks[made[i].id])
    ensures AllAsAsked(asked, d.checks)
  {
    forall a | a in asked
      ensures Shows(d.checks, a)
    {
      var i :| 0 <= i < |asked| && asked[i] == a;
      ShownAsAsked(u, now, e, d, made[i].id, a);
    }
    forall c | c in d.checks
      ensures AsksFor(asked, c)
    {
      ShownJustWhen(u, now, e, d, c.id, "");
      assert c.id in Ids(made);
      var i :| 0 <= i < |made| && made[i].id == c.id;
      ShownAsAsked(u, now, e, d, c.id, asked[i]);
      assert asked[i] in asked;
    }
  }

  /** Whoever reads the endpoint after an edit is shown what was asked for: the columns, the tags, and of
      each check asked for one with its settings, and no other. */
  lemma EditReadsBack(t: Tables, u: Tables, slugOf: string -> string, e: EndpointDTO, ev: EndpointUpdated, from: Time,
                      to: Time, d: EndpointDTO, now: Time)
    requires Valid(t) && Realised(t, u, slugOf, e, ev, from, to) && IsView(u, now, e.id, d)
    ensures d.id == e.id && d.orgId == e.orgId && d.name == e.name && d.slug == slugOf(e.name)
    ensures d.created == t.endpoints[e.id].created && from <= d.updated <= to
    ensures Elements(d.tags) == Elements(e.tags) - {""}
    ensures AllAsAsked(e.checks, d.checks)
  {
    BlankAside(Elements(e.tags), TagsOf(t, e.id));
    forall i | 0 <= i < |e.checks|
      ensures var k := ev.current.checks[i].id;
              k in u.checks && u.checks[k].endpointId == e.id && AsAsked(e.checks[i], u.checks[k])
    {
      EditedCheck(t, u, slugOf, e, ev, from, to, i);
    }
    AllShownAsAsked(u, now, e.id, d, e.checks, ev.current.checks);
  }

  /** A check of an endpoint that was just created is as asked for, Unknown and new. */
  lemma CreatedCheck(t: Tables, u: Tables, slugOf: string -> string, e: EndpointDTO, made: EndpointDTO, from: Time,
                     to: Time, i: int)
    requires Valid(t) && Created(t, u, slugOf, e, made, from, to) && 0 <= i < |e.checks|
    ensures var k := made.checks[i].id;
      && k in u.checks && k !in t.checks && u.checks[k].endpointId == made.id && AsAsked(e.checks[i], u.checks[k])
      && u.checks[k].state == EvalUnknown
      && from <= u.checks[k].stateCheck <= u.checks[k].stateChange <= u.checks[k].updated <= to
  {
    assert WasAdded(t, u, Owned(e.checks[i], made), made.checks[i], made.updated, to);
    assert forall k :: k in t.checks ==> CheckKeyed(t, k);
  }

  /** And after a creation. */
  lemma CreationReadsBack(t: Tables, u: Tables, slugOf: string -> string, e: EndpointDTO, made: EndpointDTO, from: Time,
                          to: Time, d: EndpointDTO, now: Time)
    requires Valid(t) && Created(t, u, slugOf, e, made, from, to) && IsView(u, now, made.id, d)
    ensures d.id == t.nextEndpoint && d.orgId == e.orgId && d.name == e.name && d.slug == slugOf(e.name)
    ensures from <= d.created <= d.updated <= to
    ensures Elements(d.tags) == Elements(e.tags) - {""}
    ensures AllAsAsked(e.checks, d.checks)
  {
    forall i | 0 <= i < |e.checks|
      ensures var k := made.checks[i].id;
              k in u.checks && u.checks[k].endpointId == made.id && AsAsked(e.checks[i], u.checks[k])
    {
      CreatedCheck(t, u, slugOf, e, made, from, to, i);
    }
    AllShownAsAsked(u, now, made.id, d, e.checks, made.checks);
  }

  // ---------------------------------------------------------------- probes

  /** A new probe reads back as asked for, offline and with no address. */
  lemma AddedProbeReadsBack(t: Tables, u: Tables, slugOf: string -> string, p: ProbeDTO, made: ProbeDTO, from: Time,
                            to: Time, l: ProbeListing)
    requires Sound(t) && ProbeAdded(t, u, slugOf, p, made, from, to) && IsListing(u, p.orgId, made.id, l)
    ensures var row := l.probe;
      && row.id == t.nextProbe && row.orgId == p.orgId && row.name == p.name && row.slug == slugOf(p.name)
      && row.latitude == p.latitude && row.longitude == p.longitude
      && row.public == p.public && row.enabled == p.enabled && !row.online
      && from <= row.enabledChange <= row.onlineChange <= row.created <= row.updated <= to
    ensures Elements(l.tags) == Elements(p.tags) - {""} && Elements(l.addresses) == {}
  {
    assert AddressesOf(u, made.id) == {};
  }

  /** An edited probe reads back as its owner asked for, with the same id, time of creation and presence;
      another org changes nothing but the tags it reads. */
  lemma EditedProbeReadsBack(t: Tables, u: Tables, slugOf: string -> string, p: ProbeDTO, from: Time, to: Time,
                             l: ProbeListing)
    requires Sound(t) && ProbeEdited(t, u, slugOf, p, from, to) && IsListing(u, p.orgId, p.id, l)
    ensures var was, row := t.probes[p.id], l.probe;
      if was.orgId == p.orgId then
        && row.name == p.name && row.slug == slugOf(p.name)
        && row.latitude == p.latitude && row.longitude == p.longitude
        && row.public == p.public && row.enabled == p.enabled && from <= row.updated <= to
        && (if was.enabled == p.enabled then row.enabledChange == p.enabledChange else from <= row.enabledChange <= to)
        && row.id == was.id && row.orgId == was.orgId && row.created == was.created
        && row.online == was.online && row.onlineChange == was.onlineChange
      else
        row == was
    ensures Elements(l.tags) == Elements(p.tags) - {""}
  {
    BlankAside(Elements(p.tags), TagsOfProbe(t, p.orgId, p.id));
  }
}
