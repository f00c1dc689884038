/** Probes, their tags, and the sessions that make them online (probe.go). */
module ProbeStore {
  import opened Model
  import opened Database
  import opened ProbeRows
  import opened TagDiff

  // ---------------------------------------------------------------- listing sessions

  predicate Selected(s: ProbeSession, probeId: int, instance: string, since: Option<Time>) {
    && (probeId != 0 ==> s.probeId == probeId)
    && (instance != "" ==> s.instanceId == instance)
    && (since.Some? ==> s.updated > since.value)
  }

  function SessionsUpTo(t: Tables, probeId: int, instance: string, since: Option<Time>, n: nat): seq<ProbeSession> {
    if n == 0 then []
    else
      SessionsUpTo(t, probeId, instance, since, n - 1)
      + if n in t.sessions && Selected(t.sessions[n], probeId, instance, since) then [t.sessions[n]] else []
  }

  /** getProbeSessions: the selected rows in the order of their ids; 0, "" and None select all. */
  function GetProbeSessions(t: Tables, probeId: int, instance: string, since: Option<Time>): seq<ProbeSession> {
    SessionsUpTo(t, probeId, instance, since, if t.nextSession <= 0 then 0 else t.nextSession)
  }

  /** Every session row is keyed, of an issued probe, and alone with its socket. */
  ghost predicate SessionsKeyed(t: Tables) {
    && 0 < t.nextSession
    && (forall s :: s in t.sessions ==>
           0 < s < t.nextSession && t.sessions[s].id == s && 0 < t.sessions[s].probeId < t.nextProbe)
    && (forall s, r :: s in t.sessions && r in t.sessions && SameSocket(t.sessions[s], t.sessions[r]) ==> s == r)
  }

  ghost predicate SameSocket(s: ProbeSession, r: ProbeSession) {
    s.socketId == r.socketId
  }

  ghost predicate HasSession(t: Tables, p: int) {
    exists s :: s in t.sessions && t.sessions[s].probeId == p
  }

  /** A stored probe is marked online exactly when it has a session. */
  ghost predicate OnlineMirrors(t: Tables) {
    forall p :: p in t.probes ==> (t.probes[p].online <==> HasSession(t, p))
  }

  ghost predicate AscendingIds(l: seq<ProbeSession>) {
    forall i, j :: 0 <= i < j < |l| ==> l[i].id < l[j].id
  }

  lemma {:induction false} SessionsUpToListed(t: Tables, probeId: int, instance: string, since: Option<Time>, n: nat)
    requires SessionsKeyed(t)
    ensures forall s :: s in SessionsUpTo(t, probeId, instance, since, n) <==>
              s.id in t.sessions && s.id <= n && t.sessions[s.id] == s && Selected(s, probeId, instance, since)
    ensures AscendingIds(SessionsUpTo(t, probeId, instance, since, n))
  {
    if n != 0 {
      SessionsUpToListed(t, probeId, instance, since, n - 1);
      var shorter := SessionsUpTo(t, probeId, instance, since, n - 1);
      var longer := SessionsUpTo(t, probeId, instance, since, n);
      forall i, j | 0 <= i < j < |longer|
        ensures longer[i].id < longer[j].id
      {
        assert longer[i] == shorter[i] && shorter[i] in shorter;
        if j < |shorter| {
          assert longer[j] == shorter[j];
        }
      }
    }
  }

  /** The listing is exactly the rows of the probe, on the instance and updated after the instant asked
      for, strictly ordered by id; 0, "" and None do not narrow it. */
  lemma SessionsListed(t: Tables, probeId: int, instance: string, since: Option<Time>)
    requires SessionsKeyed(t)
    ensures forall s :: s in GetProbeSessions(t, probeId, instance, since) <==>
              && s.id in t.sessions && t.sessions[s.id] == s
              && (probeId == 0 || s.probeId == probeId) && (instance == "" || s.instanceId == instance)
              && (since.None? || since.value < s.updated)
    ensures AscendingIds(GetProbeSessions(t, probeId, instance, since))
  {
    SessionsUpToListed(t, probeId, instance, since, t.nextSession);
  }

  // ---------------------------------------------------------------- sessions

  /** Marks a probe online or offline at an instant; nothing happens when there is no such probe. */
  function MarkOnline(t: Tables, p: int, online: bool, at: Time): Tables {
    if p in t.probes then t.(probes := t.probes[p := t.probes[p].(online := online, onlineChange := at)]) else t
  }

  /** Apart from the online columns, u has the probes of t. */
  ghost predicate SameProbes(t: Tables, u: Tables) {
    && u.probes.Keys == t.probes.Keys
    && forall p :: p in t.probes ==>
         u.probes[p] == t.probes[p].(online := u.probes[p].online, onlineChange := u.probes[p].onlineChange)
  }

  /** Between t and u only session rows and online columns changed. */
  ghost predicate OnlySessionsMoved(t: Tables, u: Tables) {
    && u == t.(probes := u.probes, sessions := u.sessions, nextSession := u.nextSession)
    && SameProbes(t, u)
  }

  lemma SessionsMovedKeepsValid(t: Tables, u: Tables)
    requires Valid(t) && OnlySessionsMoved(t, u)
    ensures Valid(u)
  {
  }

  /** Only issued probes carry tags; a deleted one may keep those that other orgs put on it. */
  ghost predicate ProbeTagsIssued(t: Tables) {
    forall r :: r in t.probeTags ==> 0 < r.probeId < t.nextProbe
  }

  /** The whole store, probe tags and sessions included, is in order. */
  ghost predicate Sound(t: Tables) {
    Valid(t) && SessionsKeyed(t) && OnlineMirrors(t) && ProbeTagsIssued(t)
  }

  lemma SessionAdded(t: Tables, u: Tables, s: ProbeSession, at: Time)
    requires Sound(t) && s.id == t.nextSession && 0 < s.probeId < t.nextProbe
    requires forall r :: r in t.sessions ==> !SameSocket(t.sessions[r], s)
    requires u == MarkOnline(t.(sessions := t.sessions[s.id := s], nextSession := s.id + 1), s.probeId, true, at)
    ensures Sound(u) && OnlySessionsMoved(t, u)
  {
    assert OnlySessionsMoved(t, u);
    assert Valid(u) by {
      SessionsMovedKeepsValid(t, u);
    }
    NewSessionIsKeyed(t, u, s);
    NewSessionIsMirrored(t, u, s, at);
  }

  lemma NewSessionIsKeyed(t: Tables, u: Tables, s: ProbeSession)
    requires SessionsKeyed(t) && s.id == t.nextSession && 0 < s.probeId < t.nextProbe
    requires forall r :: r in t.sessions ==> !SameSocket(t.sessions[r], s)
    requires u.sessions == t.sessions[s.id := s] && u.nextSession == s.id + 1 && u.nextProbe == t.nextProbe
    ensures SessionsKeyed(u)
  {
  }

  lemma NewSessionIsMirrored(t: Tables, u: Tables, s: ProbeSession, at: Time)
    requires OnlineMirrors(t) && s.id !in t.sessions
    requires u == MarkOnline(t.(sessions := t.sessions[s.id := s], nextSession := s.id + 1), s.probeId, true, at)
    ensures OnlineMirrors(u)
  {
    forall p | p in u.probes
      ensures u.probes[p].online <==> HasSession(u, p)
    {
      if p == s.probeId {
        assert u.sessions[s.id].probeId == p;
      } else if HasSession(t, p) {
        var r :| r in t.sessions && t.sessions[r].probeId == p;
        assert u.sessions[r].probeId == p;
      }
    }
  }

  /** Session s0 may be added: it is of an issued probe and its socket is new. */
  predicate Admissible(t: Tables, s0: ProbeSession) {
    0 < s0.probeId < t.nextProbe && forall r :: r in t.sessions ==> t.sessions[r].socketId != s0.socketId
  }

  /** What addProbeSession must leave behind: the session under a fresh id, and its probe online. */
  ghost predicate SessionOpened(t: Tables, u: Tables, s0: ProbeSession, s: ProbeSession, from: Time, to: Time) {
    && Sound(u) && OnlySessionsMoved(t, u)
    && from <= s.updated <= to && s == s0.(id := t.nextSession, updated := s.updated)
    && u.sessions == t.sessions[s.id := s] && u.nextSession == s.id + 1
    && u.probes - {s.probeId} == t.probes - {s.probeId}
    && (s.probeId in u.probes ==> s.updated <= u.probes[s.probeId].onlineChange <= to)
  }

  method ApplyAddProbeSession(db: Database, s0: ProbeSession) returns (s: ProbeSession)
    requires Sound(db.tables) && Admissible(db.tables, s0)
    modifies db
    ensures db.now >= old(db.now)
    ensures SessionOpened(old(db.tables), db.tables, s0, s, old(db.now), db.now)
  {
    ghost var t := db.tables;
    var updated := db.Now();
    s := s0.(id := db.tables.nextSession, updated := updated);
    db.tables := db.tables.(sessions := db.tables.sessions[s.id := s], nextSession := s.id + 1);
    var at := db.Now();
    db.tables := MarkOnline(db.tables, s.probeId, true, at);
    SessionAdded(t, db.tables, s, at);
  }

  function SocketRows(t: Tables, orgId: int, socketId: string): set<int> {
    set s | s in t.sessions && t.sessions[s].orgId == orgId && t.sessions[s].socketId == socketId
  }

  /** The other sessions of other probes are not touched by dropping session k. */
  lemma OtherSessionsStay(t: Tables, u: Tables, k: int, p: int)
    requires SessionsKeyed(t) && k in t.sessions && u == t.(sessions := t.sessions - {k})
    ensures p != t.sessions[k].probeId ==> (HasSession(u, p) <==> HasSession(t, p))
    ensures HasSession(t, t.sessions[k].probeId)
  {
    if p != t.sessions[k].probeId && HasSession(t, p) {
      var s :| s in t.sessions && t.sessions[s].probeId == p;
      assert s in u.sessions && u.sessions[s].probeId == p;
    }
    if HasSession(u, p) {
      var s :| s in u.sessions && u.sessions[s].probeId == p;
      assert t.sessions[s].probeId == p;
    }
  }

  /** Dropping session k, and marking its probe offline just when it has no other. */
  lemma SessionDropped(t: Tables, u: Tables, v: Tables, k: int, at: Time)
    requires Sound(t) && k in t.sessions && u == t.(sessions := t.sessions - {k})
    requires v == if HasSession(u, t.sessions[k].probeId) then u else MarkOnline(u, t.sessions[k].probeId, false, at)
    ensures Sound(v) && OnlySessionsMoved(t, v)
  {
    SessionsMovedKeepsValid(t, v);
    forall p | p in v.probes
      ensures v.probes[p].online <==> HasSession(v, p)
    {
      OtherSessionsStay(t, u, k, p);
      assert HasSession(v, p) <==> HasSession(u, p);
    }
  }

  /** Whether the probe has a session, as the length of its listing tells. */
  lemma ListingTells(t: Tables, p: int)
    requires SessionsKeyed(t) && p != 0
    ensures |GetProbeSessions(t, p, "", None)| >= 1 <==> HasSession(t, p)
  {
    var l := GetProbeSessions(t, p, "", None);
    SessionsListed(t, p, "", None);
    if |l| >= 1 {
      assert l[0] in l;
      assert t.sessions[l[0].id].probeId == p;
    }
    if s :| s in t.sessions && t.sessions[s].probeId == p {
      assert t.sessions[s] in l;
    }
  }

  /** What deleteProbeSession must leave behind: no session of the socket, and its probe offline
      just when it lost its last one. */
  ghost predicate SessionClosed(t: Tables, u: Tables, orgId: int, socketId: string, deleted: Option<ProbeSession>,
                                from: Time, to: Time) {
    && Sound(u) && OnlySessionsMoved(t, u) && u.nextSession == t.nextSession
    && u.sessions == t.sessions - SocketRows(t, orgId, socketId)
    && match deleted
       case None => SocketRows(t, orgId, socketId) == {} && u == t
       case Some(s) =>
         && s.id in SocketRows(t, orgId, socketId) && t.sessions[s.id] == s
         && u.probes - {s.probeId} == t.probes - {s.probeId}
         && if HasSession(u, s.probeId) then u.probes == t.probes
            else s.probeId in u.probes ==> from <= u.probes[s.probeId].onlineChange <= to
  }

  /** Deletes the session of the socket; a probe that lost its last one goes offline. */
  method ApplyDeleteProbeSession(db: Database, orgId: int, socketId: string) returns (deleted: Option<ProbeSession>)
    requires Sound(db.tables)
    modifies db
    ensures db.now >= old(db.now)
    ensures SessionClosed(old(db.tables), db.tables, orgId, socketId, deleted, old(db.now), db.now)
  {
    ghost var t := db.tables;
    var found := SocketRows(db.tables, orgId, socketId);
    if found == {} {
      return None;
    }
    var k := Pick(found);
    forall s | s in found
      ensures s == k
    {
      assert SameSocket(t.sessions[s], t.sessions[k]);
    }
    assert found == {k};
    var existing := db.tables.sessions[k];
    db.tables := db.tables.(sessions := db.tables.sessions - found);
    ghost var u := db.tables;
    var sessions := GetProbeSessions(db.tables, existing.probeId, "", None);
    ListingTells(u, existing.probeId);
    var at := db.Now();
    if |sessions| < 1 {
      db.tables := MarkOnline(db.tables, existing.probeId, false, at);
    }
    SessionDropped(t, u, db.tables, k, at);
    return Some(existing);
  }

  ghost function InstanceRows(t: Tables, instance: string): set<int> {
    set s | s in t.sessions && (instance == "" || t.sessions[s].instanceId == instance)
  }

  lemma OnlySessionsMovedTransitive(t: Tables, u: Tables, v: Tables)
    requires OnlySessionsMoved(t, u) && OnlySessionsMoved(u, v)
    ensures OnlySessionsMoved(t, v)
  {
  }

  /** The first n rows of a listing. */
  ghost function ListedIds(l: seq<ProbeSession>, n: nat): set<int>
    requires n <= |l|
  {
    set i | 0 <= i < n :: l[i].id
  }

  lemma AllListed(t: Tables, instance: string, l: seq<ProbeSession>)
    requires SessionsKeyed(t) && l == GetProbeSessions(t, 0, instance, None)
    ensures ListedIds(l, |l|) == InstanceRows(t, instance)
    ensures forall i :: 0 <= i < |l| ==> l[i].id in t.sessions && t.sessions[l[i].id] == l[i]
    ensures forall i :: 0 <= i < |l| ==> forall s :: s in t.sessions && SameSocket(t.sessions[s], l[i]) ==> s == l[i].id
  {
    SessionsListed(t, 0, instance, None);
    forall i | 0 <= i < |l|
      ensures l[i].id in InstanceRows(t, instance) && t.sessions[l[i].id] == l[i]
    {
      assert l[i] in l;
    }
    forall s | s in InstanceRows(t, instance)
      ensures s in ListedIds(l, |l|)
    {
      assert t.sessions[s] in l && t.sessions[s].id == s;
      var i :| 0 <= i < |l| && l[i] == t.sessions[s];
    }
  }

  ghost predicate InstanceCleared(t: Tables, u: Tables, instance: string) {
    && Sound(u) && OnlySessionsMoved(t, u) && u.nextSession == t.nextSession
    && u.sessions == t.sessions - InstanceRows(t, instance)
  }

  /** A server that starts drops what is left of its earlier run: every session of its instance
      ("" stands for every instance), one at a time. */
  method ApplyClearProbeSessions(db: Database, instance: string)
    requires Sound(db.tables)
    modifies db
    ensures db.now >= old(db.now) && InstanceCleared(old(db.tables), db.tables, instance)
  {
    ghost var t := db.tables;
    var sessions := GetProbeSessions(db.tables, 0, instance, None);
    AllListed(t, instance, sessions);
    for i := 0 to |sessions|
      invariant Sound(db.tables) && OnlySessionsMoved(t, db.tables) && db.tables.nextSession == t.nextSession
      invariant db.now >= old(db.now)
      invariant db.tables.sessions == t.sessions - ListedIds(sessions, i)
    {
      ghost var u := db.tables;
      var _ := ApplyDeleteProbeSession(db, sessions[i].orgId, sessions[i].socketId);
      OnlySessionsMovedTransitive(t, u, db.tables);
      OneMoreDropped(t, u, sessions, i);
    }
  }

  lemma OneMoreDropped(t: Tables, u: Tables, l: seq<ProbeSession>, i: nat)
    requires i < |l| && u.sessions == t.sessions - ListedIds(l, i)
    requires l[i].id in t.sessions && t.sessions[l[i].id] == l[i]
    requires forall s :: s in t.sessions && SameSocket(t.sessions[s], l[i]) ==> s == l[i].id
    ensures u.sessions - SocketRows(u, l[i].orgId, l[i].socketId) == t.sessions - ListedIds(l, i + 1)
  {
    assert ListedIds(l, i + 1) == ListedIds(l, i) + {l[i].id};
    var gone := SocketRows(u, l[i].orgId, l[i].socketId);
    forall s | s in gone
      ensures s == l[i].id
    {
      assert s in t.sessions && u.sessions[s] == t.sessions[s];
      assert SameSocket(t.sessions[s], l[i]);
    }
    if l[i].id in u.sessions {
      assert u.sessions[l[i].id] == l[i];
      assert gone == {l[i].id};
    } else {
      assert gone == {};
    }
  }

  method AddProbeSession(db: Database, s0: ProbeSession, commits: bool) returns (s: ProbeSession)
    requires Sound(db.tables) && Admissible(db.tables, s0)
    modifies db
    ensures db.now >= old(db.now)
    ensures commits ==> SessionOpened(old(db.tables), db.tables, s0, s, old(db.now), db.now)
    ensures !commits ==> db.tables == old(db.tables)
  {
    var sess := new Session(db);
    s := ApplyAddProbeSession(db, s0);
    sess.Complete(commits);
    sess.Cleanup();
  }

  method DeleteProbeSession(db: Database, orgId: int, socketId: string,
                            commits: bool) returns (deleted: Option<ProbeSession>)
    requires Sound(db.tables)
    modifies db
    ensures db.now >= old(db.now)
    ensures if commits then SessionClosed(old(db.tables), db.tables, orgId, socketId, deleted, old(db.now), db.now)
            else db.tables == old(db.tables)
    ensures commits ==> forall s :: s in db.tables.sessions <==>
              && s in old(db.tables.sessions)
              && !(old(db.tables.sessions)[s].orgId == orgId && old(db.tables.sessions)[s].socketId == socketId)
  {
    var sess := new Session(db);
    deleted := ApplyDeleteProbeSession(db, orgId, socketId);
    sess.Complete(commits);
    sess.Cleanup();
  }

  method ClearProbeSessions(db: Database, instance: string, commits: bool)
    requires Sound(db.tables)
    modifies db
    ensures db.now >= old(db.now)
    ensures if commits then InstanceCleared(old(db.tables), db.tables, instance) else db.tables == old(db.tables)
    ensures commits ==> forall s :: s in db.tables.sessions <==>
              && s in old(db.tables.sessions) && instance != "" && old(db.tables.sessions)[s].instanceId != instance
  {
    var sess := new Session(db);
    ApplyClearProbeSessions(db, instance);
    sess.Complete(commits);
    sess.Cleanup();
  }

  // ---------------------------------------------------------------- probes

  /** Nothing but the row of probe p and its tags under org differs between t and u. */
  ghost predicate OnlyProbeMoved(t: Tables, u: Tables, org: int, p: int) {
    && u == t.(probes := u.probes, probeTags := u.probeTags, idIndex := u.idIndex, nextProbe := u.nextProbe)
    && u.probes - {p} == t.probes - {p}
    && forall r: ProbeTag :: !(r.orgId == org && r.probeId == p) ==> (r in u.probeTags <==> r in t.probeTags)
  }

  lemma NewProbeKeepsSound(t: Tables, u: Tables, p: Probe)
    requires Sound(t) && p.id == t.nextProbe && !p.online
    requires u == t.(probes := t.probes[p.id := p], nextProbe := p.id + 1, probeTags := u.probeTags)
    requires forall r: ProbeTag :: r in u.probeTags ==> r in t.probeTags || r.probeId == p.id
    ensures Sound(u)
  {
  }

  /** A probe edit leaves the online flag alone, so everything stays in order. */
  lemma ProbeEditKeepsSound(t: Tables, u: Tables, p: int)
    requires Sound(t) && p in t.probes && p in u.probes
    requires u == t.(probes := t.probes[p := u.probes[p]], probeTags := u.probeTags)
    requires u.probes[p].id == p && u.probes[p].online == t.probes[p].online
    requires forall r: ProbeTag :: r in u.probeTags ==> r in t.probeTags || r.probeId == p
    ensures Sound(u)
  {
  }

  /** Deleting a probe with its id rows: what remains of it in routes is excused by its being gone. */
  lemma ProbeDeletionKeepsSound(t: Tables, u: Tables, p: int)
    requires Sound(t) && p in t.probes
    requires u == t.(probes := t.probes - {p}, probeTags := u.probeTags,
                     idIndex := set r | r in t.idIndex && r.probeId != p)
    requires u.probeTags <= t.probeTags
    ensures Sound(u)
  {
  }

  lemma TagsEntered(t: Tables, u: Tables, org: int, p: int, kept: set<string>, added: set<string>)
    requires u.probeTags == (set r | r in t.probeTags && !(r.orgId == org && r.probeId == p && r.tag !in kept))
                            + set tag | tag in added :: ProbeTag(org, p, tag)
    ensures TagsOfProbe(u, org, p) == TagsOfProbe(t, org, p) * kept + added
    ensures forall r: ProbeTag :: !(r.orgId == org && r.probeId == p) ==> (r in u.probeTags <==> r in t.probeTags)
  {
    forall tag | tag in added
      ensures tag in TagsOfProbe(u, org, p)
    {
      assert ProbeTag(org, p, tag) in u.probeTags;
    }
    forall tag | tag in TagsOfProbe(t, org, p) * kept
      ensures tag in TagsOfProbe(u, org, p)
    {
      assert ProbeTag(org, p, tag) in t.probeTags;
      assert ProbeTag(org, p, tag) in u.probeTags;
    }
  }

  /** probe is unique on (org_id, slug): no other probe than id has the slug in the org. */
  predicate SlugFree(t: Tables, org: int, slug: string, id: int) {
    forall q :: q in t.probes && q != id && t.probes[q].orgId == org ==> t.probes[q].slug != slug
  }

  /** What addProbe must leave behind: d is p under a fresh id, offline, with exactly its tags. */
  ghost predicate ProbeAdded(t: Tables, u: Tables, slugOf: string -> string, p: ProbeDTO, d: ProbeDTO, from: Time,
                             to: Time) {
    && Sound(u) && OnlyProbeMoved(t, u, p.orgId, d.id) && u.idIndex == t.idIndex && u.nextProbe == t.nextProbe + 1
    && d.id == t.nextProbe && d == p.(id := d.id, slug := slugOf(p.name), enabledChange := d.enabledChange)
    && d.id in u.probes
    && TagsOfProbe(u, p.orgId, d.id) == Elements(p.tags)
    && var row := u.probes[d.id];
       && row == Probe(d.id, p.orgId, p.name, d.slug, p.latitude, p.longitude, p.public, p.enabled, d.enabledChange,
                       false, row.onlineChange, row.created, row.updated)
       && from <= d.enabledChange <= row.onlineChange <= row.created <= row.updated <= to
  }

  /** addProbe: probe_tag is unique on (org_id, tag, probe_id), so a repeated tag is refused. */
  method ApplyAddProbe(db: Database, slugOf: string -> string, p: ProbeDTO) returns (r: Result<ProbeDTO>)
    requires Sound(db.tables)
    modifies db
    ensures db.now >= old(db.now)
    ensures r.Success? <==>
              NoRepeats(p.tags) && SlugFree(old(db.tables), p.orgId, slugOf(p.name), old(db.tables.nextProbe))
    ensures r.Success? ==> ProbeAdded(old(db.tables), db.tables, slugOf, p, r.value, old(db.now), db.now)
  {
    ghost var t := db.tables;
    var enabledChange := db.Now();
    var onlineChange := db.Now();
    var created := db.Now();
    var updated := db.Now();
    var slug := slugOf(p.name);
    var probe := Probe(db.tables.nextProbe, p.orgId, p.name, slug, p.latitude, p.longitude, p.public, p.enabled,
          enabledChange,
                       false, onlineChange, created, updated);
    if !SlugFree(db.tables, p.orgId, slug, probe.id) {
      return Failure(Constraint);
    }
    db.tables := db.tables.(probes := db.tables.probes[probe.id := probe], nextProbe := probe.id + 1);
    if !NoRepeats(p.tags) {
      return Failure(Constraint);
    }
    db.tables := db.tables.(probeTags := db.tables.probeTags + set tag | tag in Elements(p.tags) ::
        ProbeTag(p.orgId, probe.id, tag));
    TagsEntered(t, db.tables, p.orgId, probe.id, TagsOfProbe(t, p.orgId, probe.id), Elements(p.tags));
    assert TagsOfProbe(t, p.orgId, probe.id) == {};
    NewProbeKeepsSound(t, db.tables, probe);
    assert db.tables.probes - {probe.id} == t.probes - {probe.id};
    r := Success(p.(id := probe.id, slug := slug, enabledChange := enabledChange));
  }

  /** The org may see the probe: it owns it, or the probe is public. */
  ghost predicate Visible(t: Tables, org: int, p: int) {
    p in t.probes && (t.probes[p].orgId == org || t.probes[p].public)
  }

  /** The owner sets the columns but never whether the probe is online; another org sets none. */
  ghost predicate RowEdited(row: Probe, edited: Probe, slugOf: string -> string, p: ProbeDTO, from: Time, to: Time) {
    if row.orgId == p.orgId then
      && edited == row.(name := p.name, slug := slugOf(p.name), latitude := p.latitude, longitude := p.longitude,
                        public := p.public, enabled := p.enabled,
                        enabledChange := edited.enabledChange, updated := edited.updated)
      && from <= edited.updated <= to
      && (if row.enabled == p.enabled then edited.enabledChange == p.enabledChange
          else from <= edited.enabledChange <= edited.updated)
    else
      edited == row
  }

  /** What updateProbe must leave behind: the row edited by the owner, the tags of the org in any case. */
  ghost predicate ProbeEdited(t: Tables, u: Tables, slugOf: string -> string, p: ProbeDTO, from: Time, to: Time) {
    && Sound(u) && OnlyProbeMoved(t, u, p.orgId, p.id) && u.idIndex == t.idIndex && u.nextProbe == t.nextProbe
    && p.id in t.probes && p.id in u.probes
    && TagsOfProbe(u, p.orgId, p.id) == Elements(p.tags) + TagsOfProbe(t, p.orgId, p.id) * {""}
    && RowEdited(t.probes[p.id], u.probes[p.id], slugOf, p, from, to)
  }

  /** The request is free of conflicts: the owner's new slug is free, and "" is not added twice. */
  ghost predicate ProbeEditable(t: Tables, slugOf: string -> string, p: ProbeDTO) {
    && Visible(t, p.orgId, p.id)
    && (t.probes[p.id].orgId == p.orgId ==> SlugFree(t, p.orgId, slugOf(p.name), p.id))
    && !("" in p.tags && "" in TagsOfProbe(t, p.orgId, p.id))
  }

  /** Replaces the tags of a probe under one org by difference. */
  method ReplaceProbeTags(db: Database, org: int, p: int, existing: seq<string>,
                          requested: seq<string>) returns (ok: bool)
    requires Elements(existing) == TagsOfProbe(db.tables, org, p) - {""}
    modifies db`tables
    ensures ok <==> !("" in requested && "" in TagsOfProbe(old(db.tables), org, p))
    ensures ok ==> && db.tables == old(db.tables).(probeTags := db.tables.probeTags)
                   && TagsOfProbe(db.tables, org, p) == Elements(requested) + TagsOfProbe(old(db.tables), org, p) * {""}
                   && forall r: ProbeTag :: !(r.orgId == org && r.probeId == p) ==>
                        (r in db.tables.probeTags <==> r in old(db.tables.probeTags))
  {
    ghost var t := db.tables;
    var toDelete, toAdd := DiffTags(existing, requested);
    ghost var kept := TagsOfProbe(t, org, p) - toDelete;
    db.tables := db.tables.(probeTags := set r | r in db.tables.probeTags
        && !(r.probeId == p && r.orgId == org && r.tag in toDelete));
    assert db.tables.probeTags == set r | r in t.probeTags && !(r.orgId == org && r.probeId == p && r.tag !in kept) by {
      assert forall r: ProbeTag :: r in t.probeTags && r.probeId == p && r.orgId == org ==>
            r.tag in TagsOfProbe(t, org, p);
    }
    ok := !exists tag :: tag in toAdd && ProbeTag(org, p, tag) in db.tables.probeTags;
    assert forall tag :: ProbeTag(org, p, tag) in t.probeTags <==> tag in TagsOfProbe(t, org, p);
    if ok {
      db.tables := db.tables.(probeTags := db.tables.probeTags + set tag | tag in toAdd :: ProbeTag(org, p, tag));
      TagsEntered(t, db.tables, org, p, kept, toAdd);
    }
  }

  /** The row of the probe, before its tags are looked at. */
  method UpdateProbeRow(db: Database, slugOf: string -> string, p: ProbeDTO, existing: Probe)
    returns (ok: bool, edited: ProbeDTO)
    requires p.id in db.tables.probes && db.tables.probes[p.id] == existing && existing.id == p.id
    modifies db
    ensures db.now >= old(db.now)
    ensures ok <==> existing.orgId == p.orgId ==> SlugFree(old(db.tables), p.orgId, slugOf(p.name), p.id)
    ensures ok ==> && p.id in db.tables.probes
                   && db.tables == old(db.tables).(probes := old(db.tables.probes)[p.id := db.tables.probes[p.id]])
                   && RowEdited(existing, db.tables.probes[p.id], slugOf, p, old(db.now), db.now)
    ensures ok ==> edited.id == p.id && edited.orgId == p.orgId && edited.tags == p.tags
  {
    edited := p;
    ok := true;
    if p.orgId == existing.orgId {
      if existing.enabled != p.enabled {
        var changed := db.Now();
        edited := edited.(enabledChange := changed);
      }
      var updated := db.Now();
      edited := edited.(slug := slugOf(p.name));
      ok := SlugFree(db.tables, p.orgId, edited.slug, p.id);
      if !ok {
        return;
      }
      db.tables := db.tables.(probes := db.tables.probes[p.id := existing.(name := p.name, slug := edited.slug,
        latitude := p.latitude, longitude := p.longitude, public := p.public,
        enabled := p.enabled, enabledChange := edited.enabledChange, updated := updated)]);
    } else {
      edited := ProbeDTO(existing.id, p.orgId, existing.name, existing.slug, existing.latitude, existing.longitude,
                         p.tags, existing.public, existing.enabled, existing.enabledChange);
      assert db.tables.probes == db.tables.probes[p.id := existing];
    }
  }

  method ApplyUpdateProbe(db: Database, slugOf: string -> string, p: ProbeDTO) returns (r: Result<ProbeDTO>)
    requires Sound(db.tables)
    modifies db
    ensures db.now >= old(db.now)
    ensures r == Failure(NotFound) <==> !Visible(old(db.tables), p.orgId, p.id)
    ensures r.Success? <==> ProbeEditable(old(db.tables), slugOf, p)
    ensures r.Success? ==> ProbeEdited(old(db.tables), db.tables, slugOf, p, old(db.now), db.now)
    ensures r.Success? ==> r.value.id == p.id && r.value.orgId == p.orgId && r.value.tags == p.tags
  {
    ghost var t := db.tables;
    var found := GetProbeById(db, p.id, p.orgId);
    if found.Failure? {
      return Failure(NotFound);
    }
    var ok, edited := UpdateProbeRow(db, slugOf, p, found.value.probe);
    if !ok {
      return Failure(Constraint);
    }
    assert TagsOfProbe(db.tables, p.orgId, p.id) == TagsOfProbe(t, p.orgId, p.id);
    ok := ReplaceProbeTags(db, p.orgId, p.id, found.value.tags, p.tags);
    if !ok {
      return Failure(Constraint);
    }
    assert Sound(db.tables) by {
      ProbeEditKeepsSound(t, db.tables, p.id);
    }
    assert db.tables.probes - {p.id} == t.probes - {p.id};
    r := Success(edited);
  }

  /** What deleteProbe must leave behind: no probe, no tag of its owner on it, no id row for it. */
  ghost predicate ProbeRemoved(t: Tables, u: Tables, id: int, orgId: int) {
    && Sound(u) && OnlyProbeMoved(t, u, orgId, id)
    && u.probes == t.probes - {id} && u.nextProbe == t.nextProbe
    && TagsOfProbe(u, orgId, id) == {}
    && u.idIndex == set r | r in t.idIndex && r.probeId != id
  }

  /** deleteProbe: only the owner may; tags other orgs put on the probe stay behind, and so do its sessions. */
  method ApplyDeleteProbe(db: Database, id: int, orgId: int) returns (r: Result<()>)
    requires Sound(db.tables)
    modifies db`tables
    ensures r.Success? <==> id in old(db.tables.probes) && old(db.tables.probes)[id].orgId == orgId
    ensures r.Failure? ==> r.error == NotFound
    ensures r.Success? ==> ProbeRemoved(old(db.tables), db.tables, id, orgId)
  {
    ghost var t := db.tables;
    var existing := GetProbeById(db, id, orgId);
    if existing.Failure? {
      return Failure(NotFound);
    }
    if existing.value.probe.orgId != orgId {
      return Failure(NotFound);
    }
    db.tables := db.tables.(probes := db.tables.probes - {id});
    db.tables := db.tables.(probeTags := set r | r in db.tables.probeTags && !(r.probeId == id && r.orgId == orgId));
    db.tables := db.tables.(idIndex := set r | r in db.tables.idIndex && r.probeId != id);
    ProbeDeletionKeepsSound(t, db.tables, id);
    r := Success(());
  }

  method AddProbe(db: Database, slugOf: string -> string, p: ProbeDTO, commits: bool) returns (r: Result<ProbeDTO>)
    requires Sound(db.tables)
    modifies db
    ensures Sound(db.tables) && db.now >= old(db.now)
    ensures r.Success? <==>
              NoRepeats(p.tags) && SlugFree(old(db.tables), p.orgId, slugOf(p.name), old(db.tables.nextProbe))
    ensures r.Failure? || !commits ==> db.tables == old(db.tables)
    ensures r.Success? && commits ==> ProbeAdded(old(db.tables), db.tables, slugOf, p, r.value, old(db.now), db.now)
  {
    var sess := new Session(db);
    r := ApplyAddProbe(db, slugOf, p);
    if r.Success? {
      sess.Complete(commits);
    }
    sess.Cleanup();
  }

  method UpdateProbe(db: Database, slugOf: string -> string, p: ProbeDTO, commits: bool) returns (r: Result<ProbeDTO>)
    requires Sound(db.tables)
    modifies db
    ensures Sound(db.tables) && db.now >= old(db.now)
    ensures r == Failure(NotFound) <==> !Visible(old(db.tables), p.orgId, p.id)
    ensures r.Success? <==> ProbeEditable(old(db.tables), slugOf, p)
    ensures r.Failure? || !commits ==> db.tables == old(db.tables)
    ensures r.Success? && commits ==> ProbeEdited(old(db.tables), db.tables, slugOf, p, old(db.now), db.now)
  {
    var sess := new Session(db);
    r := ApplyUpdateProbe(db, slugOf, p);
    if r.Success? {
      sess.Complete(commits);
    }
    sess.Cleanup();
  }

  /** Of the tags just those the owner put on the probe go. */
  lemma OwnTagsGo(t: Tables, u: Tables, id: int, orgId: int, r: ProbeTag)
    requires ProbeRemoved(t, u, id, orgId)
    ensures r in u.probeTags <==> r in t.probeTags && !(r.probeId == id && r.orgId == orgId)
  {
    assert r in u.probeTags && r.probeId == id && r.orgId == orgId ==> r.tag in TagsOfProbe(u, orgId, id);
  }

  method DeleteProbe(db: Database, id: int, orgId: int, commits: bool) returns (r: Result<()>)
    requires Sound(db.tables)
    modifies db
    ensures Sound(db.tables) && db.now == old(db.now)
    ensures r.Success? <==> id in old(db.tables.probes) && old(db.tables.probes)[id].orgId == orgId
    ensures r.Failure? || !commits ==> db.tables == old(db.tables)
    ensures r.Success? && commits ==> ProbeRemoved(old(db.tables), db.tables, id, orgId)
    ensures r.Success? && commits ==>
              && db.tables.probes == old(db.tables.probes) - {id} && db.tables.sessions == old(db.tables.sessions)
              && (forall tag: ProbeTag :: tag in db.tables.probeTags <==>
                    tag in old(db.tables.probeTags) && !(tag.probeId == id && tag.orgId == orgId))
              && (forall row: IdRow :: row in db.tables.idIndex <==>
                    row in old(db.tables.idIndex) && row.probeId != id)
  {
    var sess := new Session(db);
    r := ApplyDeleteProbe(db, id, orgId);
    if r.Success? {
      forall tag: ProbeTag
        ensures tag in db.tables.probeTags <==>
                  tag in old(db.tables.probeTags) && !(tag.probeId == id && tag.orgId == orgId)
      {
        OwnTagsGo(old(db.tables), db.tables, id, orgId, tag);
      }
      sess.Complete(commits);
    }
    sess.Cleanup();
  }
}
