/** Reading probes: the rows of the joins with tags and sessions, regrouped by probe (probe.go). */
module ProbeRows {
  import opened Model
  import opened Database

  /** A row of probe LEFT JOIN probe_tag LEFT JOIN probe_session; "" stands for no tag, or no address. */
  datatype ProbeRow = ProbeRow(probe: Probe, tag: string, remoteIp: string)

  /** A probe as it is read back: its row with the tags of one org and the addresses of its sessions. */
  datatype ProbeListing = ProbeListing(probe: Probe, tags: seq<string>, addresses: seq<string>)

  // ---------------------------------------------------------------- the join

  function TagsOfProbe(t: Tables, org: int, p: int): set<string> {
    set r | r in t.probeTags && r.orgId == org && r.probeId == p :: r.tag
  }

  function AddressesOf(t: Tables, p: int): set<string> {
    set s | s in t.sessions && t.sessions[s].probeId == p :: t.sessions[s].remoteIp
  }

  function Column(shown: set<string>): (column: set<string>)
    ensures column != {} && column - {""} == shown - {""}
  {
    if shown == {} then {""} else shown
  }

  function ProbeJoin(t: Tables, org: int, ids: set<int>): set<ProbeRow> {
    set p, tag, ip | p in ids && p in t.probes && tag in Column(TagsOfProbe(t, org, p))
        && ip in Column(AddressesOf(t, p)) ::
      ProbeRow(t.probes[p], tag, ip)
  }

  /** The database answers in any order. */
  method QueryProbeJoin(db: Database, org: int, ids: set<int>) returns (rows: seq<ProbeRow>)
    ensures Elements(rows) == ProbeJoin(db.tables, org, ids)
  {
    var rest := ProbeJoin(db.tables, org, ids);
    rows := [];
    while rest != {}
      invariant Elements(rows) + rest == ProbeJoin(db.tables, org, ids)
      decreases rest
    {
      var row := Pick(rest);
      rows := rows + [row];
      rest := rest - {row};
    }
  }

  // ---------------------------------------------------------------- regrouping

  ghost function TagsShown(rows: seq<ProbeRow>, p: int): set<string> {
    set r | r in rows && r.probe.id == p && r.tag != "" :: r.tag
  }

  ghost function AddressesShown(rows: seq<ProbeRow>, p: int): set<string> {
    set r | r in rows && r.probe.id == p && r.remoteIp != "" :: r.remoteIp
  }

  ghost predicate Lists(shown: set<string>, listed: seq<string>) {
    NoRepeats(listed) && Elements(listed) == shown
  }

  /** What the rows seen show of probe p. */
  ghost predicate GatheredAt(seen: seq<ProbeRow>, p: int, row: Probe, tags: set<string>, addresses: set<string>) {
    && row.id == p && (exists r :: r in seen && r.probe == row)
    && tags == TagsShown(seen, p) && addresses == AddressesShown(seen, p)
  }

  /** The three maps hold what the rows seen show of each probe. */
  ghost predicate Gathered(seen: seq<ProbeRow>, probes: map<int, Probe>, tags: map<int, set<string>>,
                           addresses: map<int, set<string>>) {
    && probes.Keys == tags.Keys == addresses.Keys
    && (forall r :: r in seen ==> r.probe.id in probes)
    && forall p :: p in probes ==> GatheredAt(seen, p, probes[p], tags[p], addresses[p])
  }

  lemma ShownMore(seen: seq<ProbeRow>, r: ProbeRow, p: int)
    ensures TagsShown(seen + [r], p) == TagsShown(seen, p) + if r.probe.id == p && r.tag != "" then {r.tag} else {}
    ensures AddressesShown(seen + [r], p) ==
              AddressesShown(seen, p) + if r.probe.id == p && r.remoteIp != "" then {r.remoteIp} else {}
  {
  }

  lemma GatheredMore(seen: seq<ProbeRow>, r: ProbeRow, probes: map<int, Probe>, tags: map<int, set<string>>,
                     addresses: map<int, set<string>>, row: Probe, shown: set<string>, from: set<string>)
    requires Gathered(seen, probes, tags, addresses)
    requires GatheredAt(seen + [r], r.probe.id, row, shown, from)
    ensures Gathered(seen + [r], probes[row.id := row], tags[row.id := shown], addresses[row.id := from])
  {
  }

  /** Enters one row into the group of its probe. */
  method GatherRow(ghost seen: seq<ProbeRow>, r: ProbeRow, row: Probe, tags: set<string>, addresses: set<string>)
    returns (shown: set<string>, from: set<string>)
    requires GatheredAt(seen, r.probe.id, row, tags, addresses)
             || (row == r.probe && tags == {} && addresses == {} && forall s :: s in seen ==> s.probe.id != r.probe.id)
    ensures GatheredAt(seen + [r], r.probe.id, row, shown, from)
  {
    ShownMore(seen, r, r.probe.id);
    shown, from := tags, addresses;
    if r.tag != "" {
      shown := shown + {r.tag};
    }
    if r.remoteIp != "" {
      from := from + {r.remoteIp};
    }
    assert exists s :: s in seen + [r] && s.probe == row by {
      if s :| s in seen && s.probe == row {
        assert s in seen + [r];
      } else {
        assert r in seen + [r];
      }
    }
  }

  /** First pass: the rows sorted into maps by probe. */
  method GatherRows(rows: seq<ProbeRow>)
    returns (probes: map<int, Probe>, tags: map<int, set<string>>, addresses: map<int, set<string>>)
    ensures Gathered(rows, probes, tags, addresses)
  {
    probes, tags, addresses := map[], map[], map[];
    for i := 0 to |rows|
      invariant Gathered(rows[..i], probes, tags, addresses)
    {
      assert rows[..i + 1] == rows[..i] + [rows[i]];
      probes, tags, addresses := EnterRow(rows[..i], rows[i], probes, tags, addresses);
    }
    assert rows[..|rows|] == rows;
  }

  method EnterRow(ghost seen: seq<ProbeRow>, r: ProbeRow, probes0: map<int, Probe>, tags0: map<int, set<string>>,
                  addresses0: map<int, set<string>>)
    returns (probes: map<int, Probe>, tags: map<int, set<string>>, addresses: map<int, set<string>>)
    requires Gathered(seen, probes0, tags0, addresses0)
    ensures Gathered(seen + [r], probes, tags, addresses)
  {
    var p := r.probe.id;
    var row, shown, from := r.probe, {}, {};
    if p in probes0 {
      row := probes0[p];
      shown, from := GatherRow(seen, r, row, tags0[p], addresses0[p]);
    } else {
      shown, from := GatherRow(seen, r, row, {}, {});
    }
    GatheredMore(seen, r, probes0, tags0, addresses0, row, shown, from);
    probes, tags, addresses := probes0[p := row], tags0[p := shown], addresses0[p := from];
  }

  method ListStrings(shown: set<string>) returns (listed: seq<string>)
    ensures Lists(shown, listed)
  {
    listed := [];
    var rest := shown;
    while rest != {}
      invariant rest <= shown && Lists(shown - rest, listed)
      decreases rest
    {
      var x := Pick(rest);
      rest := rest - {x};
      assert Elements(listed + [x]) == Elements(listed) + {x};
      listed := listed + [x];
    }
  }

  ghost function ListedProbes(l: seq<ProbeListing>): set<int> {
    set d | d in l :: d.probe.id
  }

  /** d is what the rows show of its probe. */
  ghost predicate GroupsProbe(rows: seq<ProbeRow>, d: ProbeListing) {
    && (exists r :: r in rows && r.probe == d.probe)
    && Lists(TagsShown(rows, d.probe.id), d.tags) && Lists(AddressesShown(rows, d.probe.id), d.addresses)
  }

  /** Second pass: one listing per probe, in whatever order the map is ranged over. */
  method ToProbeDTO(rows: seq<ProbeRow>) returns (listings: seq<ProbeListing>)
    ensures forall i, j :: 0 <= i < j < |listings| ==> listings[i].probe.id != listings[j].probe.id
    ensures ListedProbes(listings) == set r | r in rows :: r.probe.id
    ensures forall d :: d in listings ==> GroupsProbe(rows, d)
  {
    var probes, tags, addresses := GatherRows(rows);
    GatheredProbes(rows, probes, tags, addresses);
    listings := [];
    var rest := probes.Keys;
    while rest != {}
      invariant rest <= probes.Keys
      invariant forall i, j :: 0 <= i < j < |listings| ==> listings[i].probe.id != listings[j].probe.id
      invariant ListedProbes(listings) == probes.Keys - rest
      invariant forall d :: d in listings ==> GroupsProbe(rows, d)
      decreases rest
    {
      var p := Pick(rest);
      assert GatheredAt(rows, p, probes[p], tags[p], addresses[p]);
      var listedTags := ListStrings(tags[p]);
      var listedAddresses := ListStrings(addresses[p]);
      var d := ProbeListing(probes[p], listedTags, listedAddresses);
      assert ListedProbes(listings + [d]) == ListedProbes(listings) + {p};
      listings := listings + [d];
      rest := rest - {p};
    }
  }

  lemma GatheredProbes(rows: seq<ProbeRow>, probes: map<int, Probe>, tags: map<int, set<string>>,
                       addresses: map<int, set<string>>)
    requires Gathered(rows, probes, tags, addresses)
    ensures probes.Keys == set r | r in rows :: r.probe.id
  {
    forall p | p in probes
      ensures exists r :: r in rows && r.probe.id == p
    {
      assert GatheredAt(rows, p, probes[p], tags[p], addresses[p]);
    }
  }

  // ---------------------------------------------------------------- regrouping inverts the join

  /** d shows probe p as it is stored, with its tags under the org and the addresses of its sessions. */
  ghost predicate IsListing(t: Tables, org: int, p: int, d: ProbeListing) {
    && p in t.probes && d.probe == t.probes[p]
    && Lists(TagsOfProbe(t, org, p) - {""}, d.tags) && Lists(AddressesOf(t, p) - {""}, d.addresses)
  }

  lemma ProbeJoinShows(t: Tables, org: int, ids: set<int>, rows: seq<ProbeRow>, p: int)
    requires ProbesKeyed(t) && Elements(rows) == ProbeJoin(t, org, ids) && p in ids && p in t.probes
    ensures exists r :: r in rows && r.probe.id == p
    ensures forall r :: r in rows && r.probe.id == p ==> r.probe == t.probes[p]
    ensures TagsShown(rows, p) == TagsOfProbe(t, org, p) - {""}
    ensures AddressesShown(rows, p) == AddressesOf(t, p) - {""}
  {
    var tags, ips := Column(TagsOfProbe(t, org, p)), Column(AddressesOf(t, p));
    forall tag, ip | tag in tags && ip in ips
      ensures ProbeRow(t.probes[p], tag, ip) in rows
    {
      assert ProbeRow(t.probes[p], tag, ip) in Elements(rows);
    }
    forall r | r in rows && r.probe.id == p
      ensures r.probe == t.probes[p] && r.tag in tags && r.remoteIp in ips
    {
      assert r in ProbeJoin(t, org, ids);
    }
    var someTag :| someTag in tags;
    var someIp :| someIp in ips;
    assert ProbeRow(t.probes[p], someTag, someIp) in rows;
    forall tag | tag in tags - {""}
      ensures tag in TagsShown(rows, p)
    {
      assert ProbeRow(t.probes[p], tag, someIp) in rows;
    }
    forall ip | ip in ips - {""}
      ensures ip in AddressesShown(rows, p)
    {
      assert ProbeRow(t.probes[p], someTag, ip) in rows;
    }
  }

  /** Whatever the order of the rows and of the maps: each selected probe comes back once, with
      exactly its tags under the org and the addresses of its sessions, none twice. */
  method SelectProbes(db: Database, org: int, ids: set<int>) returns (listings: seq<ProbeListing>)
    requires ProbesKeyed(db.tables)
    ensures forall i, j :: 0 <= i < j < |listings| ==> listings[i].probe.id != listings[j].probe.id
    ensures ListedProbes(listings) == ids * db.tables.probes.Keys
    ensures forall d :: d in listings ==> IsListing(db.tables, org, d.probe.id, d)
  {
    var rows := QueryProbeJoin(db, org, ids);
    listings := ToProbeDTO(rows);
    ghost var t := db.tables;
    forall r | r in rows
      ensures r.probe.id in ids && r.probe.id in t.probes
    {
      assert r in Elements(rows);
    }
    forall p | p in ids * t.probes.Keys
      ensures p in ListedProbes(listings)
    {
      ProbeJoinShows(t, org, ids, rows, p);
    }
    forall d | d in listings
      ensures IsListing(t, org, d.probe.id, d)
    {
      ProbeJoinShows(t, org, ids, rows, d.probe.id);
    }
  }

  /** A filter given as text: absent, a truth value, or neither. */
  datatype Flag = Anything | Is(b: bool) | Unparsable

  /** The filters of a listing of probes; "" filters nothing. */
  datatype ProbesQuery = ProbesQuery(orgId: int, name: string, slug: string, tag: string, enabled: Flag, online: Flag,
      public: Flag)

  predicate Passes(f: Flag, b: bool) {
    f.Is? ==> b == f.b
  }

  /** An org sees its own probes and the public ones; a tag may have been put on by any org. */
  predicate Matches(t: Tables, q: ProbesQuery, p: int) {
    && p in t.probes
    && (q.tag != "" ==> exists r :: r in t.probeTags && r.probeId == p && r.tag == q.tag)
    && (q.name != "" ==> t.probes[p].name == q.name) && (q.slug != "" ==> t.probes[p].slug == q.slug)
    && Passes(q.enabled, t.probes[p].enabled) && Passes(q.online, t.probes[p].online)
           && Passes(q.public, t.probes[p].public)
    && (t.probes[p].orgId == q.orgId || t.probes[p].public)
  }

  lemma TagIsCarried(t: Tables, p: int, tag: string)
    ensures (exists org :: ProbeTag(org, p, tag) in t.probeTags) <==>
              exists r :: r in t.probeTags && r.probeId == p && r.tag == tag
  {
    if r :| r in t.probeTags && r.probeId == p && r.tag == tag {
      assert ProbeTag(r.orgId, p, tag) in t.probeTags;
    }
  }

  /** A listing shows a tag just when the org that asks put it on, and an address just when some session of
      the probe has it; "" is not shown. */
  lemma ListingShows(t: Tables, org: int, p: int, d: ProbeListing, tag: string, ip: string)
    requires IsListing(t, org, p, d)
    ensures d.probe == t.probes[p] && NoRepeats(d.tags) && NoRepeats(d.addresses)
    ensures tag in d.tags <==> tag != "" && ProbeTag(org, p, tag) in t.probeTags
    ensures ip in d.addresses <==>
              ip != "" && exists s :: s in t.sessions && t.sessions[s].probeId == p && t.sessions[s].remoteIp == ip
  {
    assert tag in d.tags <==> tag in Elements(d.tags);
    assert ip in d.addresses <==> ip in Elements(d.addresses);
    assert tag in TagsOfProbe(t, org, p) <==> ProbeTag(org, p, tag) in t.probeTags;
  }

  /** getProbes: exactly the probes that pass the filters, each once and as stored, unless the org
      or a filter makes no sense. */
  method GetProbes(db: Database, q: ProbesQuery) returns (r: Result<seq<ProbeListing>>)
    requires ProbesKeyed(db.tables)
    ensures r.Failure? <==> q.orgId == 0 || q.enabled.Unparsable? || q.online.Unparsable? || q.public.Unparsable?
    ensures r.Success? ==>
              && (forall i, j :: 0 <= i < j < |r.value| ==> r.value[i].probe.id != r.value[j].probe.id)
              && (forall p :: p in ListedProbes(r.value) <==>
                    && p in db.tables.probes && (db.tables.probes[p].orgId == q.orgId || db.tables.probes[p].public)
                    && (q.name == "" || db.tables.probes[p].name == q.name)
                    && (q.slug == "" || db.tables.probes[p].slug == q.slug)
                    && (q.tag == "" || exists org :: ProbeTag(org, p, q.tag) in db.tables.probeTags)
                    && (q.enabled == Anything || q.enabled == Is(db.tables.probes[p].enabled))
                    && (q.online == Anything || q.online == Is(db.tables.probes[p].online))
                    && (q.public == Anything || q.public == Is(db.tables.probes[p].public)))
              && (forall d :: d in r.value ==> IsListing(db.tables, q.orgId, d.probe.id, d))
  {
    if q.orgId == 0 || q.enabled.Unparsable? || q.online.Unparsable? || q.public.Unparsable? {
      return Failure(Invalid);
    }
    var selected := set p | p in db.tables.probes && Matches(db.tables, q, p);
    var listings := SelectProbes(db, q.orgId, selected);
    forall p | p in db.tables.probes
      ensures (exists org :: ProbeTag(org, p, q.tag) in db.tables.probeTags) <==>
                exists r :: r in db.tables.probeTags && r.probeId == p && r.tag == q.tag
    {
      TagIsCarried(db.tables, p, q.tag);
    }
    r := Success(listings);
  }

  /** getProbeById: an org sees its own probes and the public ones. */
  method GetProbeById(db: Database, id: int, orgId: int) returns (r: Result<ProbeListing>)
    requires ProbesKeyed(db.tables)
    ensures r.Success? <==>
              id in db.tables.probes && (db.tables.probes[id].orgId == orgId || db.tables.probes[id].public)
    ensures r.Success? ==> IsListing(db.tables, orgId, id, r.value)
    ensures r.Failure? ==> r.error == NotFound
  {
    var selected := set p | p in db.tables.probes && p == id
          && (db.tables.probes[p].orgId == orgId || db.tables.probes[p].public);
    var listings := SelectProbes(db, orgId, selected);
    if |listings| == 0 {
      assert id !in ListedProbes(listings);
      return Failure(NotFound);
    }
    assert listings[0].probe.id in ListedProbes(listings);
    r := Success(listings[0]);
  }
}
