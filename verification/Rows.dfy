/** Reading endpoints back: the left join with checks and tags, and its regrouping (endpoint.go). */
module Rows {
  import opened Model
  import opened Database

  /** One row of endpoint LEFT JOIN check LEFT JOIN endpoint_tag; a missing tag reads as "". */
  datatype EndpointRow = EndpointRow(endpoint: Endpoint, check: Option<Check>, tag: string)

  /** A state that has not been refreshed for more than three periods is not trusted. */
  function Scrutinize(now: Time, c: Check): Check {
    if c.state == EvalUnknown then c
    else if c.stateCheck < now - 3 * (c.frequency * SECOND) then c.(state := EvalUnknown, stateChange := c.stateCheck)
    else c
  }

  function Ids(checks: seq<Check>): set<int> {
    set c | c in checks :: c.id
  }

  ghost function EndpointIds(endpoints: seq<EndpointDTO>): set<int> {
    set d | d in endpoints :: d.id
  }

  ghost predicate DistinctIds(checks: seq<Check>) {
    forall i, j :: 0 <= i < j < |checks| ==> checks[i].id != checks[j].id
  }

  // ---------------------------------------------------------------- what the join holds

  function ChecksOf(t: Tables, e: int): set<Check> {
    set k | k in t.checks && t.checks[k].endpointId == e :: t.checks[k]
  }

  function TagsOf(t: Tables, e: int): set<string> {
    set r | r in t.endpointTags && r.endpointId == e :: r.tag
  }

  /** The rows of the left join for the endpoints in ids. */
  function LeftJoin(t: Tables, ids: set<int>): set<EndpointRow> {
    set e, c, tag | e in ids && e in t.endpoints && c in CheckColumn(t, e) && tag in TagColumn(t, e) ::
      EndpointRow(t.endpoints[e], c, tag)
  }

  function CheckColumn(t: Tables, e: int): set<Option<Check>> {
    if ChecksOf(t, e) == {} then {None} else set c | c in ChecksOf(t, e) :: Some(c)
  }

  function TagColumn(t: Tables, e: int): set<string> {
    if TagsOf(t, e) == {} then {""} else TagsOf(t, e)
  }

  /** The database answers in any order. */
  method QueryLeftJoin(db: Database, ids: set<int>) returns (rows: seq<EndpointRow>)
    ensures Elements(rows) == LeftJoin(db.tables, ids)
  {
    var rest := LeftJoin(db.tables, ids);
    rows := [];
    while rest != {}
      invariant Elements(rows) + rest == LeftJoin(db.tables, ids)
      decreases rest
    {
      var row := Pick(rest);
      rows := rows + [row];
      rest := rest - {row};
    }
  }

  // ---------------------------------------------------------------- what the regrouped rows must be

  /** Rows agree wherever they show the same endpoint, or the same check. */
  ghost predicate Consistent(rows: seq<EndpointRow>) {
    forall r, s :: r in rows && s in rows ==>
      && (r.endpoint.id == s.endpoint.id ==> r.endpoint == s.endpoint)
      && (r.check.Some? && s.check.Some? && r.check.value.id == s.check.value.id ==> r.check == s.check)
  }

  ghost function ShownChecks(rows: seq<EndpointRow>, e: int): set<Check> {
    set r | r in rows && r.endpoint.id == e && r.check.Some? :: r.check.value
  }

  ghost function ShownTags(rows: seq<EndpointRow>, e: int): set<string> {
    set r | r in rows && r.endpoint.id == e && r.tag != "" :: r.tag
  }

  ghost predicate SameFields(d: EndpointDTO, e: Endpoint) {
    && d.id == e.id && d.orgId == e.orgId && d.name == e.name && d.slug == e.slug
    && d.created == e.created && d.updated == e.updated
  }

  /** checks lists every one of rows once, scrutinized. */
  ghost predicate ListsChecks(now: Time, rows: set<Check>, checks: seq<Check>) {
    && DistinctIds(checks)
    && (forall c :: c in checks ==> exists row :: row in rows && c == Scrutinize(now, row))
    && (forall row :: row in rows ==> Scrutinize(now, row) in checks)
  }

  ghost predicate ListsTags(tags: set<string>, listed: seq<string>) {
    NoRepeats(listed) && Elements(listed) == tags
  }

  /** d is the group of the rows of its endpoint. */
  ghost predicate Groups(now: Time, rows: seq<EndpointRow>, d: EndpointDTO) {
    && (exists r :: r in rows && SameFields(d, r.endpoint))
    && ListsChecks(now, ShownChecks(rows, d.id), d.checks)
    && ListsTags(ShownTags(rows, d.id), d.tags)
  }

  // ---------------------------------------------------------------- regrouping

  /** byId is rows, keyed by check id. */
  ghost predicate Keyed(rows: set<Check>, byId: map<int, Check>) {
    && (forall k :: k in byId ==> byId[k].id == k && byId[k] in rows)
    && (forall c :: c in rows ==> c.id in byId && byId[c.id] == c)
  }

  method ListScrutinized(now: Time, byId: map<int, Check>, ghost rows: set<Check>) returns (checks: seq<Check>)
    requires Keyed(rows, byId)
    ensures ListsChecks(now, rows, checks)
  {
    checks := [];
    var rest := byId.Keys;
    while rest != {}
      invariant rest <= byId.Keys
      invariant DistinctIds(checks)
      invariant forall c :: c in checks ==> c.id in byId && c.id !in rest && c == Scrutinize(now, byId[c.id])
      invariant forall k :: k in byId && k !in rest ==> Scrutinize(now, byId[k]) in checks
      decreases rest
    {
      var k := Pick(rest);
      rest := rest - {k};
      checks := checks + [Scrutinize(now, byId[k])];
    }
  }

  method ListSet(tags: set<string>) returns (listed: seq<string>)
    ensures ListsTags(tags, listed)
  {
    listed := [];
    var rest := tags;
    while rest != {}
      invariant rest <= tags && NoRepeats(listed)
      invariant Elements(listed) == tags - rest
      decreases rest
    {
      var tag := Pick(rest);
      rest := rest - {tag};
      assert Elements(listed + [tag]) == Elements(listed) + {tag};
      listed := listed + [tag];
    }
  }

  /** d, byId and tags are the group of endpoint e over the rows seen. */
  ghost predicate GroupSoFar(seen: seq<EndpointRow>, e: int, d: EndpointDTO, byId: map<int, Check>, tags: set<string>) {
    && d.id == e
    && (exists r :: r in seen && SameFields(d, r.endpoint))
    && Keyed(ShownChecks(seen, e), byId)
    && tags == ShownTags(seen, e)
  }

  /** The three maps hold the groups of the rows seen. */
  ghost predicate Accumulated(seen: seq<EndpointRow>, endpoints: map<int, EndpointDTO>,
                              checks: map<int, map<int, Check>>, tags: map<int, set<string>>)
  {
    && endpoints.Keys == checks.Keys == tags.Keys
    && (forall r :: r in seen ==> r.endpoint.id in endpoints)
    && (forall e :: e in endpoints ==> GroupSoFar(seen, e, endpoints[e], checks[e], tags[e]))
  }

  /** What a row shows of its own endpoint is added to what was shown before. */
  lemma ShownMore(seen: seq<EndpointRow>, r: EndpointRow)
    ensures ShownChecks(seen + [r], r.endpoint.id)
         == ShownChecks(seen, r.endpoint.id) + if r.check.Some? then {r.check.value} else {}
    ensures ShownTags(seen + [r], r.endpoint.id)
         == ShownTags(seen, r.endpoint.id) + if r.tag != "" then {r.tag} else {}
  {
  }

  /** A check that was met before under its id is the same check. */
  lemma MetBefore(seen: seq<EndpointRow>, r: EndpointRow, c: Check)
    requires Consistent(seen + [r])
    requires c in ShownChecks(seen, r.endpoint.id) && r.check.Some? && r.check.value.id == c.id
    ensures r.check.value == c
  {
  }

  /** Enters row r into the group of its endpoint. */
  method AddToGroup(ghost seen: seq<EndpointRow>, r: EndpointRow, ghost d: EndpointDTO,
                    byId0: map<int, Check>, tags0: set<string>)
    returns (byId: map<int, Check>, tags: set<string>)
    requires Consistent(seen + [r])
    requires GroupSoFar(seen, r.endpoint.id, d, byId0, tags0) || (SameFields(d, r.endpoint) && byId0 == map[]
               && tags0 == {}
             && forall s :: s in seen ==> s.endpoint.id != r.endpoint.id)
    ensures GroupSoFar(seen + [r], r.endpoint.id, d, byId, tags)
  {
    byId, tags := byId0, tags0;
    ShownMore(seen, r);
    if r.check.Some? {
      if r.check.value.id !in byId {
        byId := byId[r.check.value.id := r.check.value];
      } else {
        MetBefore(seen, r, byId[r.check.value.id]);
      }
    }
    if r.tag != "" {
      tags := tags + {r.tag};
    }
    assert exists q :: q in seen + [r] && SameFields(d, q.endpoint) by {
      if q :| q in seen && SameFields(d, q.endpoint) {
        assert q in seen + [r];
      } else {
        assert r in seen + [r];
      }
    }
  }

  lemma OtherGroup(seen: seq<EndpointRow>, r: EndpointRow, e: int, d: EndpointDTO, byId: map<int, Check>,
                   tags: set<string>)
    requires e != r.endpoint.id
    requires GroupSoFar(seen, e, d, byId, tags)
    ensures GroupSoFar(seen + [r], e, d, byId, tags)
  {
  }

  /** The groups of the other endpoints stand when the group of e has been renewed. */
  lemma OthersStand(seen: seq<EndpointRow>, r: EndpointRow, endpoints: map<int, EndpointDTO>,
                    checks: map<int, map<int, Check>>, tags: map<int, set<string>>,
                    d: EndpointDTO, byId: map<int, Check>, shown: set<string>)
    requires Accumulated(seen, endpoints, checks, tags)
    requires GroupSoFar(seen + [r], r.endpoint.id, d, byId, shown)
    ensures var e := r.endpoint.id; Accumulated(seen + [r], endpoints[e := d], checks[e := byId], tags[e := shown])
  {
    forall f | f in endpoints && f != r.endpoint.id
      ensures GroupSoFar(seen + [r], f, endpoints[f], checks[f], tags[f])
    {
      OtherGroup(seen, r, f, endpoints[f], checks[f], tags[f]);
    }
  }

  lemma ConsistentPrefix(rows: seq<EndpointRow>, n: nat)
    requires Consistent(rows) && n <= |rows|
    ensures Consistent(rows[..n])
  {
  }

  lemma GroupedIds(rows: seq<EndpointRow>, endpoints: map<int, EndpointDTO>,
                   checks: map<int, map<int, Check>>, tags: map<int, set<string>>)
    requires Accumulated(rows, endpoints, checks, tags)
    ensures endpoints.Keys == set r | r in rows :: r.endpoint.id
  {
    forall e | e in endpoints
      ensures exists r :: r in rows && r.endpoint.id == e
    {
      assert GroupSoFar(rows, e, endpoints[e], checks[e], tags[e]);
    }
  }

  /** First pass: the rows sorted into maps by endpoint. */
  method GroupRows(rows: seq<EndpointRow>)
    returns (endpoints: map<int, EndpointDTO>, checks: map<int, map<int, Check>>, tags: map<int, set<string>>)
    requires Consistent(rows)
    ensures Accumulated(rows, endpoints, checks, tags)
  {
    endpoints, checks, tags := map[], map[], map[];
    for i := 0 to |rows|
      invariant Accumulated(rows[..i], endpoints, checks, tags)
    {
      assert rows[..i + 1] == rows[..i] + [rows[i]];
      ConsistentPrefix(rows, i + 1);
      endpoints, checks, tags := EnterRow(rows[..i], rows[i], endpoints, checks, tags);
    }
    assert rows[..|rows|] == rows;
  }

  method EnterRow(ghost seen: seq<EndpointRow>, r: EndpointRow, endpoints0: map<int, EndpointDTO>,
                  checks0: map<int, map<int, Check>>, tags0: map<int, set<string>>)
    returns (endpoints: map<int, EndpointDTO>, checks: map<int, map<int, Check>>, tags: map<int, set<string>>)
    requires Consistent(seen + [r]) && Accumulated(seen, endpoints0, checks0, tags0)
    ensures Accumulated(seen + [r], endpoints, checks, tags)
  {
    var e := r.endpoint.id;
    var d := EndpointDTO(e, r.endpoint.orgId, r.endpoint.name, r.endpoint.slug, [], [], r.endpoint.created,
          r.endpoint.updated);
    var byId, shown := map[], {};
    if e in endpoints0 {
      d := endpoints0[e];
      byId, shown := AddToGroup(seen, r, d, checks0[e], tags0[e]);
    } else {
      byId, shown := AddToGroup(seen, r, d, map[], {});
    }
    OthersStand(seen, r, endpoints0, checks0, tags0, d, byId, shown);
    endpoints, checks, tags := endpoints0[e := d], checks0[e := byId], tags0[e := shown];
  }

  /** Second pass: one record per endpoint, in whatever order the map is ranged over. */
  method ToDTO(now: Time, rows: seq<EndpointRow>) returns (endpoints: seq<EndpointDTO>)
    requires Consistent(rows)
    ensures forall i, j :: 0 <= i < j < |endpoints| ==> endpoints[i].id != endpoints[j].id
    ensures forall d :: d in endpoints ==> Groups(now, rows, d)
    ensures EndpointIds(endpoints) == set r | r in rows :: r.endpoint.id
  {
    var endpointsById, checksById, tagsById := GroupRows(rows);
    endpoints := [];
    var rest := endpointsById.Keys;
    while rest != {}
      invariant rest <= endpointsById.Keys
      invariant forall i, j :: 0 <= i < j < |endpoints| ==> endpoints[i].id != endpoints[j].id
      invariant forall d :: d in endpoints ==> Groups(now, rows, d)
      invariant EndpointIds(endpoints) == endpointsById.Keys - rest
      decreases rest
    {
      var e := Pick(rest);
      assert GroupSoFar(rows, e, endpointsById[e], checksById[e], tagsById[e]);
      var d := ListGroup(now, rows, endpointsById[e], checksById[e], tagsById[e]);
      assert EndpointIds(endpoints + [d]) == EndpointIds(endpoints) + {e};
      endpoints := endpoints + [d];
      rest := rest - {e};
    }
    GroupedIds(rows, endpointsById, checksById, tagsById);
  }

  method ListGroup(now: Time, ghost rows: seq<EndpointRow>, d0: EndpointDTO, byId: map<int, Check>, tags: set<string>)
    returns (d: EndpointDTO)
    requires GroupSoFar(rows, d0.id, d0, byId, tags)
    ensures d.id == d0.id && Groups(now, rows, d)
  {
    var checks := ListScrutinized(now, byId, ShownChecks(rows, d0.id));
    var listed := ListSet(tags);
    d := d0.(checks := checks, tags := listed);
    ghost var r :| r in rows && SameFields(d0, r.endpoint);
    assert SameFields(d, r.endpoint);
  }

  // ---------------------------------------------------------------- regrouping inverts the join

  /** d shows endpoint e as it is stored: its columns, its checks (scrutinized), its visible tags. */
  ghost predicate IsView(t: Tables, now: Time, e: int, d: EndpointDTO) {
    && e in t.endpoints && d.id == e && SameFields(d, t.endpoints[e])
    && ListsChecks(now, ChecksOf(t, e), d.checks)
    && ListsTags(TagsOf(t, e) - {""}, d.tags)
  }

  lemma JoinIsConsistent(t: Tables, ids: set<int>, rows: seq<EndpointRow>)
    requires Valid(t) && Elements(rows) == LeftJoin(t, ids)
    ensures Consistent(rows)
  {
    forall r, s | r in rows && s in rows
      ensures && (r.endpoint.id == s.endpoint.id ==> r.endpoint == s.endpoint)
              && (r.check.Some? && s.check.Some? && r.check.value.id == s.check.value.id ==> r.check == s.check)
    {
      assert r in Elements(rows) && s in Elements(rows);
      if r.check.Some? && s.check.Some? {
        var k :| k in t.checks && r.check.value == t.checks[k];
        var l :| l in t.checks && s.check.value == t.checks[l];
        assert CheckKeyed(t, k) && CheckKeyed(t, l);
      }
    }
  }

  /** The join shows of a selected endpoint exactly what is stored about it, its "" tag aside. */
  lemma JoinShows(t: Tables, ids: set<int>, rows: seq<EndpointRow>, e: int)
    requires Valid(t) && Elements(rows) == LeftJoin(t, ids)
    requires e in ids && e in t.endpoints
    ensures e in set r | r in rows :: r.endpoint.id
    ensures ShownChecks(rows, e) == ChecksOf(t, e)
    ensures ShownTags(rows, e) == TagsOf(t, e) - {""}
  {
    var endpoint := t.endpoints[e];
    forall c, tag | c in CheckColumn(t, e) && tag in TagColumn(t, e)
      ensures EndpointRow(endpoint, c, tag) in rows
    {
      assert EndpointRow(endpoint, c, tag) in LeftJoin(t, ids);
      assert EndpointRow(endpoint, c, tag) in Elements(rows);
    }
    assert CheckColumn(t, e) != {} by {
      if c :| c in ChecksOf(t, e) {
        assert Some(c) in CheckColumn(t, e);
      }
    }
    var someCheck :| someCheck in CheckColumn(t, e);
    var someTag :| someTag in TagColumn(t, e);
    assert EndpointRow(endpoint, someCheck, someTag) in rows;
    forall r | r in rows && r.endpoint.id == e
      ensures r.check in CheckColumn(t, e) && r.tag in TagColumn(t, e)
    {
      assert r in Elements(rows);
      assert r in LeftJoin(t, ids);
    }
    forall c | c in ChecksOf(t, e)
      ensures c in ShownChecks(rows, e)
    {
      assert EndpointRow(endpoint, Some(c), someTag) in rows;
    }
    forall tag | tag in TagsOf(t, e) && tag != ""
      ensures tag in ShownTags(rows, e)
    {
      assert EndpointRow(endpoint, someCheck, tag) in rows;
    }
  }

  lemma JoinCovers(t: Tables, ids: set<int>, rows: seq<EndpointRow>)
    requires Valid(t) && Elements(rows) == LeftJoin(t, ids)
    ensures (set r | r in rows :: r.endpoint.id) == ids * t.endpoints.Keys
  {
    forall r | r in rows
      ensures r.endpoint.id in ids * t.endpoints.Keys && r.endpoint == t.endpoints[r.endpoint.id]
    {
      assert r in Elements(rows);
    }
    forall e | e in ids * t.endpoints.Keys
      ensures e in set r | r in rows :: r.endpoint.id
    {
      JoinShows(t, ids, rows, e);
    }
  }

  lemma GroupIsView(t: Tables, now: Time, ids: set<int>, rows: seq<EndpointRow>, d: EndpointDTO)
    requires Valid(t) && Elements(rows) == LeftJoin(t, ids)
    requires Groups(now, rows, d)
    ensures d.id in ids && IsView(t, now, d.id, d)
  {
    var r :| r in rows && SameFields(d, r.endpoint);
    assert r in Elements(rows);
    assert r in LeftJoin(t, ids);
    JoinShows(t, ids, rows, d.id);
  }

  /** What a view shows of check k: the stored row, but once a known state has not been refreshed for
      more than three periods, Unknown since that refresh. */
  lemma CheckIsShown(t: Tables, now: Time, e: int, d: EndpointDTO, k: int)
    requires Valid(t) && IsView(t, now, e, d) && k in t.checks && t.checks[k].endpointId == e
    ensures exists c :: c in d.checks && c.id == k
    ensures forall c :: c in d.checks && c.id == k ==>
              var row := t.checks[k];
              c == if row.state != EvalUnknown && now - row.stateCheck > 3 * row.frequency * SECOND
                   then row.(state := EvalUnknown, stateChange := row.stateCheck) else row
  {
    assert CheckKeyed(t, k) && t.checks[k] in ChecksOf(t, e);
    assert Scrutinize(now, t.checks[k]) in d.checks;
    forall c | c in d.checks && c.id == k
      ensures c == Scrutinize(now, t.checks[k])
    {
      var row :| row in ChecksOf(t, e) && c == Scrutinize(now, row);
      var l :| l in t.checks && row == t.checks[l];
      assert CheckKeyed(t, l);
    }
  }

  lemma TagIsStored(t: Tables, e: int, tag: string)
    requires Valid(t) && e in t.endpoints
    ensures tag in TagsOf(t, e) <==> EndpointTag(t.endpoints[e].orgId, e, tag) in t.endpointTags
  {
    if tag in TagsOf(t, e) {
      var r :| r in t.endpointTags && r.endpointId == e && r.tag == tag;
      assert r == EndpointTag(t.endpoints[e].orgId, e, tag);
    }
  }

  /** A view shows a check or a tag just when it is stored of the endpoint; the "" tag is not shown. */
  lemma ShownJustWhen(t: Tables, now: Time, e: int, d: EndpointDTO, k: int, tag: string)
    requires Valid(t) && IsView(t, now, e, d)
    ensures (exists c :: c in d.checks && c.id == k) <==> k in t.checks && t.checks[k].endpointId == e
    ensures tag in d.tags <==> tag != "" && EndpointTag(t.endpoints[e].orgId, e, tag) in t.endpointTags
  {
    if k in t.checks && t.checks[k].endpointId == e {
      CheckIsShown(t, now, e, d, k);
    }
    if c :| c in d.checks && c.id == k {
      var row :| row in ChecksOf(t, e) && c == Scrutinize(now, row);
      var l :| l in t.checks && row == t.checks[l];
      assert CheckKeyed(t, l);
    }
    assert tag in d.tags <==> tag in Elements(d.tags);
    TagIsStored(t, e, tag);
  }

  /** Whatever the order of the rows and of the maps: each selected endpoint comes back once,
      with exactly its checks and its tags. */
  method SelectEndpoints(db: Database, ids: set<int>) returns (endpoints: seq<EndpointDTO>)
    requires Valid(db.tables)
    ensures forall i, j :: 0 <= i < j < |endpoints| ==> endpoints[i].id != endpoints[j].id
    ensures EndpointIds(endpoints) == ids * db.tables.endpoints.Keys
    ensures forall d :: d in endpoints ==> IsView(db.tables, db.now, d.id, d)
  {
    var rows := QueryLeftJoin(db, ids);
    JoinIsConsistent(db.tables, ids, rows);
    endpoints := ToDTO(db.now, rows);
    JoinCovers(db.tables, ids, rows);
    forall d | d in endpoints
      ensures IsView(db.tables, db.now, d.id, d)
    {
      GroupIsView(db.tables, db.now, ids, rows, d);
    }
  }

  /** The filters of a listing; 0 and "" filter nothing. */
  datatype EndpointsQuery = EndpointsQuery(orgId: int, name: string, tag: string)

  /** like tells whether a name fits the pattern asked for. */
  predicate Matches(t: Tables, like: (string, string) -> bool, q: EndpointsQuery, e: int) {
    && e in t.endpoints
    && (q.orgId != 0 ==> t.endpoints[e].orgId == q.orgId)
    && (q.name != "" ==> like(t.endpoints[e].name, q.name))
    && (q.tag != "" ==> q.tag in TagsOf(t, e))
  }

  /** getEndpoints: exactly the endpoints that pass the filters, each once and as stored. The order
      the query asks for is lost in the regrouping. */
  method GetEndpoints(db: Database, like: (string, string) -> bool,
                      q: EndpointsQuery) returns (endpoints: seq<EndpointDTO>)
    requires Valid(db.tables)
    ensures forall i, j :: 0 <= i < j < |endpoints| ==> endpoints[i].id != endpoints[j].id
    ensures forall e :: e in EndpointIds(endpoints) <==>
              && e in db.tables.endpoints
              && (q.orgId == 0 || db.tables.endpoints[e].orgId == q.orgId)
              && (q.name == "" || like(db.tables.endpoints[e].name, q.name))
              && (q.tag == "" || EndpointTag(db.tables.endpoints[e].orgId, e, q.tag) in db.tables.endpointTags)
    ensures forall d :: d in endpoints ==> IsView(db.tables, db.now, d.id, d)
  {
    var selected := set e | e in db.tables.endpoints && Matches(db.tables, like, q, e);
    endpoints := SelectEndpoints(db, selected);
    forall e | e in db.tables.endpoints
      ensures q.tag in TagsOf(db.tables, e) <==>
                EndpointTag(db.tables.endpoints[e].orgId, e, q.tag) in db.tables.endpointTags
    {
      TagIsStored(db.tables, e, q.tag);
    }
  }

  /** The endpoint of the org, if there is one. */
  method FindEndpoint(db: Database, orgId: int, id: int) returns (r: Result<EndpointDTO>)
    requires Valid(db.tables)
    ensures r.Success? <==> id in db.tables.endpoints && db.tables.endpoints[id].orgId == orgId
    ensures r.Success? ==> IsView(db.tables, db.now, id, r.value)
    ensures r.Failure? ==> r.error == NotFound
  {
    var selected := set i | i in db.tables.endpoints && i == id && db.tables.endpoints[i].orgId == orgId;
    var endpoints := SelectEndpoints(db, selected);
    if |endpoints| == 0 {
      assert id !in EndpointIds(endpoints);
      return Failure(NotFound);
    }
    assert endpoints[0].id in EndpointIds(endpoints);
    r := Success(endpoints[0]);
  }

  /** All that a view shows. */
  lemma ShownExactly(t: Tables, now: Time, e: int, d: EndpointDTO)
    requires Valid(t) && IsView(t, now, e, d)
    ensures forall tag :: tag in d.tags <==> tag != "" && EndpointTag(t.endpoints[e].orgId, e, tag) in t.endpointTags
    ensures Ids(d.checks) == set k | k in t.checks && t.checks[k].endpointId == e
    ensures forall c :: c in d.checks ==>
              var row := t.checks[c.id];
              c == if row.state != EvalUnknown && now - row.stateCheck > 3 * row.frequency * SECOND
                   then row.(state := EvalUnknown, stateChange := row.stateCheck) else row
  {
    forall tag
      ensures tag in d.tags <==> tag != "" && EndpointTag(t.endpoints[e].orgId, e, tag) in t.endpointTags
    {
      ShownJustWhen(t, now, e, d, 0, tag);
    }
    forall k
      ensures k in Ids(d.checks) <==> k in t.checks && t.checks[k].endpointId == e
    {
      ShownJustWhen(t, now, e, d, k, "");
    }
    forall c | c in d.checks
      ensures var row := t.checks[c.id];
              c == if row.state != EvalUnknown && now - row.stateCheck > 3 * row.frequency * SECOND
                   then row.(state := EvalUnknown, stateChange := row.stateCheck) else row
    {
      CheckIsShown(t, now, e, d, c.id);
    }
  }

  /** getEndpointById: the stored columns, and of each check of the endpoint the stored row, Unknown since
      its last refresh when that is more than three periods ago. */
  method GetEndpointById(db: Database, orgId: int, id: int) returns (r: Result<EndpointDTO>)
    requires Valid(db.tables)
    ensures r.Success? <==> id in db.tables.endpoints && db.tables.endpoints[id].orgId == orgId
    ensures r.Success? ==> IsView(db.tables, db.now, id, r.value)
    ensures r.Success? ==>
              var d, row := r.value, db.tables.endpoints[id];
              && d.id == id && d.orgId == orgId && d.name == row.name && d.slug == row.slug
              && d.created == row.created && d.updated == row.updated
              && NoRepeats(d.tags) && forall tag :: tag in d.tags <==>
                                        tag != "" && EndpointTag(orgId, id, tag) in db.tables.endpointTags
    ensures r.Success? ==>
              && (forall i, j :: 0 <= i < j < |r.value.checks| ==> r.value.checks[i].id != r.value.checks[j].id)
              && Ids(r.value.checks) == (set k | k in db.tables.checks && db.tables.checks[k].endpointId == id)
              && (forall c :: c in r.value.checks ==>
                    var row := db.tables.checks[c.id];
                    c == if row.state != EvalUnknown && db.now - row.stateCheck > 3 * row.frequency * SECOND
                         then row.(state := EvalUnknown, stateChange := row.stateCheck) else row)
    ensures r.Failure? ==> r.error == NotFound
  {
    r := FindEndpoint(db, orgId, id);
    if r.Success? {
      ShownExactly(db.tables, db.now, id, r.value);
    }
  }
}
