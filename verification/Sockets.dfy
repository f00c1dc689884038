/** Refreshing the sockets of probes: one refresh at a time per socket, a bounded number from the
    periodic loop, and one per queued probe (sockets/probe.go, sockets/sockets.go). */
module Sockets {
  import opened Model
  import opened Database
  import opened ProbeStore

  // ---------------------------------------------------------------- one socket

  /** The flags of a socket, and how often its done channel has been closed. */
  datatype Flags = Flags(closed: bool, refreshing: bool, doneCloses: nat)

  /** The locked head of Refresh lets a caller in unless the socket is closed or being refreshed. */
  predicate Admits(s: Flags) {
    !s.closed && !s.refreshing
  }

  class ProbeSocket {
    const orgId: int
    const socketId: string
    var closed: bool
    var refreshing: bool
    var doneCloses: nat
    var lastRefresh: Time

    constructor (orgId: int, socketId: string)
      ensures State() == Flags(false, false, 0) && this.orgId == orgId && this.socketId == socketId
    {
      this.orgId, this.socketId := orgId, socketId;
      closed, refreshing, doneCloses, lastRefresh := false, false, 0, 0;
    }

    function State(): Flags
      reads this
    {
      Flags(closed, refreshing, doneCloses)
    }

    /** Refresh up to its unlocking: whether the body is entered. */
    method Enter(now: Time) returns (entered: bool)
      modifies this
      ensures entered <==> Admits(old(State()))
      ensures State() == if entered then old(State()).(refreshing := true) else old(State())
      ensures lastRefresh == if entered then now else old(lastRefresh)
    {
      if closed {
        return false;
      }
      var refreshInProgress := refreshing;
      if !refreshInProgress {
        refreshing := true;
        lastRefresh := now;
      }
      entered := !refreshInProgress;
    }

    /** The deferred end of Refresh. */
    method Leave()
      modifies this`refreshing
      ensures State() == old(State()).(refreshing := false)
    {
      refreshing := false;
    }

    /** The head of OnDisconnection: the done channel is closed the first time only. */
    method Close()
      modifies this`closed, this`doneCloses
      ensures State() == Disconnected(old(State()))
    {
      if !closed {
        closed := true;
        doneCloses := doneCloses + 1;
      }
    }

    /** The socket closes for good, leaves the cache, and its session row goes, which may take its
        probe offline. */
    method OnDisconnection(cache: Cache, db: Database, commits: bool)
      requires Sound(db.tables)
      modifies this`closed, this`doneCloses, cache`sockets, db
      ensures State() == Disconnected(old(State()))
      ensures cache.sockets == old(cache.sockets) - {socketId}
      ensures if commits then exists deleted ::
                SessionClosed(old(db.tables), db.tables, orgId, socketId, deleted, old(db.now), db.now)
              else db.tables == old(db.tables)
    {
      Close();
      cache.Remove(socketId);
      var _ := DeleteProbeSession(db, orgId, socketId, commits);
    }
  }

  function Disconnected(s: Flags): Flags {
    s.(closed := true, doneCloses := if s.closed then s.doneCloses else s.doneCloses + 1)
  }

  // ---------------------------------------------------------------- many callers, many sockets

  const LIMIT := 10

  /** Where a call of Refresh stands. */
  datatype Phase = Called | Refreshing | Returning

  datatype Call = Call(socket: int, fromLoop: bool, phase: Phase)

  /** The sockets, the calls under way, every call ever made, and the tokens taken from the limiter. */
  datatype World = World(sockets: map<int, Flags>, calls: map<int, Call>, made: set<int>, tokens: nat)

  datatype Action =
    | Spawn(call: int, socket: int)      // the loop takes a token and starts a goroutine
    | CallFromQueue(call: int, socket: int)
    | Begin(call: int)                   // the locked head of Refresh
    | End(call: int)                     // its deferred tail
    | Return(call: int)                  // the goroutine of the loop gives its token back
    | Connect(socket: int)
    | Disconnect(socket: int)

  predicate Enabled(w: World, a: Action) {
    match a
    case Spawn(c, s) => c !in w.made && s in w.sockets && w.tokens < LIMIT
    case CallFromQueue(c, s) => c !in w.made && s in w.sockets
    case Begin(c) => c in w.calls && w.calls[c].phase == Called && w.calls[c].socket in w.sockets
    case End(c) => c in w.calls && w.calls[c].phase == Refreshing && w.calls[c].socket in w.sockets
    case Return(c) => c in w.calls && w.calls[c].phase == Returning && (w.calls[c].fromLoop ==> w.tokens > 0)
    case Connect(s) => s !in w.sockets
    case Disconnect(s) => s in w.sockets
  }

  function Next(w: World, a: Action): World
    requires Enabled(w, a)
  {
    match a
    case Spawn(c, s) => w.(calls := w.calls[c := Call(s, true, Called)], made := w.made + {c}, tokens := w.tokens + 1)
    case CallFromQueue(c, s) => w.(calls := w.calls[c := Call(s, false, Called)], made := w.made + {c})
    case Begin(c) =>
      var call := w.calls[c];
      var flags := w.sockets[call.socket];
      if Admits(flags) then
        w.(sockets := w.sockets[call.socket := flags.(refreshing := true)],
            calls := w.calls[c := call.(phase := Refreshing)])
      else
        w.(calls := w.calls[c := call.(phase := Returning)])
    case End(c) =>
      var call := w.calls[c];
      w.(sockets := w.sockets[call.socket := w.sockets[call.socket].(refreshing := false)],
         calls := w.calls[c := call.(phase := Returning)])
    case Return(c) =>
      w.(calls := w.calls - {c}, tokens := if w.calls[c].fromLoop then w.tokens - 1 else w.tokens)
    case Connect(s) => w.(sockets := w.sockets[s := Flags(false, false, 0)])
    case Disconnect(s) => w.(sockets := w.sockets[s := Disconnected(w.sockets[s])])
  }

  /** The objects are the sockets of w. */
  ghost predicate Represents(objects: map<int, ProbeSocket>, w: World)
    reads objects.Values
  {
    && objects.Keys == w.sockets.Keys
    && (forall s :: s in objects ==> objects[s].State() == w.sockets[s])
    && forall s, r :: s in objects && r in objects && objects[s] == objects[r] ==> s == r
  }

  /** What a step does to the sockets is what the methods of ProbeSocket do. */
  method PerformAction(w: World, objects: map<int, ProbeSocket>, a: Action, now: Time, orgId: int, socketId: string)
    returns (v: World, left: map<int, ProbeSocket>)
    requires Represents(objects, w) && Enabled(w, a)
    modifies objects.Values
    ensures v == Next(w, a) && Represents(left, v)
    ensures forall s :: s in objects ==> s in left && left[s] == objects[s]
    ensures forall s :: s in left && s !in objects ==> fresh(left[s])
  {
    v, left := w, objects;
    match a
    case Spawn(c, s) =>
      v := w.(calls := w.calls[c := Call(s, true, Called)], made := w.made + {c}, tokens := w.tokens + 1);
    case CallFromQueue(c, s) =>
      v := w.(calls := w.calls[c := Call(s, false, Called)], made := w.made + {c});
    case Begin(c) =>
      var call := w.calls[c];
      var entered := objects[call.socket].Enter(now);
      v := w.(sockets := w.sockets[call.socket := objects[call.socket].State()],
              calls := w.calls[c := call.(phase := if entered then Refreshing else Returning)]);
      assert !entered ==> v.sockets == w.sockets;
    case End(c) =>
      var call := w.calls[c];
      objects[call.socket].Leave();
      v := w.(sockets := w.sockets[call.socket := objects[call.socket].State()],
              calls := w.calls[c := call.(phase := Returning)]);
    case Return(c) =>
      v := w.(calls := w.calls - {c}, tokens := if w.calls[c].fromLoop then w.tokens - 1 else w.tokens);
    case Connect(s) =>
      var socket := new ProbeSocket(orgId, socketId);
      left := objects[s := socket];
      v := w.(sockets := w.sockets[s := socket.State()]);
    case Disconnect(s) =>
      objects[s].Close();
      v := w.(sockets := w.sockets[s := objects[s].State()]);
  }

  /** Some interleaving of the callers leads from w to v. */
  ghost predicate Leads(w: World, actions: seq<Action>, v: World)
    decreases |actions|
  {
    if actions == [] then v == w
    else Enabled(w, actions[0]) && Leads(Next(w, actions[0]), actions[1..], v)
  }

  predicate Inside(w: World, c: int, s: int) {
    c in w.calls && w.calls[c] == Call(s, w.calls[c].fromLoop, Refreshing)
  }

  function LoopCalls(w: World): set<int> {
    set c | c in w.calls && w.calls[c].fromLoop
  }

  ghost predicate Exclusive(w: World) {
    && (forall c :: c in w.calls ==> c in w.made && w.calls[c].socket in w.sockets)
    && (forall c, d, s :: Inside(w, c, s) && Inside(w, d, s) ==> c == d)
    && (forall s :: s in w.sockets ==> (w.sockets[s].refreshing <==> exists c :: Inside(w, c, s)))
    && (forall s :: s in w.sockets ==> w.sockets[s].doneCloses == if w.sockets[s].closed then 1 else 0)
    && w.tokens == |LoopCalls(w)| && w.tokens <= LIMIT
  }

  ghost predicate Initial(w: World) {
    w.calls == map[] && w.tokens == 0 && forall s :: s in w.sockets ==> w.sockets[s] == Flags(false, false, 0)
  }

  /** Calls that are not inside keep who is inside. */
  lemma SameInside(w: World, v: World)
    requires Exclusive(w) && v.sockets == w.sockets
    requires forall c, s :: Inside(v, c, s) <==> Inside(w, c, s)
    requires forall c :: c in v.calls ==> c in v.made && v.calls[c].socket in v.sockets
    requires v.tokens == |LoopCalls(v)| <= LIMIT
    ensures Exclusive(v)
  {
  }

  lemma BeginKeepsExclusive(w: World, c: int)
    requires Exclusive(w) && Enabled(w, Begin(c))
    ensures Exclusive(Next(w, Begin(c)))
  {
    var v, s := Next(w, Begin(c)), w.calls[c].socket;
    assert LoopCalls(v) == LoopCalls(w);
    if Admits(w.sockets[s]) {
      assert Inside(v, c, s);
      forall d, q | d != c
        ensures Inside(v, d, q) <==> Inside(w, d, q)
      {
      }
      forall q | q in v.sockets && q != s
        ensures v.sockets[q].refreshing <==> exists d :: Inside(v, d, q)
      {
        if d :| Inside(w, d, q) {
          assert Inside(v, d, q);
        }
      }
    } else {
      assert forall d, q :: Inside(v, d, q) <==> Inside(w, d, q);
      SameInside(w, v);
    }
  }

  lemma EndKeepsExclusive(w: World, c: int)
    requires Exclusive(w) && Enabled(w, End(c))
    ensures Exclusive(Next(w, End(c)))
  {
    var v, s := Next(w, End(c)), w.calls[c].socket;
    assert LoopCalls(v) == LoopCalls(w);
    assert Inside(w, c, s);
    forall d, q
      ensures Inside(v, d, q) <==> Inside(w, d, q) && d != c
    {
    }
    forall q | q in v.sockets
      ensures v.sockets[q].refreshing <==> exists d :: Inside(v, d, q)
    {
      if q != s {
        if d :| Inside(w, d, q) {
          assert Inside(v, d, q);
        }
      }
    }
  }

  lemma CallKeepsExclusive(w: World, a: Action)
    requires Exclusive(w) && Enabled(w, a) && (a.Spawn? || a.CallFromQueue?)
    ensures Exclusive(Next(w, a))
  {
    var v, c := Next(w, a), a.call;
    assert c !in w.calls;
    if a.Spawn? {
      assert LoopCalls(v) == LoopCalls(w) + {c} && c !in LoopCalls(w);
    } else {
      assert LoopCalls(v) == LoopCalls(w);
    }
    forall d, q
      ensures Inside(v, d, q) <==> Inside(w, d, q)
    {
      assert d != c ==> (d in v.calls <==> d in w.calls);
    }
    SameInside(w, v);
  }

  lemma ReturnKeepsExclusive(w: World, c: int)
    requires Exclusive(w) && Enabled(w, Return(c))
    ensures Exclusive(Next(w, Return(c)))
  {
    var v := Next(w, Return(c));
    assert LoopCalls(v) == LoopCalls(w) - {c};
    assert forall d, q :: Inside(v, d, q) <==> Inside(w, d, q);
    SameInside(w, v);
  }

  lemma DisconnectKeepsExclusive(w: World, s: int)
    requires Exclusive(w) && Enabled(w, Disconnect(s))
    ensures Exclusive(Next(w, Disconnect(s)))
  {
    var v := Next(w, Disconnect(s));
    assert LoopCalls(v) == LoopCalls(w);
    assert forall d, q :: Inside(v, d, q) <==> Inside(w, d, q);
    forall q | q in v.sockets
      ensures v.sockets[q].refreshing <==> exists d :: Inside(v, d, q)
    {
      if d :| Inside(w, d, q) {
        assert Inside(v, d, q);
      }
    }
  }

  lemma ConnectKeepsExclusive(w: World, s: int)
    requires Exclusive(w) && Enabled(w, Connect(s))
    ensures Exclusive(Next(w, Connect(s)))
  {
    var v := Next(w, Connect(s));
    assert LoopCalls(v) == LoopCalls(w);
    assert forall d, q :: Inside(v, d, q) <==> Inside(w, d, q);
    forall q | q in v.sockets
      ensures v.sockets[q].refreshing <==> exists d :: Inside(v, d, q)
    {
      if d :| Inside(w, d, q) {
        assert Inside(v, d, q) && w.calls[d].socket == q;
      }
    }
  }

  lemma NextKeepsExclusive(w: World, a: Action)
    requires Exclusive(w) && Enabled(w, a)
    ensures Exclusive(Next(w, a))
  {
    match a
    case Spawn(_, _) => CallKeepsExclusive(w, a);
    case CallFromQueue(_, _) => CallKeepsExclusive(w, a);
    case Begin(c) => BeginKeepsExclusive(w, c);
    case End(c) => EndKeepsExclusive(w, c);
    case Return(c) => ReturnKeepsExclusive(w, c);
    case Connect(s) => ConnectKeepsExclusive(w, s);
    case Disconnect(s) => DisconnectKeepsExclusive(w, s);
  }

  /** Under every interleaving: at most one refresh runs per socket, a done channel is closed exactly
      once when its socket is closed, and the loop has at most ten refreshes under way. */
  lemma {:induction false} RefreshesExclude(w: World, actions: seq<Action>, v: World)
    requires Exclusive(w) && Leads(w, actions, v)
    ensures Exclusive(v)
    decreases |actions|
  {
    if actions != [] {
      NextKeepsExclusive(w, actions[0]);
      RefreshesExclude(Next(w, actions[0]), actions[1..], v);
    }
  }

  lemma FromTheStart(w: World, actions: seq<Action>, v: World)
    requires Initial(w) && Leads(w, actions, v)
    ensures forall c, d, s :: Inside(v, c, s) && Inside(v, d, s) ==> c == d
    ensures forall s :: s in v.sockets ==> v.sockets[s].doneCloses <= 1
    ensures |set c | c in v.calls && v.calls[c].fromLoop && v.calls[c].phase == Refreshing| <= 10
    ensures forall c, s :: c !in v.made && s in v.sockets ==>
              (Enabled(v, Spawn(c, s)) <==> |set d | d in v.calls && v.calls[d].fromLoop| < 10)
    ensures forall c :: c in v.calls && v.calls[c].phase == Called ==>
              var s := v.calls[c].socket;
              && Enabled(v, Begin(c))
              && (Inside(Next(v, Begin(c)), c, s) <==> !v.sockets[s].closed && forall d :: !Inside(v, d, s))
  {
    assert LoopCalls(w) == {};
    RefreshesExclude(w, actions, v);
    var inside := set c | c in v.calls && v.calls[c].fromLoop && v.calls[c].phase == Refreshing;
    assert LoopCalls(v) == inside + (LoopCalls(v) - inside);
    assert LoopCalls(v) == set d | d in v.calls && v.calls[d].fromLoop;
  }

  /** Once a socket is disconnected it stays so, and no refresh of it starts: whoever is inside later
      was inside already. */
  lemma {:induction false} NoneStartsAfterDisconnection(w: World, actions: seq<Action>, v: World, s: int)
    requires Exclusive(w) && Leads(w, actions, v)
    requires s in w.sockets && w.sockets[s].closed
    ensures s in v.sockets && v.sockets[s].closed
    ensures forall c :: Inside(v, c, s) ==> Inside(w, c, s)
    decreases |actions|
  {
    if actions != [] {
      var u := Next(w, actions[0]);
      NextKeepsExclusive(w, actions[0]);
      forall c | Inside(u, c, s)
        ensures Inside(w, c, s)
      {
      }
      NoneStartsAfterDisconnection(u, actions[1..], v, s);
    }
  }

  // ---------------------------------------------------------------- the queue of requested refreshes

  class Cache {
    var sockets: map<string, int>    // socket id to the id of its probe
    var buffer: seq<int>             // the probes whose refresh was asked for since the last tick

    constructor ()
      ensures sockets == map[] && buffer == []
    {
      sockets, buffer := map[], [];
    }

    method Set(id: string, probe: int)
      modifies this`sockets
      ensures sockets == old(sockets)[id := probe]
    {
      sockets := sockets[id := probe];
    }

    method Remove(id: string)
      modifies this`sockets
      ensures sockets == old(sockets) - {id}
    {
      sockets := sockets - {id};
    }

    method Queue(probe: int)
      modifies this`buffer
      ensures buffer == old(buffer) + [probe]
    {
      buffer := buffer + [probe];
    }

    /** The local sockets of a probe, each once. */
    method SocketsOf(probe: int) returns (list: seq<string>)
      ensures NoRepeats(list) && forall id :: id in list <==> id in sockets && sockets[id] == probe
    {
      list := [];
      var rest := sockets.Keys;
      while rest != {}
        invariant rest <= sockets.Keys && NoRepeats(list)
        invariant forall id :: id in list <==> id in sockets.Keys - rest && sockets[id] == probe
        decreases rest
      {
        var id := Pick(rest);
        rest := rest - {id};
        if sockets[id] == probe {
          list := list + [id];
        }
      }
    }

    /** A tick of refreshQueue: every local socket of a probe in the buffer is refreshed once,
        however often the probe was queued; no other socket is; the buffer is emptied. */
    method OnTick() returns (refreshed: seq<string>)
      modifies this`buffer
      ensures buffer == []
      ensures NoRepeats(refreshed)
      ensures forall id :: id in refreshed <==> id in sockets && sockets[id] in old(buffer)
    {
      refreshed := [];
      if |buffer| == 0 {
        return;
      }
      var ids: set<int> := {};
      for i := 0 to |buffer|
        invariant ids == Elements(buffer[..i])
      {
        assert buffer[..i + 1] == buffer[..i] + [buffer[i]];
        ids := ids + {buffer[i]};
      }
      assert buffer[..|buffer|] == buffer;
      var rest := ids;
      while rest != {}
        invariant rest <= ids && NoRepeats(refreshed)
        invariant forall id :: id in refreshed <==> id in sockets && sockets[id] in ids - rest
        decreases rest
      {
        var probe := Pick(rest);
        rest := rest - {probe};
        var list := SocketsOf(probe);
        JoinDistinct(refreshed, list);
        refreshed := refreshed + list;
      }
      buffer := [];
    }
  }

  // ---------------------------------------------------------------- what a cache is asked

  datatype Request = Connected(id: string, probe: int) | Dropped(id: string) | Refresh(probe: int) | Tick

  datatype Cached = Cached(sockets: map<string, int>, buffer: seq<int>)

  function After(c: Cached, r: Request): Cached {
    match r
    case Connected(id, probe) => c.(sockets := c.sockets[id := probe])
    case Dropped(id) => c.(sockets := c.sockets - {id})
    case Refresh(probe) => c.(buffer := c.buffer + [probe])
    case Tick => c.(buffer := [])
  }

  function AfterAll(c: Cached, requests: seq<Request>): Cached {
    if requests == [] then c else After(AfterAll(c, requests[..|requests| - 1]), requests[|requests| - 1])
  }

  /** Probe p was queued, and no tick has come since. */
  ghost predicate QueuedSinceTick(requests: seq<Request>, p: int) {
    exists i :: 0 <= i < |requests| && requests[i] == Refresh(p) && Tick !in requests[i..]
  }

  lemma QueuedMore(requests: seq<Request>, r: Request, p: int)
    ensures QueuedSinceTick(requests + [r], p) <==> r == Refresh(p) || (r != Tick && QueuedSinceTick(requests, p))
  {
    var more := requests + [r];
    if i :| 0 <= i < |requests| && requests[i] == Refresh(p) && Tick !in requests[i..] {
      assert more[i..] == requests[i..] + [r] && more[i] == requests[i];
    }
    if r == Refresh(p) {
      assert more[|requests|] == r && more[|requests|..] == [r];
    }
    if i :| 0 <= i < |more| && more[i] == Refresh(p) && Tick !in more[i..] {
      assert more[|more| - 1] in more[i..];
      if i < |requests| {
        assert more[i..] == requests[i..] + [r];
      }
    }
  }

  /** The buffer of a cache that started with an empty one holds what was queued since the last tick. */
  lemma {:induction false} BufferIsWhatWasQueued(c: Cached, requests: seq<Request>, p: int)
    requires c.buffer == []
    ensures p in AfterAll(c, requests).buffer <==> QueuedSinceTick(requests, p)
  {
    if requests != [] {
      var front, last := requests[..|requests| - 1], requests[|requests| - 1];
      assert requests == front + [last];
      BufferIsWhatWasQueued(c, front, p);
      QueuedMore(front, last, p);
    }
  }

  /** Any requests to a cache with an empty buffer: each tick refreshes, once, every local socket of the
      probes queued since the tick before it, and nothing else is refreshed. */
  method Serve(cache: Cache, requests: seq<Request>) returns (refreshed: seq<seq<string>>)
    requires cache.buffer == []
    modifies cache
    ensures Cached(cache.sockets, cache.buffer) == AfterAll(Cached(old(cache.sockets), []), requests)
    ensures |refreshed| == |requests|
    ensures forall i :: 0 <= i < |requests| ==> NoRepeats(refreshed[i])
    ensures forall i, id :: 0 <= i < |requests| ==>
              (id in refreshed[i] <==>
               && requests[i] == Tick
               && var now := AfterAll(Cached(old(cache.sockets), []), requests[..i]).sockets;
                  id in now && QueuedSinceTick(requests[..i], now[id]))
  {
    ghost var c := Cached(cache.sockets, []);
    refreshed := [];
    for i := 0 to |requests|
      invariant |refreshed| == i && Cached(cache.sockets, cache.buffer) == AfterAll(c, requests[..i])
      invariant forall j :: 0 <= j < i ==> NoRepeats(refreshed[j])
      invariant forall j, id :: 0 <= j < i ==>
                  (id in refreshed[j] <==>
                   && requests[j] == Tick
                   && id in AfterAll(c, requests[..j]).sockets
                   && QueuedSinceTick(requests[..j], AfterAll(c, requests[..j]).sockets[id]))
    {
      assert requests[..i + 1][..i] == requests[..i];
      ghost var now := AfterAll(c, requests[..i]).sockets;
      forall id | id in now
        ensures now[id] in cache.buffer <==> QueuedSinceTick(requests[..i], now[id])
      {
        BufferIsWhatWasQueued(c, requests[..i], now[id]);
      }
      var list := [];
      match requests[i] {
        case Connected(id, probe) => cache.Set(id, probe);
        case Dropped(id) => cache.Remove(id);
        case Refresh(probe) => cache.Queue(probe);
        case Tick => list := cache.OnTick();
      }
      refreshed := refreshed + [list];
    }
    assert requests[..|requests|] == requests;
  }

  lemma JoinDistinct(a: seq<string>, b: seq<string>)
    requires NoRepeats(a) && NoRepeats(b) && forall x :: x in a ==> x !in b
    ensures NoRepeats(a + b)
  {
    var c := a + b;
    forall i, j | 0 <= i < j < |c|
      ensures c[i] != c[j]
    {
      if i < |a| && |a| <= j {
        assert c[i] in a && c[j] in b;
      }
    }
  }
}
