/** The dispatcher that turns the passing of time into alerting jobs (schedule.go). */
module Schedule {
  import opened Model
  import opened Database
  import opened Executor

  // ---------------------------------------------------------------- which checks are due at a second

  predicate DueAt(t: Tables, k: int, ts: int) {
    k in t.checks && t.checks[k].enabled && ts % t.checks[k].frequency == t.checks[k].offset
  }

  /** A row of getChecksForAlerts; the slice it fills starts with ten blank rows. */
  datatype AlertRow = AlertRow(checkId: int, frequency: int, health: Option<HealthSettings>, state: EvalResult,
      stateCheck: Time)

  const BLANK_ROW := AlertRow(0, 0, None, EvalOk, 0)

  function RowOf(c: Check): AlertRow {
    AlertRow(c.id, c.frequency, c.health, c.state, c.stateCheck)
  }

  /** The rows of the checks that are due, in any order. */
  method DueRows(db: Database, ts: int) returns (found: seq<AlertRow>)
    requires Valid(db.tables)
    ensures forall r :: r in found ==>
              DueAt(db.tables, r.checkId, ts) && r == RowOf(db.tables.checks[r.checkId])
    ensures forall k :: DueAt(db.tables, k, ts) ==> RowOf(db.tables.checks[k]) in found && db.tables.checks[k].id == k
    ensures forall i, j :: 0 <= i < j < |found| ==> found[i].checkId != found[j].checkId
  {
    found := [];
    var due := set k | k in db.tables.checks && DueAt(db.tables, k, ts);
    var rest := due;
    while rest != {}
      invariant rest <= due
      invariant forall r :: r in found ==> r.checkId in due - rest && r == RowOf(db.tables.checks[r.checkId])
      invariant forall k :: k in due - rest ==> RowOf(db.tables.checks[k]) in found && db.tables.checks[k].id == k
      invariant forall i, j :: 0 <= i < j < |found| ==> found[i].checkId != found[j].checkId
      decreases rest
    {
      var k := Pick(rest);
      assert CheckKeyed(db.tables, k);
      rest := rest - {k};
      found := found + [RowOf(db.tables.checks[k])];
    }
  }

  /** getChecksForAlerts: ten blank rows, and then one row for each check that is due. */
  method GetChecksForAlerts(db: Database, ts: int) returns (rows: seq<AlertRow>)
    requires Valid(db.tables)
    ensures |rows| >= 10 && forall i :: 0 <= i < 10 ==> rows[i] == BLANK_ROW
    ensures forall i :: 10 <= i < |rows| ==>
              DueAt(db.tables, rows[i].checkId, ts) && rows[i] == RowOf(db.tables.checks[rows[i].checkId])
    ensures forall k :: DueAt(db.tables, k, ts) ==> RowOf(db.tables.checks[k]) in rows[10..]
    ensures forall i, j :: 10 <= i < j < |rows| ==> rows[i].checkId != rows[j].checkId
    ensures forall k :: (exists i :: 10 <= i < |rows| && rows[i].checkId == k) <==>
              && k in db.tables.checks && db.tables.checks[k].enabled
              && ts % db.tables.checks[k].frequency == db.tables.checks[k].endpointId % db.tables.checks[k].frequency
    ensures forall i :: 10 <= i < |rows| ==>
              var c := db.tables.checks[rows[i].checkId];
              rows[i] == AlertRow(c.id, c.frequency, c.health, c.state, c.stateCheck)
  {
    var blanks := seq(10, _ => BLANK_ROW);
    var found := DueRows(db, ts);
    rows := blanks + found;
    assert rows[10..] == found;
    forall k
      ensures (exists i :: 10 <= i < |rows| && rows[i].checkId == k) <==> DueAt(db.tables, k, ts)
    {
      if DueAt(db.tables, k, ts) {
        var i :| 0 <= i < |found| && found[i].checkId == k;
        assert rows[i + 10].checkId == k;
      }
    }
    assert forall k :: k in db.tables.checks ==> CheckKeyed(db.tables, k);
  }

  /** The settings that make a check fit for alerting. */
  predicate Alertable(health: Option<HealthSettings>) {
    health.Some? && health.value.steps != 0 && health.value.numProbes != 0
  }

  function TaskOf(c: Check, generatedAt: Time, ts: int): Task
    requires c.health.Some?
  {
    Task(c.id, c.frequency, c.health.value, c.state, c.stateCheck, generatedAt, ts)
  }

  /** j carries the row of an alertable check that is due at ts. */
  ghost predicate IsDueTask(t: Tables, ts: int, j: Task) {
    && DueAt(t, j.checkId, ts) && Alertable(t.checks[j.checkId].health)
    && j == TaskOf(t.checks[j.checkId], j.generatedAt, j.lastPointTs)
  }

  /** At second ts a job is wanted for check k: it is enabled, the second is in phase with its endpoint,
      and its settings are there and count at least one step and one probe. */
  ghost predicate Wanted(t: Tables, k: int, ts: int) {
    && k in t.checks
    && var c := t.checks[k];
       && c.enabled && ts % c.frequency == c.endpointId % c.frequency
       && c.health.Some? && c.health.value.steps != 0 && c.health.value.numProbes != 0
  }

  /** The job carries the columns of the check. */
  ghost predicate Carries(j: Task, c: Check) {
    && j.checkId == c.id && j.frequency == c.frequency && c.health == Some(j.health)
    && j.state == c.state && j.stateCheck == c.stateCheck
  }

  /** What is due and fit for alerting is what is wanted. */
  lemma WantedJustWhen(t: Tables, k: int, ts: int)
    requires Valid(t)
    ensures DueAt(t, k, ts) && Alertable(t.checks[k].health) <==> Wanted(t, k, ts)
    ensures Wanted(t, k, ts) ==> Carries(TaskOf(t.checks[k], 0, 0), t.checks[k]) && t.checks[k].id == k
  {
    if k in t.checks {
      assert CheckKeyed(t, k);
    }
  }

  /** One job for each alertable check that is due, and none for the blank rows; they are not stamped yet. */
  method GetJobs(db: Database, ts: int) returns (jobs: seq<Task>)
    requires Valid(db.tables)
    ensures forall k :: DueAt(db.tables, k, ts) && Alertable(db.tables.checks[k].health) ==>
              TaskOf(db.tables.checks[k], 0, 0) in jobs
    ensures forall j :: j in jobs ==> IsDueTask(db.tables, ts, j) && j.generatedAt == 0 && j.lastPointTs == 0
    ensures forall a, b :: 0 <= a < b < |jobs| ==> jobs[a].checkId != jobs[b].checkId
    ensures forall k :: (exists j :: j in jobs && j.checkId == k) <==> Wanted(db.tables, k, ts)
    ensures forall j :: j in jobs ==> j.checkId in db.tables.checks && Carries(j, db.tables.checks[j.checkId])
  {
    var rows := GetChecksForAlerts(db, ts);
    jobs := [];
    ghost var seen: set<int> := {};
    for i := 0 to |rows|
      invariant forall n :: 10 <= n < i ==> rows[n].checkId in seen
      invariant forall n :: 10 <= n < |rows| && i <= n ==> rows[n].checkId !in seen
      invariant forall j :: j in jobs ==>
                  IsDueTask(db.tables, ts, j) && j.generatedAt == 0 && j.lastPointTs == 0 && j.checkId in seen
      invariant forall n :: 10 <= n < i && Alertable(rows[n].health) ==>
                  TaskOf(db.tables.checks[rows[n].checkId], 0, 0) in jobs
      invariant forall a, b :: 0 <= a < b < |jobs| ==> jobs[a].checkId != jobs[b].checkId
    {
      var row := rows[i];
      if 10 <= i {
        assert CheckKeyed(db.tables, row.checkId);
        seen := seen + {row.checkId};
      }
      if row.health.None? {
        continue;
      }
      if row.frequency == 0 || row.health.value.steps == 0 || row.health.value.numProbes == 0 {
        continue;
      }
      jobs := jobs + [Task(row.checkId, row.frequency, row.health.value, row.state, row.stateCheck, 0, 0)];
    }
    forall k | DueAt(db.tables, k, ts) && Alertable(db.tables.checks[k].health)
      ensures TaskOf(db.tables.checks[k], 0, 0) in jobs
    {
      assert CheckKeyed(db.tables, k);
      var n :| 0 <= n < |rows[10..]| && rows[10..][n] == RowOf(db.tables.checks[k]);
      assert rows[n + 10].checkId == k;
    }
    JobsAreWanted(db.tables, ts, jobs);
  }

  lemma JobsAreWanted(t: Tables, ts: int, jobs: seq<Task>)
    requires Valid(t)
    requires forall k :: DueAt(t, k, ts) && Alertable(t.checks[k].health) ==> TaskOf(t.checks[k], 0, 0) in jobs
    requires forall j :: j in jobs ==> IsDueTask(t, ts, j)
    ensures forall k :: (exists j :: j in jobs && j.checkId == k) <==> Wanted(t, k, ts)
    ensures forall j :: j in jobs ==> j.checkId in t.checks && Carries(j, t.checks[j.checkId])
  {
    forall k
      ensures (exists j :: j in jobs && j.checkId == k) <==> Wanted(t, k, ts)
    {
      WantedJustWhen(t, k, ts);
      if Wanted(t, k, ts) {
        assert TaskOf(t.checks[k], 0, 0).checkId == k;
      }
    }
    forall j | j in jobs
      ensures j.checkId in t.checks && Carries(j, t.checks[j.checkId])
    {
      WantedJustWhen(t, j.checkId, ts);
    }
  }

  // ---------------------------------------------------------------- the dispatch loop

  function Range(lo: int, hi: int): seq<int>
    decreases hi - lo
  {
    if lo >= hi then [] else Range(lo, hi - 1) + [hi - 1]
  }

  lemma {:induction false} RangeElements(lo: int, hi: int)
    ensures lo <= hi ==> |Range(lo, hi)| == hi - lo
    ensures forall i :: 0 <= i < |Range(lo, hi)| ==> Range(lo, hi)[i] == lo + i
    decreases hi - lo
  {
    if lo < hi {
      RangeElements(lo, hi - 1);
    }
  }

  lemma {:induction false} RangeJoin(lo: int, mid: int, hi: int)
    requires lo <= mid <= hi
    ensures Range(lo, hi) == Range(lo, mid) + Range(mid, hi)
    decreases hi - mid
  {
    if mid < hi {
      RangeJoin(lo, mid, hi - 1);
    }
  }

  function StampedTask(job: Task, stamp: Task, ts: int): Task {
    job.(generatedAt := stamp.generatedAt, lastPointTs := ts)
  }

  /** after is before with the jobs appended, stamped for second ts. */
  ghost predicate StampedOnto(jobs: seq<Task>, before: seq<Task>, after: seq<Task>, ts: int) {
    && |after| == |before| + |jobs| && after[..|before|] == before
    && forall i :: |before| <= i < |after| ==> after[i] == StampedTask(jobs[i - |before|], after[i], ts)
  }

  ghost predicate DistinctJobs(queue: seq<Task>) {
    forall i, j :: 0 <= i < j < |queue| ==>
      Key(queue[i].checkId, queue[i].lastPointTs) != Key(queue[j].checkId, queue[j].lastPointTs)
  }

  ghost predicate JobsWithin(queue: seq<Task>, lo: int, hi: int) {
    forall i :: 0 <= i < |queue| ==> lo <= queue[i].lastPointTs < hi
  }

  /** The jobs from position n on were stamped between two readings of the clock. */
  ghost predicate StampedBetween(queue: seq<Task>, n: nat, from: Time, to: Time) {
    forall i :: n <= i < |queue| ==> from <= queue[i].generatedAt <= to
  }

  /** The jobs of one more second collide with none of the earlier seconds, nor among themselves. */
  lemma NewJobsAreNew(jobs: seq<Task>, before: seq<Task>, after: seq<Task>, start: int, ts: int)
    requires StampedOnto(jobs, before, after, ts) && DistinctJobs(before) && start <= ts
    requires JobsWithin(before, start, ts)
    requires forall a, b :: 0 <= a < b < |jobs| ==> jobs[a].checkId != jobs[b].checkId
    ensures DistinctJobs(after)
    ensures JobsWithin(after, start, ts + 1)
  {
  }

  /** Each second of [start, next) was asked about once, in order, and of a store in order. */
  ghost predicate TimeCovered(queried: seq<int>, asked: map<int, Tables>, start: int, next: int) {
    && start <= next && queried == Range(start, next)
    && (forall ts :: ts in asked <==> start <= ts < next)
    && forall ts :: ts in asked ==> Valid(asked[ts])
  }

  lemma TimeMovesOn(queried: seq<int>, asked: map<int, Tables>, start: int, next: int, t: Tables)
    requires TimeCovered(queried, asked, start, next) && Valid(t)
    ensures TimeCovered(queried + [next], asked[next := t], start, next + 1)
  {
  }

  /** What one second adds to the queue. */
  ghost predicate SecondQueued(t: Tables, failing: set<int>, before: seq<Task>, after: seq<Task>, ts: int) {
    && (ts in failing ==> after == before)
    && (ts !in failing ==> exists jobs :: JobsOfSecond(t, jobs, ts) && StampedOnto(jobs, before, after, ts))
  }

  ghost predicate JobsOfSecond(t: Tables, jobs: seq<Task>, ts: int) {
    && (forall k :: DueAt(t, k, ts) && Alertable(t.checks[k].health) ==> TaskOf(t.checks[k], 0, 0) in jobs)
    && (forall j :: j in jobs ==> IsDueTask(t, ts, j))
    && (forall a, b :: 0 <= a < b < |jobs| ==> jobs[a].checkId != jobs[b].checkId)
  }

  lemma SecondIsQueued(t: Tables, asked: map<int, Tables>, failing: set<int>, before: seq<Task>, after: seq<Task>,
                       start: int, ts: int)
    requires Valid(t) && ts in asked && asked[ts] == t && SecondQueued(t, failing, before, after, ts) && start <= ts
    requires DistinctJobs(before) && JobsWithin(before, start, ts)
    ensures DistinctJobs(after) && JobsWithin(after, start, ts + 1) && |before| <= |after|
    ensures after[..|before|] == before
    ensures Queued(after, asked, failing, |before|, ts, ts + 1)
  {
    if ts !in failing {
      var jobs :| JobsOfSecond(t, jobs, ts) && StampedOnto(jobs, before, after, ts);
      NewJobsAreNew(jobs, before, after, start, ts);
      NewJobsAreDue(t, asked, failing, jobs, before, after, ts);
    }
  }

  /** The jobs from position n on are the due jobs of the seconds in [lo, hi): every alertable check
      that is due at a second whose query succeeds, in the store that was asked, and nothing else. */
  ghost predicate Queued(queue: seq<Task>, asked: map<int, Tables>, failing: set<int>, n: nat, lo: int, hi: int) {
    && n <= |queue| && (forall ts :: lo <= ts < hi ==> ts in asked)
    && (forall ts, k ::
           lo <= ts < hi && ts !in failing && DueAt(asked[ts], k, ts) && Alertable(asked[ts].checks[k].health) ==>
          exists i :: n <= i < |queue| && queue[i].checkId == k && queue[i].lastPointTs == ts)
    && (forall i :: n <= i < |queue| ==>
          && lo <= queue[i].lastPointTs < hi && queue[i].lastPointTs !in failing
          && IsDueTask(asked[queue[i].lastPointTs], queue[i].lastPointTs, queue[i]))
  }

  /** The jobs of one second, stamped as they were queued. */
  lemma NewJobsAreDue(t: Tables, asked: map<int, Tables>, failing: set<int>, jobs: seq<Task>, before: seq<Task>,
                      after: seq<Task>, ts: int)
    requires Valid(t) && ts in asked && asked[ts] == t && StampedOnto(jobs, before, after, ts) && ts !in failing
    requires JobsOfSecond(t, jobs, ts)
    ensures Queued(after, asked, failing, |before|, ts, ts + 1)
  {
    forall i | |before| <= i < |after|
      ensures after[i].lastPointTs == ts && IsDueTask(t, ts, after[i])
    {
      assert after[i] == StampedTask(jobs[i - |before|], after[i], ts) && jobs[i - |before|] in jobs;
    }
    forall k | DueAt(t, k, ts) && Alertable(t.checks[k].health)
      ensures exists i :: |before| <= i < |after| && after[i].checkId == k && after[i].lastPointTs == ts
    {
      assert CheckKeyed(t, k);
      var n :| 0 <= n < |jobs| && jobs[n] == TaskOf(t.checks[k], 0, 0);
      assert after[|before| + n].checkId == k;
    }
  }

  /** Two stretches of time that follow each other. */
  lemma QueuedJoin(before: seq<Task>, after: seq<Task>, was: map<int, Tables>, asked: map<int, Tables>,
                   failing: set<int>, n: nat, lo: int, mid: int, hi: int)
    requires Queued(before, was, failing, n, lo, mid) && Queued(after, asked, failing, |before|, mid, hi)
    requires lo <= mid <= hi
    requires after[..|before|] == before && forall ts :: ts in was ==> ts in asked && asked[ts] == was[ts]
    ensures Queued(after, asked, failing, n, lo, hi)
  {
    assert forall i :: 0 <= i < |before| ==> after[i] == before[i];
    forall ts, k | lo <= ts < hi && ts !in failing && DueAt(asked[ts], k, ts) && Alertable(asked[ts].checks[k].health)
      ensures exists i :: n <= i < |after| && after[i].checkId == k && after[i].lastPointTs == ts
    {
      if ts < mid {
        assert ts in was && DueAt(was[ts], k, ts);
        var i :| n <= i < |before| && before[i].checkId == k && before[i].lastPointTs == ts;
        assert after[i] == before[i];
      } else {
        var i :| |before| <= i < |after| && after[i].checkId == k && after[i].lastPointTs == ts;
      }
    }
  }

  /** Of the seconds processed: a check has a job for a second whose query succeeded exactly when one was
      wanted then, and the job carries the columns the check had; a disabled check has none. */
  lemma QueuedJustWhenWanted(queue: seq<Task>, asked: map<int, Tables>, failing: set<int>, n: nat, lo: int, hi: int)
    requires Queued(queue, asked, failing, n, lo, hi)
    requires forall ts :: lo <= ts < hi ==> Valid(asked[ts])
    ensures forall i :: n <= i < |queue| ==>
              var ts, k := queue[i].lastPointTs, queue[i].checkId;
              lo <= ts < hi && ts !in failing && Wanted(asked[ts], k, ts) && Carries(queue[i], asked[ts].checks[k])
    ensures forall ts, k :: lo <= ts < hi && ts !in failing && Wanted(asked[ts], k, ts) ==>
              exists i :: n <= i < |queue| && queue[i].checkId == k && queue[i].lastPointTs == ts
  {
    forall i | n <= i < |queue|
      ensures Wanted(asked[queue[i].lastPointTs], queue[i].checkId, queue[i].lastPointTs)
      ensures Carries(queue[i], asked[queue[i].lastPointTs].checks[queue[i].checkId])
    {
      WantedJustWhen(asked[queue[i].lastPointTs], queue[i].checkId, queue[i].lastPointTs);
    }
    forall ts, k | lo <= ts < hi && ts !in failing && Wanted(asked[ts], k, ts)
      ensures exists i :: n <= i < |queue| && queue[i].checkId == k && queue[i].lastPointTs == ts
    {
      WantedJustWhen(asked[ts], k, ts);
    }
  }

  /** What the dispatcher is told, and what others do to the store between two ticks. */
  datatype Signal = Tick(at: int) | NewOffset(offset: int) | StoreBecomes(tables: Tables)

  class Dispatcher {
    const start: int
    var next: int
    var offset: int
    var queried: seq<int>               // the seconds asked about, in order
    var queue: seq<Task>                // the jobs queued, in order
    ghost var asked: map<int, Tables>   // the store each second was asked of

    constructor (now: int, offset: int)
      ensures next == start == now - offset && this.offset == offset
      ensures Covers()
    {
      start := now - offset;
      next := now - offset;
      this.offset := offset;
      queried := [];
      queue := [];
      asked := map[];
    }

    /** Time has been covered without gap or repetition since the start, and no job was queued twice. */
    ghost predicate Covers()
      reads this
    {
      TimeCovered(queried, asked, start, next) && JobsWithin(queue, start, next) && DistinctJobs(queue)
    }

    /** Everything queued and asked before is still there. */
    twostate predicate Extends()
      reads this
    {
      && |old(queue)| <= |queue| && queue[..|old(queue)|] == old(queue)
      && forall ts :: ts in old(asked) ==> ts in asked && asked[ts] == old(asked)[ts]
    }

    /** One second of the ticker. A second whose query fails is passed over for good. */
    method OnTick(db: Database, lastPointAt: int, failing: set<int>)
      requires Covers() && Valid(db.tables)
      modifies this, db`now
      ensures Covers() && Extends() && offset == old(offset)
      ensures next == if old(next) <= lastPointAt - offset then lastPointAt - offset + 1 else old(next)
      ensures queried == old(queried) + Range(old(next), next)
      ensures forall ts :: ts in Range(old(next), next) ==> ts <= lastPointAt - offset
      ensures forall ts :: old(next) <= ts < next ==> asked[ts] == db.tables
      ensures Queued(queue, asked, failing, |old(queue)|, old(next), next)
      ensures forall i :: |old(queue)| <= i < |queue| ==>
                var ts, k := queue[i].lastPointTs, queue[i].checkId;
                Wanted(db.tables, k, ts) && Carries(queue[i], db.tables.checks[k])
      ensures forall ts, k :: old(next) <= ts < next && ts !in failing && Wanted(db.tables, k, ts) ==>
                exists i :: |old(queue)| <= i < |queue| && queue[i].checkId == k && queue[i].lastPointTs == ts
    {
      while next <= lastPointAt - offset
        invariant Covers() && Extends() && offset == old(offset)
        invariant old(next) <= next && (next <= lastPointAt - offset + 1 || next == old(next))
        invariant forall ts :: old(next) <= ts < next ==> asked[ts] == db.tables
        invariant Queued(queue, asked, failing, |old(queue)|, old(next), next)
        decreases lastPointAt - offset - next
      {
        ghost var before, was, mid := queue, asked, next;
        AskAbout(db, failing);
        QueuedJoin(before, queue, was, asked, failing, |old(queue)|, old(next), mid, next);
      }
      RangeJoin(start, old(next), next);
      RangeElements(old(next), next);
      QueuedJustWhenWanted(queue, asked, failing, |old(queue)|, old(next), next);
      forall ts, k | old(next) <= ts < next && ts !in failing && Wanted(db.tables, k, ts)
        ensures exists i :: |old(queue)| <= i < |queue| && queue[i].checkId == k && queue[i].lastPointTs == ts
      {
        assert Wanted(asked[ts], k, ts);
      }
    }

    /** Queries the next second, stamps its jobs and queues them. */
    method AskAbout(db: Database, failing: set<int>)
      requires Covers() && Valid(db.tables)
      modifies this, db`now
      ensures Covers() && Extends() && offset == old(offset) && next == old(next) + 1
      ensures asked == old(asked)[old(next) := db.tables]
      ensures Queued(queue, asked, failing, |old(queue)|, old(next), next)
      ensures db.now >= old(db.now) && StampedBetween(queue, |old(queue)|, old(db.now), db.now)
    {
      ghost var before, ts := queue, next;
      TimeMovesOn(queried, asked, start, next, db.tables);
      queried := queried + [next];
      asked := asked[next := db.tables];
      next := next + 1;
      QueueJobs(db, failing);
      SecondIsQueued(db.tables, asked, failing, before, queue, start, ts);
    }

    /** Queues the jobs of the second that was just asked about, unless its query fails. */
    method QueueJobs(db: Database, failing: set<int>)
      requires Valid(db.tables)
      modifies this`queue, db`now
      ensures SecondQueued(db.tables, failing, old(queue), queue, next - 1)
      ensures db.now >= old(db.now) && StampedBetween(queue, |old(queue)|, old(db.now), db.now)
    {
      if next - 1 in failing {
        return;
      }
      var jobs := GetJobs(db, next - 1);
      StampAndQueue(db, jobs);
      assert JobsOfSecond(db.tables, jobs, next - 1);
    }

    /** Each job is stamped as it is queued. */
    method StampAndQueue(db: Database, jobs: seq<Task>)
      modifies this`queue, db`now
      ensures StampedOnto(jobs, old(queue), queue, next - 1)
      ensures db.now >= old(db.now) && StampedBetween(queue, |old(queue)|, old(db.now), db.now)
    {
      for i := 0 to |jobs|
        invariant StampedOnto(jobs[..i], old(queue), queue, next - 1)
        invariant db.now >= old(db.now) && StampedBetween(queue, |old(queue)|, old(db.now), db.now)
      {
        var generatedAt := db.Now();
        queue := queue + [jobs[i].(generatedAt := generatedAt, lastPointTs := next - 1)];
      }
      assert jobs[..|jobs|] == jobs;
    }

    method OnNewOffset(newOffset: int)
      requires Covers()
      modifies this`offset
      ensures Covers() && offset == newOffset
    {
      offset := newOffset;
    }

    /** Any ticks, any changes of the offset and anything done to the store in between, in any order:
        the seconds asked about form one interval, and the jobs queued are those of its seconds, each
        once, as the store was when the second was asked about. */
    method Run(db: Database, signals: seq<Signal>, failing: set<int>)
      requires Covers() && Valid(db.tables)
      requires forall s :: s in signals && s.StoreBecomes? ==> Valid(s.tables)
      modifies this, db
      ensures Covers() && Extends()
      ensures old(next) <= next && queried == old(queried) + Range(old(next), next)
      ensures Queued(queue, asked, failing, |old(queue)|, old(next), next)
      ensures forall i :: |old(queue)| <= i < |queue| ==>
                var ts, k := queue[i].lastPointTs, queue[i].checkId;
                ts in asked && Wanted(asked[ts], k, ts) && Carries(queue[i], asked[ts].checks[k])
      ensures forall ts, k :: old(next) <= ts < next && ts !in failing && Wanted(asked[ts], k, ts) ==>
                exists i :: |old(queue)| <= i < |queue| && queue[i].checkId == k && queue[i].lastPointTs == ts
    {
      for i := 0 to |signals|
        invariant Covers() && Extends() && old(next) <= next && Valid(db.tables)
        invariant Queued(queue, asked, failing, |old(queue)|, old(next), next)
      {
        ghost var before, was, mid := queue, asked, next;
        assert signals[i] in signals;
        match signals[i]
        case Tick(at) =>
          OnTick(db, at, failing);
          QueuedJoin(before, queue, was, asked, failing, |old(queue)|, old(next), mid, next);
        case NewOffset(o) => OnNewOffset(o);
        case StoreBecomes(u) => db.tables := u;
      }
      RangeJoin(start, old(next), next);
      QueuedJustWhenWanted(queue, asked, failing, |old(queue)|, old(next), next);
    }
  }

  // ---------------------------------------------------------------- once per period

  /** Among any frequency consecutive seconds a check is due at exactly one. */
  lemma OncePerWindow(t: Tables, k: int, from: nat) returns (ts: int)
    requires Valid(t) && k in t.checks && t.checks[k].enabled
    ensures from <= ts < from + t.checks[k].frequency && DueAt(t, k, ts)
    ensures forall u :: from <= u < from + t.checks[k].frequency && DueAt(t, k, u) ==> u == ts
  {
    assert CheckKeyed(t, k);
    var f, o := t.checks[k].frequency, t.checks[k].offset;
    var d := (o - from) % f;
    ts := from + d;
    SameRemainder(ts, o, f, (o - from) / f);
    forall u | from <= u < from + f && DueAt(t, k, u)
      ensures u == ts
    {
      CloseRemainders(u, ts, f);
    }
  }

  lemma SameRemainder(a: int, o: int, f: int, q: int)
    requires f >= 1 && 0 <= o < f && o - a == q * f
    ensures a % f == o
  {
    assert a == (-q) * f + o;
    var r, n := a % f, a / f;
    assert a == n * f + r;
    MultipleWithin(o - r, f, n + q);
  }

  lemma CloseRemainders(u: int, v: int, f: int)
    requires f >= 1 && u % f == v % f && -f < u - v < f
    ensures u == v
  {
    assert u - v == (u / f - v / f) * f;
    MultipleWithin(u - v, f, u / f - v / f);
  }

  lemma MultipleWithin(d: int, f: int, m: int)
    requires f >= 1 && d == m * f && -f < d < f
    ensures d == 0
  {
  }

  /** ts falls in the period of check k that starts at from. */
  predicate InWindow(t: Tables, k: int, from: int, ts: int)
    requires k in t.checks
  {
    from <= ts < from + t.checks[k].frequency
  }

  /** Check k is scheduled in u as it is in t, and fit for alerting. */
  predicate ScheduledAlike(t: Tables, u: Tables, k: int)
    requires k in t.checks
  {
    && k in u.checks && u.checks[k].enabled == t.checks[k].enabled && Alertable(u.checks[k].health)
    && u.checks[k].frequency == t.checks[k].frequency && u.checks[k].offset == t.checks[k].offset
  }

  /** In every window of frequency consecutive processed seconds none of whose queries failed exactly
      one job of an enabled, alertable check was queued, whatever else happened to the store while
      the schedule of the check stayed. */
  lemma OneJobPerWindow(d: Dispatcher, t: Tables, failing: set<int>, n: nat, lo: int, hi: int, k: int,
                        from: nat) returns (i: int)
    requires Valid(t) && d.Covers() && Queued(d.queue, d.asked, failing, n, lo, hi)
    requires k in t.checks && t.checks[k].enabled
    requires lo <= from && from + t.checks[k].frequency <= hi
    requires forall ts :: InWindow(t, k, from, ts) ==> ts !in failing && ScheduledAlike(t, d.asked[ts], k)
    ensures n <= i < |d.queue| && d.queue[i].checkId == k
    ensures InWindow(t, k, from, d.queue[i].lastPointTs)
    ensures forall j ::
              n <= j < |d.queue| && d.queue[j].checkId == k && InWindow(t, k, from, d.queue[j].lastPointTs) ==> j == i
  {
    var ts := OncePerWindow(t, k, from);
    assert InWindow(t, k, from, ts) && DueAt(d.asked[ts], k, ts);
    i :| n <= i < |d.queue| && d.queue[i].checkId == k && d.queue[i].lastPointTs == ts;
    forall j | n <= j < |d.queue| && d.queue[j].checkId == k && InWindow(t, k, from, d.queue[j].lastPointTs)
      ensures j == i
    {
      assert DueAt(d.asked[d.queue[j].lastPointTs], k, d.queue[j].lastPointTs);
      assert DueAt(t, k, d.queue[j].lastPointTs);
      assert Key(k, d.queue[j].lastPointTs) == Key(d.queue[i].checkId, d.queue[i].lastPointTs);
    }
  }

  /** How often check k is due in [lo, hi). */
  function TimesDue(t: Tables, k: int, lo: int, hi: int): nat
    decreases hi - lo
  {
    if lo >= hi then 0 else TimesDue(t, k, lo, hi - 1) + if DueAt(t, k, hi - 1) then 1 else 0
  }

  lemma {:induction false} TimesDueJoin(t: Tables, k: int, lo: int, mid: int, hi: int)
    requires lo <= mid <= hi
    ensures TimesDue(t, k, lo, hi) == TimesDue(t, k, lo, mid) + TimesDue(t, k, mid, hi)
    decreases hi - mid
  {
    if mid < hi {
      TimesDueJoin(t, k, lo, mid, hi - 1);
    }
  }

  lemma {:induction false} NeverDue(t: Tables, k: int, lo: int, hi: int)
    requires forall u :: lo <= u < hi ==> !DueAt(t, k, u)
    ensures TimesDue(t, k, lo, hi) == 0
    decreases hi - lo
  {
    if lo < hi {
      NeverDue(t, k, lo, hi - 1);
    }
  }

  /** In one period a check is due once. */
  lemma DueOnce(t: Tables, k: int, from: nat, to: int)
    requires Valid(t) && k in t.checks && t.checks[k].enabled && to == from + t.checks[k].frequency
    ensures TimesDue(t, k, from, to) == 1
  {
    var ts := OncePerWindow(t, k, from);
    TimesDueJoin(t, k, from, ts, to);
    TimesDueJoin(t, k, ts, ts + 1, to);
    NeverDue(t, k, from, ts);
    NeverDue(t, k, ts + 1, to);
    assert TimesDue(t, k, ts, ts) == 0;
  }

  lemma OneMorePeriod(n: nat, f: nat)
    requires n > 0
    ensures n * f == (n - 1) * f + f && (n - 1) * f >= 0
  {
  }

  /** Over n periods, wherever they start, an enabled check is due exactly n times. */
  lemma {:induction false} DueOncePerPeriod(t: Tables, k: int, from: nat, n: nat)
    requires Valid(t) && k in t.checks && t.checks[k].enabled
    ensures TimesDue(t, k, from, from + n * t.checks[k].frequency) == n
    decreases n
  {
    var f: nat := t.checks[k].frequency;
    var to := from + n * f;
    if n > 0 {
      DueOncePerPeriod(t, k, from, n - 1);
      OneMorePeriod(n, f);
      var mid := from + (n - 1) * f;
      DueOnce(t, k, mid, to);
      TimesDueJoin(t, k, from, mid, to);
    }
  }
}
