/** Executing alerting jobs: at most once in a window, and written to the database only every
    other time (executor.go). */
module Executor {
  import opened Model
  import opened Database
  import opened Rows
  import opened CheckState
  import opened Eval

  // ---------------------------------------------------------------- the cache of executed jobs

  /** The cache key of a job: the check and the timestamp of its last point. */
  datatype Key = Key(checkId: int, timestamp: int)

  /** ContainsOrAdd never refreshes a key it finds, so the oldest key is always the first inserted. */
  function Push(keys: seq<Key>, capacity: nat, k: Key): seq<Key> {
    if k in keys then keys
    else if |keys| < capacity then keys + [k]
    else (keys + [k])[1..]
  }

  class KeyCache {
    const capacity: nat
    var keys: seq<Key>

    constructor (capacity: nat)
      requires capacity >= 1
      ensures this.capacity == capacity && keys == []
    {
      this.capacity := capacity;
      keys := [];
    }

    method ContainsOrAdd(k: Key) returns (found: bool)
      modifies this`keys
      ensures found <==> k in old(keys)
      ensures keys == Push(old(keys), capacity, k)
    {
      found := k in keys;
      if !found {
        keys := keys + [k];
        if |keys| > capacity {
          keys := keys[1..];
        }
      }
    }
  }

  function KeysAfter(capacity: nat, offered: seq<Key>): seq<Key> {
    if offered == [] then [] else Push(KeysAfter(capacity, offered[..|offered| - 1]), capacity, offered[|offered| - 1])
  }

  /** The i-th job offered is executed, not skipped. */
  predicate ExecutedAt(capacity: nat, offered: seq<Key>, i: nat)
    requires i < |offered|
  {
    offered[i] !in KeysAfter(capacity, offered[..i])
  }

  /** The keys executed after position i and before position j. */
  ghost function Between(capacity: nat, offered: seq<Key>, i: nat, j: nat): set<Key>
    requires j <= |offered|
  {
    set m | i < m < j && ExecutedAt(capacity, offered, m) :: offered[m]
  }

  lemma BetweenNext(capacity: nat, offered: seq<Key>, i: nat, j: nat)
    requires i < j < |offered|
    ensures Between(capacity, offered, i, j + 1) == Between(capacity, offered, i, j)
            + if ExecutedAt(capacity, offered, j) then {offered[j]} else {}
    ensures KeysAfter(capacity, offered[..j + 1]) == Push(KeysAfter(capacity, offered[..j]), capacity, offered[j])
  {
    assert offered[..j + 1][..j] == offered[..j];
  }

  lemma {:induction false} CacheIsSound(capacity: nat, offered: seq<Key>)
    requires capacity >= 1
    ensures NoRepeats(KeysAfter(capacity, offered)) && |KeysAfter(capacity, offered)| <= capacity
  {
    if offered != [] {
      CacheIsSound(capacity, offered[..|offered| - 1]);
    }
  }

  /** The keys of the jobs that are executed, in order. */
  function Executions(capacity: nat, offered: seq<Key>): seq<Key> {
    if offered == [] then []
    else
      var last := |offered| - 1;
      Executions(capacity, offered[..last]) + if ExecutedAt(capacity, offered, last) then [offered[last]] else []
  }

  /** The last n of some keys, or all of them. */
  function Last(keys: seq<Key>, n: nat): seq<Key> {
    if |keys| <= n then keys else keys[|keys| - n..]
  }

  lemma PushKeepsLast(all: seq<Key>, capacity: nat, x: Key)
    requires capacity >= 1
    ensures var held := Last(all, capacity);
            Push(held, capacity, x) == if x in held then held else Last(all + [x], capacity)
  {
    if |all| >= capacity {
      assert (all[|all| - capacity..] + [x])[1..] == (all + [x])[|all| + 1 - capacity..];
    }
  }

  /** The cache holds exactly the keys of the last executions, as many of them as it has room for. */
  lemma {:induction false} CacheHoldsLastExecutions(capacity: nat, offered: seq<Key>)
    requires capacity >= 1
    ensures var all := Executions(capacity, offered);
            KeysAfter(capacity, offered) == Last(all, capacity)
  {
    if offered != [] {
      var front, x := offered[..|offered| - 1], offered[|offered| - 1];
      CacheHoldsLastExecutions(capacity, front);
      PushKeepsLast(Executions(capacity, front), capacity, x);
      assert KeysAfter(capacity, offered) == Push(KeysAfter(capacity, front), capacity, x);
    }
  }

  /** A new key pushes out the oldest one at most: k stays while anything older than it is there. */
  lemma PushBehind(keys: seq<Key>, capacity: nat, older: seq<Key>, k: Key, newer: seq<Key>,
                   x: Key) returns (left: seq<Key>)
    requires keys == older + [k] + newer && x !in keys && |keys| <= capacity
    requires |newer| + 1 < capacity
    ensures Push(keys, capacity, x) == left + [k] + (newer + [x])
  {
    left := if |keys| < capacity then older else older[1..];
    if |keys| < capacity {
      assert keys + [x] == left + [k] + (newer + [x]);
    } else {
      assert older == [older[0]] + left;
      assert (keys + [x])[1..] == left + [k] + (newer + [x]);
    }
  }

  /** Before position j the key executed at i is cached, followed by exactly the keys executed since. */
  ghost predicate CachedBehind(capacity: nat, offered: seq<Key>, i: nat, j: nat, older: seq<Key>, newer: seq<Key>)
    requires i < j <= |offered|
  {
    && KeysAfter(capacity, offered[..j]) == older + [offered[i]] + newer
    && Elements(newer) == Between(capacity, offered, i, j) && |newer| == |Between(capacity, offered, i, j)|
  }

  lemma CachedAtFirst(capacity: nat, offered: seq<Key>, i: nat) returns (older: seq<Key>)
    requires capacity >= 1 && i < |offered| && ExecutedAt(capacity, offered, i)
    ensures CachedBehind(capacity, offered, i, i + 1, older, [])
  {
    CacheIsSound(capacity, offered[..i]);
    assert offered[..i + 1][..i] == offered[..i];
    assert Between(capacity, offered, i, i + 1) == {};
    var before := KeysAfter(capacity, offered[..i]);
    older := if |before| < capacity then before else before[1..];
  }

  lemma CachedOneMore(capacity: nat, offered: seq<Key>, i: nat, j: nat, older0: seq<Key>, newer0: seq<Key>)
    returns (older: seq<Key>, newer: seq<Key>)
    requires capacity >= 1 && i < j < |offered| && CachedBehind(capacity, offered, i, j, older0, newer0)
    requires |Between(capacity, offered, i, j + 1)| < capacity
    ensures CachedBehind(capacity, offered, i, j + 1, older, newer)
  {
    BetweenNext(capacity, offered, i, j);
    CacheIsSound(capacity, offered[..j]);
    older, newer := older0, newer0;
    var keys, x := KeysAfter(capacity, offered[..j]), offered[j];
    if ExecutedAt(capacity, offered, j) {
      assert x !in keys && x !in newer0;
      var earlier := Between(capacity, offered, i, j);
      assert |earlier + {x}| == |earlier| + 1;
      older := PushBehind(keys, capacity, older0, offered[i], newer0, x);
      newer := newer0 + [x];
      assert Elements(newer) == Elements(newer0) + {x};
    }
  }

  lemma BetweenGrows(capacity: nat, offered: seq<Key>, i: nat, a: nat, b: nat)
    requires a <= b <= |offered|
    ensures |Between(capacity, offered, i, a)| <= |Between(capacity, offered, i, b)|
  {
    SubsetSize(Between(capacity, offered, i, a), Between(capacity, offered, i, b));
  }

  /** While fewer than capacity other keys were executed since, an executed key is still cached. */
  lemma StillCached(capacity: nat, offered: seq<Key>, i: nat, j: nat)
    requires capacity >= 1 && i < j <= |offered| && ExecutedAt(capacity, offered, i)
    requires |Between(capacity, offered, i, j)| < capacity
    ensures offered[i] in KeysAfter(capacity, offered[..j])
  {
    var older := CachedAtFirst(capacity, offered, i);
    var newer: seq<Key> := [];
    var m := i + 1;
    while m < j
      invariant i < m <= j && CachedBehind(capacity, offered, i, m, older, newer)
    {
      BetweenGrows(capacity, offered, i, m + 1, j);
      older, newer := CachedOneMore(capacity, offered, i, m, older, newer);
      m := m + 1;
    }
  }

  /** Between two executions of the same job at least capacity other jobs were executed. */
  lemma {:induction false} AtMostOnceInWindow(capacity: nat, offered: seq<Key>, i: nat, j: nat)
    requires capacity >= 1 && i < j < |offered| && offered[i] == offered[j]
    requires ExecutedAt(capacity, offered, i) && ExecutedAt(capacity, offered, j)
    ensures |Between(capacity, offered, i, j) - {offered[i]}| >= capacity
    decreases j
  {
    if m: nat :| i < m < j && offered[m] == offered[i] && ExecutedAt(capacity, offered, m) {
      AtMostOnceInWindow(capacity, offered, i, m);
      var part, all := Between(capacity, offered, i, m) - {offered[i]}, Between(capacity, offered, i, j) - {offered[i]};
      assert part <= all;
      SubsetSize(part, all);
    } else {
      var all := Between(capacity, offered, i, j);
      assert offered[i] !in all;
      assert all - {offered[i]} == all;
      if |all| < capacity {
        StillCached(capacity, offered, i, j);
      }
    }
  }

  lemma SubsetSize<T>(a: set<T>, b: set<T>)
    requires a <= b
    ensures |a| <= |b|
  {
    assert b == a + (b - a);
  }

  // ---------------------------------------------------------------- executing one job

  /** A job as the dispatcher read it from the database. */
  datatype Task = Task(
    checkId: int, frequency: Frequency, health: HealthSettings, state: EvalResult, stateCheck: Time,
    generatedAt: Time, lastPointTs: int)

  datatype Outcome = TooOld | AlreadyDone | QueryFailed | EvalFailed | Done(newState: EvalResult)

  const MAX_AGE: Time := 10 * 60 * SECOND

  /** Results are written when the state changes, or when state_check is more than two periods old. */
  predicate WorthWriting(state: EvalResult, stateCheck: Time, frequency: Frequency, newState: EvalResult,
                         timeExec: Time) {
    state != newState || timeExec - stateCheck > SECOND * (frequency * 2)
  }

  method Execute(cache: KeyCache, task: Task, now: Time, preExec: Time, response: Option<seq<Series>>)
    returns (outcome: Outcome, results: seq<Job>)
    modifies cache`keys
    ensures var key := Key(task.checkId, task.lastPointTs);
      && (outcome.TooOld? <==> now - task.generatedAt > 10 * 60 * 1_000_000_000)
      && (outcome.AlreadyDone? <==> !outcome.TooOld? && key in old(cache.keys))
      && cache.keys == (if outcome.TooOld? then old(cache.keys) else Push(old(cache.keys), cache.capacity, key))
    ensures !outcome.TooOld? && !outcome.AlreadyDone? ==>
              outcome == match response
                         case None => QueryFailed
                         case Some(res) => match Meaning(res, task.health)
                                           case Judged(s) => Done(s)
                                           case _ => EvalFailed
    ensures results ==
              if outcome.Done?
                 && (task.state != outcome.newState || preExec - task.stateCheck > 2 * task.frequency * SECOND)
                       then [Job(task.checkId, outcome.newState, preExec)] else []
  {
    results := [];
    if now - task.generatedAt > MAX_AGE {
      return TooOld, [];
    }
    var found := cache.ContainsOrAdd(Key(task.checkId, task.lastPointTs));
    if found {
      return AlreadyDone, [];
    }
    if response.None? {
      return QueryFailed, [];
    }
    var verdict := Evaluate(response.value, task.health);
    if !verdict.Judged? {
      return EvalFailed, [];
    }
    outcome := Done(verdict.state);
    if task.state != verdict.state || preExec - task.stateCheck > SECOND * (task.frequency * 2) {
      results := [Job(task.checkId, verdict.state, preExec)];
    }
  }

  // ---------------------------------------------------------------- lazy writes lose nothing

  /** One evaluation of a check whose row was read after the previous one was dealt with. */
  function LazyWritten(row: Check, s: EvalResult, at: Time): Check {
    if WorthWriting(row.state, row.stateCheck, row.frequency, s, at) then Written(row, s, at) else row
  }

  function LazyReplay(row: Check, jobs: seq<Job>): Check {
    if jobs == [] then row
    else LazyWritten(LazyReplay(row, jobs[..|jobs| - 1]), jobs[|jobs| - 1].newState, jobs[|jobs| - 1].timeExec)
  }

  /** One dispatch of a check: what the dispatcher and the executor read from clock and graphite. */
  datatype Round = Round(health: HealthSettings, generatedAt: Time, lastPointTs: int, now: Time, preExec: Time,
      response: Option<seq<Series>>)

  /** The result of a round, if it is neither too old nor a repetition and graphite's answer can be judged. */
  ghost function ResultOf(keys: seq<Key>, k: int, r: Round): Option<EvalResult> {
    if r.now - r.generatedAt > MAX_AGE || Key(k, r.lastPointTs) in keys || r.response.None? then None
    else match Meaning(r.response.value, r.health)
         case Judged(s) => Some(s)
         case _ => None
  }

  function KeysNext(keys: seq<Key>, capacity: nat, k: int, r: Round): seq<Key> {
    if r.now - r.generatedAt > MAX_AGE then keys else Push(keys, capacity, Key(k, r.lastPointTs))
  }

  /** A job on a stored check, from reading its row to storing its result, is one lazy write. */
  method RunJob(db: Database, cache: KeyCache, k: int, r: Round)
    requires Valid(db.tables) && k in db.tables.checks
    modifies db`tables, cache`keys
    ensures Valid(db.tables) && db.tables.checks.Keys == old(db.tables.checks.Keys)
    ensures cache.keys == KeysNext(old(cache.keys), cache.capacity, k, r)
    ensures db.tables.checks[k] == match ResultOf(old(cache.keys), k, r)
                                   case Some(s) => LazyWritten(old(db.tables.checks)[k], s, r.preExec)
                                   case None => old(db.tables.checks)[k]
  {
    var row := db.tables.checks[k];
    var task := Task(k, row.frequency, r.health, row.state, row.stateCheck, r.generatedAt, r.lastPointTs);
    var outcome, results := Execute(cache, task, r.now, r.preExec, r.response);
    if |results| > 0 {
      var _ := UpdateCheckState(db, results[0]);
    }
  }

  function KeysAfterRounds(keys: seq<Key>, capacity: nat, k: int, rounds: seq<Round>): seq<Key> {
    if rounds == [] then keys
    else KeysNext(KeysAfterRounds(keys, capacity, k, rounds[..|rounds| - 1]), capacity, k, rounds[|rounds| - 1])
  }

  /** The results of the rounds that have one, in order. */
  ghost function ResultsOf(keys: seq<Key>, capacity: nat, k: int, rounds: seq<Round>): seq<Job> {
    if rounds == [] then []
    else
      var front, last := rounds[..|rounds| - 1], rounds[|rounds| - 1];
      match ResultOf(KeysAfterRounds(keys, capacity, k, front), k, last)
      case Some(s) => ResultsOf(keys, capacity, k, front) + [Job(k, s, last.preExec)]
      case None => ResultsOf(keys, capacity, k, front)
  }

  lemma LazyOneMore(row: Check, jobs: seq<Job>, j: Job)
    ensures LazyReplay(row, jobs + [j]) == LazyWritten(LazyReplay(row, jobs), j.newState, j.timeExec)
  {
    assert (jobs + [j])[..|jobs|] == jobs;
  }

  /** Any number of rounds of one check, each on the row the one before left, are the lazy replay of
      their results; state and change are those of writing every result. */
  method RunJobs(db: Database, cache: KeyCache, k: int, rounds: seq<Round>)
    requires Valid(db.tables) && k in db.tables.checks
    modifies db`tables, cache`keys
    ensures Valid(db.tables) && db.tables.checks.Keys == old(db.tables.checks.Keys)
    ensures var row, results := old(db.tables.checks)[k], ResultsOf(old(cache.keys), cache.capacity, k, rounds);
      && db.tables.checks[k] == LazyReplay(row, results)
      && db.tables.checks[k].state == Replay(row, results).state
      && db.tables.checks[k].stateChange == Replay(row, results).stateChange
  {
    ghost var row, keys := db.tables.checks[k], cache.keys;
    for i := 0 to |rounds|
      invariant Valid(db.tables) && db.tables.checks.Keys == old(db.tables.checks.Keys)
      invariant cache.keys == KeysAfterRounds(keys, cache.capacity, k, rounds[..i])
      invariant db.tables.checks[k] == LazyReplay(row, ResultsOf(keys, cache.capacity, k, rounds[..i]))
    {
      assert rounds[..i + 1][..i] == rounds[..i];
      ghost var before := ResultsOf(keys, cache.capacity, k, rounds[..i]);
      ghost var result := ResultOf(cache.keys, k, rounds[i]);
      RunJob(db, cache, k, rounds[i]);
      if result.Some? {
        LazyOneMore(row, before, Job(k, result.value, rounds[i].preExec));
      }
    }
    assert rounds[..|rounds|] == rounds;
    LazyLosesNothing(row, ResultsOf(keys, cache.capacity, k, rounds));
  }

  /** Skipping writes never shows in the state or in the time of its last change, whatever the
      times of the jobs. */
  lemma {:induction false} LazyLosesNothing(row: Check, jobs: seq<Job>)
    ensures LazyReplay(row, jobs).state == Replay(row, jobs).state
    ensures LazyReplay(row, jobs).stateChange == Replay(row, jobs).stateChange
    ensures LazyReplay(row, jobs).stateCheck <= Replay(row, jobs).stateCheck
    ensures LazyReplay(row, jobs).frequency == row.frequency
  {
    if jobs != [] {
      LazyLosesNothing(row, jobs[..|jobs| - 1]);
    }
  }

  function EvaluatedBefore(start: Time, jobs: seq<Job>, i: nat): Time
    requires i <= |jobs|
  {
    if i == 0 then start else jobs[i - 1].timeExec
  }

  ghost predicate InOrder(start: Time, jobs: seq<Job>) {
    forall i :: 0 <= i < |jobs| ==> EvaluatedBefore(start, jobs, i) < jobs[i].timeExec
  }

  /** Result i is the first of a run of equal results. */
  ghost predicate Turns(row: Check, jobs: seq<Job>, i: nat)
    requires i < |jobs|
  {
    jobs[i].newState != StateBefore(row, jobs, i)
  }

  lemma LazyStep(r: Check, s: EvalResult, at: Time)
    ensures r.state == s ==> LazyWritten(r, s, at).state == s && LazyWritten(r, s, at).stateChange == r.stateChange
    ensures r.state != s && r.stateChange < at ==>
              LazyWritten(r, s, at).state == s && LazyWritten(r, s, at).stateChange == at
  {
  }

  /** What comes before a position does not depend on what comes after it. */
  lemma FrontAgrees(row: Check, jobs: seq<Job>, m: nat)
    requires m <= |jobs|
    ensures forall i :: 0 <= i <= m ==>
              EvaluatedBefore(row.stateChange, jobs[..m], i) == EvaluatedBefore(row.stateChange, jobs, i)
    ensures forall i :: 0 <= i <= m ==> StateBefore(row, jobs[..m], i) == StateBefore(row, jobs, i)
    ensures forall i :: 0 <= i < m ==> (Turns(row, jobs[..m], i) <==> Turns(row, jobs, i))
    ensures InOrder(row.stateChange, jobs) ==> InOrder(row.stateChange, jobs[..m])
  {
  }

  /** For jobs executed in order the state is the last result, and it never changed later than the last job. */
  lemma {:induction false} LastResultIsState(row: Check, jobs: seq<Job>)
    requires InOrder(row.stateChange, jobs)
    ensures LazyReplay(row, jobs).state == StateBefore(row, jobs, |jobs|)
    ensures LazyReplay(row, jobs).stateChange <= EvaluatedBefore(row.stateChange, jobs, |jobs|)
  {
    if jobs != [] {
      var m := |jobs| - 1;
      FrontAgrees(row, jobs, m);
      LastResultIsState(row, jobs[..m]);
      LazyStep(LazyReplay(row, jobs[..m]), jobs[m].newState, jobs[m].timeExec);
      assert EvaluatedBefore(row.stateChange, jobs, m) < jobs[m].timeExec;
    }
  }

  /** What the last job does: a new result is written with its time, a repeated one moves neither. */
  lemma LastJob(row: Check, jobs: seq<Job>, m: nat)
    requires InOrder(row.stateChange, jobs) && |jobs| == m + 1
    ensures InOrder(row.stateChange, jobs[..m])
    ensures LazyReplay(row, jobs).state == jobs[m].newState
    ensures LazyReplay(row, jobs).stateChange ==
              if Turns(row, jobs, m) then jobs[m].timeExec else LazyReplay(row, jobs[..m]).stateChange
  {
    var front := jobs[..m];
    FrontAgrees(row, jobs, m);
    LastResultIsState(row, front);
    assert StateBefore(row, front, m) == StateBefore(row, jobs, m);
    assert EvaluatedBefore(row.stateChange, front, m) == EvaluatedBefore(row.stateChange, jobs, m) < jobs[m].timeExec;
    LazyStep(LazyReplay(row, front), jobs[m].newState, jobs[m].timeExec);
  }

  /** state_change is when the last run of equal results began. */
  lemma {:induction false} LastRunOfResults(row: Check, jobs: seq<Job>, i: nat)
    requires InOrder(row.stateChange, jobs) && i < |jobs|
    requires Turns(row, jobs, i) && forall j :: i < j < |jobs| ==> !Turns(row, jobs, j)
    ensures LazyReplay(row, jobs).state == jobs[i].newState && LazyReplay(row, jobs).stateChange == jobs[i].timeExec
    decreases |jobs|
  {
    var m := |jobs| - 1;
    LastJob(row, jobs, m);
    if i < m {
      assert !Turns(row, jobs, m);
      assert Turns(row, jobs[..m], i) && forall j :: i < j < m ==> !Turns(row, jobs[..m], j) by {
        FrontAgrees(row, jobs, m);
      }
      LastRunOfResults(row, jobs[..m], i);
      LastResultIsState(row, jobs[..m]);
      assert StateBefore(row, jobs[..m], m) == jobs[m - 1].newState == StateBefore(row, jobs, m);
    }
  }

  /** If no result differed from the first state, neither the state nor its change was touched. */
  lemma {:induction false} NoTurnNoChange(row: Check, jobs: seq<Job>)
    requires forall i :: 0 <= i < |jobs| ==> !Turns(row, jobs, i)
    ensures LazyReplay(row, jobs).state == row.state == StateBefore(row, jobs, |jobs|)
    ensures LazyReplay(row, jobs).stateChange == row.stateChange
  {
    if jobs != [] {
      var m := |jobs| - 1;
      FrontAgrees(row, jobs, m);
      NoTurnNoChange(row, jobs[..m]);
      assert !Turns(row, jobs, m);
      LazyStep(LazyReplay(row, jobs[..m]), jobs[m].newState, jobs[m].timeExec);
    }
  }

  // ---------------------------------------------------------------- staleness

  /** Evaluations succeed one after the other, each at most one period after the one before. */
  ghost predicate Paced(start: Time, period: Time, jobs: seq<Job>) {
    forall i :: 0 <= i < |jobs| ==>
        EvaluatedBefore(start, jobs, i) <= jobs[i].timeExec <= EvaluatedBefore(start, jobs, i) + period
  }

  /** Right after an evaluation, state_check is at most two periods old. */
  lemma {:induction false} CheckedWithinTwo(row: Check, start: Time, jobs: seq<Job>)
    requires Paced(start, row.frequency * SECOND, jobs)
    requires row.stateCheck <= start <= row.stateCheck + 2 * (row.frequency * SECOND)
    ensures var last := EvaluatedBefore(start, jobs, |jobs|);
            LazyReplay(row, jobs).stateCheck <= last <= LazyReplay(row, jobs).stateCheck + 2 * (row.frequency * SECOND)
    ensures LazyReplay(row, jobs).frequency == row.frequency
  {
    if jobs != [] {
      var front := jobs[..|jobs| - 1];
      forall i | 0 <= i < |front|
        ensures EvaluatedBefore(start, front, i) <= front[i].timeExec
        ensures front[i].timeExec <= EvaluatedBefore(start, front, i) + row.frequency * SECOND
      {
        assert front[i] == jobs[i] && EvaluatedBefore(start, front, i) == EvaluatedBefore(start, jobs, i);
      }
      CheckedWithinTwo(row, start, front);
      assert EvaluatedBefore(start, front, |front|) == EvaluatedBefore(start, jobs, |jobs| - 1);
    }
  }

  /** The two thresholds fit: a check evaluated in time is never shown as stale, at any instant up
      to one period after its last evaluation. */
  lemma LiveCheckIsTrusted(row: Check, start: Time, jobs: seq<Job>, now: Time)
    requires Paced(start, row.frequency * SECOND, jobs)
    requires row.stateCheck <= start <= row.stateCheck + 2 * (row.frequency * SECOND)
    requires now <= EvaluatedBefore(start, jobs, |jobs|) + row.frequency * SECOND
    ensures Scrutinize(now, LazyReplay(row, jobs)) == LazyReplay(row, jobs)
  {
    CheckedWithinTwo(row, start, jobs);
  }

  /** And they fit exactly: for every period there is a paced run at whose end a live check is three
      periods old, so no smaller staleness bound would do. */
  lemma ThreePeriodsAreReached(row: Check) returns (jobs: seq<Job>, now: Time)
    ensures Paced(row.stateCheck, row.frequency * SECOND, jobs)
    ensures now == EvaluatedBefore(row.stateCheck, jobs, |jobs|) + row.frequency * SECOND
    ensures LazyReplay(row, jobs).state == row.state
    ensures now - LazyReplay(row, jobs).stateCheck == 3 * (row.frequency * SECOND)
  {
    var f := row.frequency * SECOND;
    var one := [Job(row.id, row.state, row.stateCheck + f)];
    jobs := one + [Job(row.id, row.state, row.stateCheck + 2 * f)];
    now := row.stateCheck + 3 * f;
    assert one[..0] == [] && LazyReplay(row, one) == row;
    assert jobs[..1] == one && LazyReplay(row, jobs) == row;
  }

  /** Skipping writes leaves state_check at most two periods behind the latest evaluation, or at the last
      change of the state if that is later. */
  lemma {:induction false} LazyLagsTwoPeriods(row: Check, jobs: seq<Job>)
    ensures var end, latest := LazyReplay(row, jobs), Latest(row.stateCheck, jobs);
      && end.stateCheck <= latest
      && (latest <= end.stateCheck + 2 * (row.frequency * SECOND) || latest <= end.stateChange)
      && end == row.(state := end.state, stateChange := end.stateChange, stateCheck := end.stateCheck)
  {
    if jobs != [] {
      LazyLagsTwoPeriods(row, jobs[..|jobs| - 1]);
    }
  }

  /** Whatever results a check has had, in whatever order: once the latest of them, and what was known
      before them, is more than three periods old, the check is reported Unknown since then. */
  lemma StaleCheckIsUnknown(row: Check, jobs: seq<Job>, now: Time)
    requires now - Latest(row.stateCheck, jobs) > 3 * (row.frequency * SECOND)
    ensures var end := LazyReplay(row, jobs);
            Scrutinize(now, end) == if end.state == EvalUnknown then end
                                    else end.(state := EvalUnknown, stateChange := end.stateCheck)
    ensures var end := Replay(row, jobs);
            Scrutinize(now, end) == if end.state == EvalUnknown then end
                                    else end.(state := EvalUnknown, stateChange := Latest(row.stateCheck, jobs))
  {
    LazyLosesNothing(row, jobs);
    CheckedIsLatest(row, jobs);
    AnyOrderIsSafe(row, jobs);
  }

  /** And that is what a reader of the endpoint is shown, the columns other than state and state_change
      being those stored. */
  lemma StaleCheckIsShownUnknown(t: Tables, e: int, d: EndpointDTO, k: int, row: Check, jobs: seq<Job>, now: Time)
    requires Valid(t) && IsView(t, now, e, d)
    requires k in t.checks && t.checks[k].endpointId == e
    requires t.checks[k] == LazyReplay(row, jobs) || t.checks[k] == Replay(row, jobs)
    requires now - Latest(row.stateCheck, jobs) > 3 * (row.frequency * SECOND)
    ensures exists c :: c in d.checks && c.id == k
    ensures forall c :: c in d.checks && c.id == k ==>
              && c.state == EvalUnknown
              && c.stateChange == (if t.checks[k].state == EvalUnknown then t.checks[k].stateChange
                                   else if t.checks[k] == Replay(row, jobs) then Latest(row.stateCheck, jobs)
                                   else t.checks[k].stateCheck)
              && c == t.checks[k].(state := c.state, stateChange := c.stateChange)
  {
    LazyLosesNothing(row, jobs);
    CheckedIsLatest(row, jobs);
    AnyOrderIsSafe(row, jobs);
    CheckIsShown(t, now, e, d, k);
  }
}
