/** Writing the results of alerting jobs to the check table (endpoint.go, check_state.go). */
module CheckState {
  import opened Model
  import opened Database

  /** The outcome of one alerting job: what it found out about the check, and when it was executed. */
  datatype Job = Job(checkId: int, newState: EvalResult, timeExec: Time)

  // ---------------------------------------------------------------- one row

  /** The guard of the state statement: a different state, found after the last change. */
  predicate Changes(row: Check, s: EvalResult, at: Time) {
    row.state != s && row.stateChange < at
  }

  /** The row after both guarded statements. */
  function Written(row: Check, s: EvalResult, at: Time): Check {
    var r := if Changes(row, s, at) then row.(state := s, stateChange := at) else row;
    if r.stateCheck < at then r.(stateCheck := at) else r
  }

  /** The row after the jobs, in the order in which they happen to reach the database. */
  function Replay(row: Check, jobs: seq<Job>): Check {
    if jobs == [] then row
    else Written(Replay(row, jobs[..|jobs| - 1]), jobs[|jobs| - 1].newState, jobs[|jobs| - 1].timeExec)
  }

  /** The jobs that are reported as state changes. */
  function Reports(row: Check, jobs: seq<Job>): seq<Job> {
    if jobs == [] then []
    else
      var front, last := jobs[..|jobs| - 1], jobs[|jobs| - 1];
      if Changes(Replay(row, front), last.newState, last.timeExec)
      then Reports(row, front) + [last]
      else Reports(row, front)
  }

  ghost function Latest(start: Time, jobs: seq<Job>): Time {
    if jobs == [] then start
    else
      var m := Latest(start, jobs[..|jobs| - 1]);
      if m < jobs[|jobs| - 1].timeExec then jobs[|jobs| - 1].timeExec else m
  }

  /** Latest is the maximum of the start and all execution times. */
  lemma {:induction false} LatestIsMaximum(start: Time, jobs: seq<Job>)
    ensures start <= Latest(start, jobs)
    ensures forall j :: j in jobs ==> j.timeExec <= Latest(start, jobs)
    ensures Latest(start, jobs) == start || exists j :: j in jobs && j.timeExec == Latest(start, jobs)
  {
    if jobs != [] {
      var front, last := jobs[..|jobs| - 1], jobs[|jobs| - 1];
      assert jobs == front + [last];
      LatestIsMaximum(start, front);
    }
  }

  function TimeBefore(row: Check, r: seq<Job>, i: nat): Time
    requires i <= |r|
  {
    if i == 0 then row.stateChange else r[i - 1].timeExec
  }

  function StateBefore(row: Check, r: seq<Job>, i: nat): EvalResult
    requires i <= |r|
  {
    if i == 0 then row.state else r[i - 1].newState
  }

  /** r tells a story that starts at row: each change later than the one before, to another state. */
  ghost predicate Alternates(row: Check, r: seq<Job>) {
    forall i :: 0 <= i < |r| ==> TimeBefore(row, r, i) < r[i].timeExec && StateBefore(row, r, i) != r[i].newState
  }

  /** Whatever order, duplication or retry of jobs: the reported changes happen at strictly
      increasing times after the last known change, each to a state other than the one before it,
      and the row always shows the last of them; state_check ends as the latest time of all. */
  lemma {:induction false} AnyOrderIsSafe(row: Check, jobs: seq<Job>)
    ensures var r, end := Reports(row, jobs), Replay(row, jobs);
      && (forall j :: j in r ==> j in jobs)
      && Alternates(row, r)
      && end.state == StateBefore(row, r, |r|)
      && end.stateChange == TimeBefore(row, r, |r|)
      && end.stateCheck == Latest(row.stateCheck, jobs)
      && end == row.(state := end.state, stateChange := end.stateChange, stateCheck := end.stateCheck)
  {
    if jobs != [] {
      var front, last := jobs[..|jobs| - 1], jobs[|jobs| - 1];
      assert jobs == front + [last];
      AnyOrderIsSafe(row, front);
      CheckedIsLatest(row, jobs);
      if Changes(Replay(row, front), last.newState, last.timeExec) {
        OneMoreChange(row, Reports(row, front), last);
      }
    }
  }

  lemma OneMoreChange(row: Check, r: seq<Job>, j: Job)
    requires Alternates(row, r) && TimeBefore(row, r, |r|) < j.timeExec && StateBefore(row, r, |r|) != j.newState
    ensures Alternates(row, r + [j])
  {
  }

  /** The reported times of a story rise throughout. */
  lemma {:induction false} AlternatingTimesRise(row: Check, r: seq<Job>, i: nat, j: nat)
    requires Alternates(row, r) && i < j < |r|
    ensures r[i].timeExec < r[j].timeExec
    decreases j
  {
    if i + 1 < j {
      AlternatingTimesRise(row, r, i, j - 1);
    }
    assert TimeBefore(row, r, j) == r[j - 1].timeExec;
  }

  lemma ReplayOneMore(row: Check, jobs: seq<Job>, j: Job)
    ensures Replay(row, jobs + [j]) == Written(Replay(row, jobs), j.newState, j.timeExec)
    ensures Reports(row, jobs + [j]) ==
            if Changes(Replay(row, jobs), j.newState, j.timeExec) then Reports(row, jobs) + [j] else Reports(row, jobs)
  {
  }

  lemma {:induction false} ReplayAppend(row: Check, first: seq<Job>, second: seq<Job>)
    ensures Replay(row, first + second) == Replay(Replay(row, first), second)
    ensures Reports(row, first + second) == Reports(row, first) + Reports(Replay(row, first), second)
  {
    var all := first + second;
    if second == [] {
      assert all == first;
    } else {
      assert all[..|all| - 1] == first + second[..|second| - 1];
      ReplayAppend(row, first, second[..|second| - 1]);
    }
  }

  /** state_change never goes back, however a run of jobs continues. */
  lemma ChangeNeverGoesBack(row: Check, first: seq<Job>, second: seq<Job>)
    ensures row.stateChange <= Replay(row, first).stateChange <= Replay(row, first + second).stateChange
  {
    ReplayAppend(row, first, second);
    ReportsRise(row, first);
    ReportsRise(Replay(row, first), second);
  }

  lemma {:induction false} ReportsRise(row: Check, jobs: seq<Job>)
    ensures row.stateChange <= Replay(row, jobs).stateChange
  {
    if jobs != [] {
      ReportsRise(row, jobs[..|jobs| - 1]);
    }
  }

  /** Whatever is retried or delivered twice, no job is reported twice: the reported times rise throughout. */
  lemma NothingReportedTwice(row: Check, jobs: seq<Job>)
    ensures var r := Reports(row, jobs); forall i, j :: 0 <= i < j < |r| ==> r[i].timeExec < r[j].timeExec
  {
    AnyOrderIsSafe(row, jobs);
    var r := Reports(row, jobs);
    forall i, j | 0 <= i < j < |r|
      ensures r[i].timeExec < r[j].timeExec
    {
      AlternatingTimesRise(row, r, i, j);
    }
  }

  /** Writing the same result twice is writing it once, and the second time nothing changes. */
  lemma WrittenTwice(row: Check, s: EvalResult, at: Time)
    ensures Written(Written(row, s, at), s, at) == Written(row, s, at)
    ensures !Changes(Written(row, s, at), s, at)
  {
  }

  lemma {:induction false} CheckedIsLatest(row: Check, jobs: seq<Job>)
    ensures Replay(row, jobs).stateCheck == Latest(row.stateCheck, jobs)
  {
    if jobs != [] {
      CheckedIsLatest(row, jobs[..|jobs| - 1]);
    }
  }

  /** Writing a job again never moves state_check; right after itself it changes and reports nothing. */
  lemma RetryIsHarmless(row: Check, jobs: seq<Job>, again: Job)
    requires again in jobs
    ensures Replay(row, jobs + [again]).stateCheck == Replay(row, jobs).stateCheck
    ensures jobs[|jobs| - 1] == again ==>
              Replay(row, jobs + [again]) == Replay(row, jobs) && Reports(row, jobs + [again]) == Reports(row, jobs)
  {
    ReplayOneMore(row, jobs, again);
    assert again.timeExec <= Replay(row, jobs).stateCheck by {
      CheckedIsLatest(row, jobs);
      LatestIsMaximum(row.stateCheck, jobs);
    }
    if jobs[|jobs| - 1] == again {
      WrittenTwice(Replay(row, jobs[..|jobs| - 1]), again.newState, again.timeExec);
    }
  }

  // ---------------------------------------------------------------- the table

  /** The table after one job: nothing when the check is gone. */
  function WriteJob(t: Tables, j: Job): Tables {
    if j.checkId in t.checks
    then t.(checks := t.checks[j.checkId := Written(t.checks[j.checkId], j.newState, j.timeExec)])
    else t
  }

  function WriteJobs(t: Tables, jobs: seq<Job>): Tables {
    if jobs == [] then t else WriteJob(WriteJobs(t, jobs[..|jobs| - 1]), jobs[|jobs| - 1])
  }

  function JobsOf(k: int, jobs: seq<Job>): seq<Job> {
    if jobs == [] then []
    else
      var front, last := jobs[..|jobs| - 1], jobs[|jobs| - 1];
      if last.checkId == k then JobsOf(k, front) + [last] else JobsOf(k, front)
  }

  predicate Reported(t: Tables, j: Job) {
    j.checkId in t.checks && Changes(t.checks[j.checkId], j.newState, j.timeExec)
  }

  /** The jobs a batch reports, in order. */
  function BatchReports(t: Tables, jobs: seq<Job>): seq<Job> {
    if jobs == [] then []
    else
      var front, last := jobs[..|jobs| - 1], jobs[|jobs| - 1];
      if Reported(WriteJobs(t, front), last) then BatchReports(t, front) + [last] else BatchReports(t, front)
  }

  lemma JobsOfAppend(k: int, jobs: seq<Job>, j: Job)
    ensures JobsOf(k, jobs + [j]) == if j.checkId == k then JobsOf(k, jobs) + [j] else JobsOf(k, jobs)
  {
  }

  lemma {:induction false} RowsByCheck(t: Tables, jobs: seq<Job>, k: int)
    requires k in t.checks
    ensures k in WriteJobs(t, jobs).checks
    ensures WriteJobs(t, jobs).checks[k] == Replay(t.checks[k], JobsOf(k, jobs))
  {
    if jobs != [] {
      var front, last := jobs[..|jobs| - 1], jobs[|jobs| - 1];
      RowsByCheck(t, front, k);
      assert WriteJobs(t, jobs) == WriteJob(WriteJobs(t, front), last);
      ReplayOneMore(t.checks[k], JobsOf(k, front), last);
    }
  }

  /** A batch over many checks is, check by check, the replay of the jobs of that check alone, in
      the rows it leaves and in the changes it reports. */
  lemma {:induction false} BatchByCheck(t: Tables, jobs: seq<Job>, k: int)
    requires k in t.checks
    ensures k in WriteJobs(t, jobs).checks
    ensures WriteJobs(t, jobs).checks[k] == Replay(t.checks[k], JobsOf(k, jobs))
    ensures JobsOf(k, BatchReports(t, jobs)) == Reports(t.checks[k], JobsOf(k, jobs))
  {
    RowsByCheck(t, jobs, k);
    if jobs != [] {
      var front, last := jobs[..|jobs| - 1], jobs[|jobs| - 1];
      BatchByCheck(t, front, k);
      JobsOfAppend(k, BatchReports(t, front), last);
      ReplayOneMore(t.checks[k], JobsOf(k, front), last);
    }
  }

  /** Between t and u only alert columns of checks changed. */
  ghost predicate OnlyAlertsMoved(t: Tables, u: Tables) {
    && u == t.(checks := u.checks) && u.checks.Keys == t.checks.Keys
    && forall k :: k in t.checks ==>
         u.checks[k] == t.checks[k].(state := u.checks[k].state, stateChange := u.checks[k].stateChange,
             stateCheck := u.checks[k].stateCheck)
  }

  lemma AlertsMovedKeepsValid(t: Tables, u: Tables)
    requires Valid(t) && OnlyAlertsMoved(t, u)
    ensures Valid(u)
  {
  }

  method UpdateCheckState(db: Database, j: Job) returns (changed: bool)
    requires Valid(db.tables)
    modifies db`tables
    ensures db.tables == WriteJob(old(db.tables), j)
    ensures changed <==> Reported(old(db.tables), j)
    ensures Valid(db.tables) && OnlyAlertsMoved(old(db.tables), db.tables)
  {
    ghost var t := db.tables;
    changed := false;
    // first statement: a different state, found after the last change
    if j.checkId in db.tables.checks {
      var row := db.tables.checks[j.checkId];
      if row.state != j.newState && row.stateChange < j.timeExec {
        var turned := row.(state := j.newState, stateChange := j.timeExec);
        db.tables := db.tables.(checks := db.tables.checks[j.checkId := turned]);
        changed := true;
      }
    }
    // second statement: the time of the last evaluation never goes back
    if j.checkId in db.tables.checks {
      var row := db.tables.checks[j.checkId];
      if row.stateCheck < j.timeExec {
        db.tables := db.tables.(checks := db.tables.checks[j.checkId := row.(stateCheck := j.timeExec)]);
      }
    }
    assert db.tables.checks == WriteJob(t, j).checks;
    AlertsMovedKeepsValid(t, db.tables);
  }

  method BatchUpdateCheckState(db: Database, jobs: seq<Job>) returns (changed: seq<Job>)
    requires Valid(db.tables)
    modifies db`tables
    ensures db.tables == WriteJobs(old(db.tables), jobs)
    ensures changed == BatchReports(old(db.tables), jobs)
    ensures Valid(db.tables) && OnlyAlertsMoved(old(db.tables), db.tables)
  {
    ghost var t := db.tables;
    changed := [];
    for i := 0 to |jobs|
      invariant Valid(db.tables) && OnlyAlertsMoved(t, db.tables)
      invariant db.tables == WriteJobs(t, jobs[..i])
      invariant changed == BatchReports(t, jobs[..i])
    {
      assert jobs[..i + 1][..i] == jobs[..i];
      var c := UpdateCheckState(db, jobs[i]);
      if c {
        changed := changed + [jobs[i]];
      }
    }
    assert jobs[..|jobs|] == jobs;
  }

  // ---------------------------------------------------------------- retrying

  /** How one attempt to store a result ends: a statement fails, the commit fails without anybody
      being told, or all is well. */
  datatype Attempt = StatementFails | CommitLost | Commits

  /** UpdateCheckState with its transaction; None stands for an error. */
  method StoreOnce(db: Database, j: Job, attempt: Attempt) returns (change: Option<bool>)
    requires Valid(db.tables)
    modifies db`tables
    ensures change == if attempt.StatementFails? then None else Some(Reported(old(db.tables), j))
    ensures db.tables == if attempt.Commits? then WriteJob(old(db.tables), j) else old(db.tables)
    ensures Valid(db.tables)
  {
    var sess := new Session(db);
    if attempt.StatementFails? {
      change := None;
    } else {
      var changed := UpdateCheckState(db, j);
      change := Some(changed);
      sess.Complete(attempt.Commits?);
    }
    sess.Cleanup();
  }

  const MAX_ATTEMPTS := 3

  /** The attempt that ends the retrying, if one of the first three does. */
  ghost function Deciding(attempts: seq<Attempt>): Option<Attempt> {
    if |attempts| < MAX_ATTEMPTS then None
    else if !attempts[0].StatementFails? then Some(attempts[0])
    else if !attempts[1].StatementFails? then Some(attempts[1])
    else if !attempts[2].StatementFails? then Some(attempts[2])
    else None
  }

  /** storeResults for one job: a change is passed on at most once, and what is passed on has been
      stored unless the deciding commit was lost. */
  method StoreResult(db: Database, j: Job, attempts: seq<Attempt>) returns (saved: bool, stateChanges: seq<Job>)
    requires Valid(db.tables) && |attempts| >= 3
    modifies db`tables
    ensures Valid(db.tables)
    ensures saved <==> exists n :: 0 <= n < 3 && !attempts[n].StatementFails?
    ensures forall n :: && 0 <= n < 3 && !attempts[n].StatementFails?
                        && (forall i :: 0 <= i < n ==> attempts[i].StatementFails?) ==>
              db.tables == if attempts[n].Commits? then WriteJob(old(db.tables), j) else old(db.tables)
    ensures stateChanges == if saved && Reported(old(db.tables), j) then [j] else []
    ensures db.tables == if Deciding(attempts) == Some(Commits) then WriteJob(old(db.tables), j) else old(db.tables)
    ensures stateChanges != [] ==>
              (db.tables.checks[j.checkId].state == j.newState && db.tables.checks[j.checkId].stateChange == j.timeExec
               <==> Deciding(attempts) != Some(CommitLost))
  {
    saved, stateChanges := false, [];
    var n := 0;
    while !saved && n < MAX_ATTEMPTS
      invariant 0 <= n <= MAX_ATTEMPTS && Valid(db.tables)
      invariant !saved ==> db.tables == old(db.tables) && stateChanges == []
      invariant !saved ==> forall i :: 0 <= i < n ==> attempts[i].StatementFails?
      invariant saved ==> Deciding(attempts).Some?
                          && stateChanges == (if Reported(old(db.tables), j) then [j] else [])
                          && db.tables == (if Deciding(attempts) == Some(Commits) then WriteJob(old(db.tables), j)
                                            else old(db.tables))
    {
      n := n + 1;
      var change := StoreOnce(db, j, attempts[n - 1]);
      if change.None? {
        continue;
      }
      saved := true;
      if change.value {
        stateChanges := stateChanges + [j];
      }
    }
  }
}
