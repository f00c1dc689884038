/** Bringing a database up to date, one recorded migration at a time (migrator.go). */
module Migrator {
  import opened Model

  datatype Migration = Migration(id: string, conditional: bool)

  datatype LogRow = LogRow(migrationId: string, success: bool)

  /** What the migrations do to a schema: the query of the condition, the statement, and the code run after it. */
  datatype Actions<!S> = Actions(met: (S, string) -> bool, statement: (S, string) -> S, followUp: (S, string) -> S)

  /** Where the transaction of a migration breaks, if it does. */
  datatype Fault = NoFault | BeginFails | StatementFails | FollowUpFails | CommitFails

  /** How one execution goes: its fault, whether the query of the condition fails, and whether the
      record reaches the log (the error of that insert is ignored). */
  datatype Fate = Fate(fault: Fault, queryFails: bool, recorded: bool)

  /** A migration whose transaction ended without error: its statements ran, or its condition was not met. */
  datatype Step = Step(id: string, skipped: bool)

  // ---------------------------------------------------------------- one migration

  /** An unmet condition, or one whose query fails, skips the migration. */
  function StepOf<S>(acts: Actions<S>, schema: S, m: Migration, fate: Fate): Step {
    Step(m.id, m.conditional && (fate.queryFails || !acts.met(schema, m.id)))
  }

  /** A skipped migration cannot break any more. */
  predicate Fails<S>(acts: Actions<S>, schema: S, m: Migration, fate: Fate) {
    fate.fault == BeginFails || (!StepOf(acts, schema, m, fate).skipped && fate.fault != NoFault)
  }

  function Take<S>(acts: Actions<S>, schema: S, step: Step): S {
    if step.skipped then schema else acts.followUp(acts.statement(schema, step.id), step.id)
  }

  /** The schema the steps make of the initial one. */
  function Schema<S>(acts: Actions<S>, initial: S, history: seq<Step>): S {
    if history == []
    then initial
    else Take(acts, Schema(acts, initial, history[..|history| - 1]), history[|history| - 1])
  }

  /** The schema the migrations make of the initial one when nothing goes wrong. */
  function Fold<S>(acts: Actions<S>, initial: S, ms: seq<Migration>): S {
    if ms == [] then initial
    else
      var schema, m := Fold(acts, initial, ms[..|ms| - 1]), ms[|ms| - 1];
      Take(acts, schema, StepOf(acts, schema, m, Fate(NoFault, false, true)))
  }

  /** The steps a run takes that is never interrupted and in which nothing goes wrong. */
  function FoldSteps<S>(acts: Actions<S>, initial: S, ms: seq<Migration>): seq<Step> {
    if ms == [] then []
    else
      var steps, m := FoldSteps(acts, initial, ms[..|ms| - 1]), ms[|ms| - 1];
      steps + [StepOf(acts, Schema(acts, initial, steps), m, Fate(NoFault, false, true))]
  }

  lemma SchemaMore<S>(acts: Actions<S>, initial: S, history: seq<Step>, step: Step)
    ensures Schema(acts, initial, history + [step]) == Take(acts, Schema(acts, initial, history), step)
  {
    assert (history + [step])[..|history|] == history;
  }

  lemma FoldStepsMore<S>(acts: Actions<S>, initial: S, ms: seq<Migration>, m: Migration)
    ensures FoldSteps(acts, initial, ms + [m]) == FoldSteps(acts, initial, ms)
              + [StepOf(acts, Schema(acts, initial, FoldSteps(acts, initial, ms)), m, Fate(NoFault, false, true))]
  {
    assert (ms + [m])[..|ms|] == ms;
  }

  lemma FoldMore<S>(acts: Actions<S>, initial: S, ms: seq<Migration>, m: Migration)
    ensures var schema := Fold(acts, initial, ms);
            Fold(acts, initial, ms + [m]) == Take(acts, schema, StepOf(acts, schema, m, Fate(NoFault, false, true)))
  {
    assert (ms + [m])[..|ms|] == ms;
  }

  lemma {:induction false} FoldStepsMakeTheFold<S>(acts: Actions<S>, initial: S, ms: seq<Migration>)
    ensures Schema(acts, initial, FoldSteps(acts, initial, ms)) == Fold(acts, initial, ms)
    ensures |FoldSteps(acts, initial, ms)| == |ms|
  {
    if ms != [] {
      var front, m := ms[..|ms| - 1], ms[|ms| - 1];
      var steps := FoldSteps(acts, initial, front);
      assert ms == front + [m];
      FoldStepsMakeTheFold(acts, initial, front);
      FoldStepsMore(acts, initial, front, m);
      FoldMore(acts, initial, front, m);
      SchemaMore(acts, initial, steps, StepOf(acts, Schema(acts, initial, steps), m, Fate(NoFault, false, true)));
    }
  }

  // ---------------------------------------------------------------- the log

  function IdsOfAll(ms: seq<Migration>): seq<string> {
    seq(|ms|, i requires 0 <= i < |ms| => ms[i].id)
  }

  function StepIds(steps: seq<Step>): seq<string> {
    seq(|steps|, i requires 0 <= i < |steps| => steps[i].id)
  }

  /** The ids recorded as successful, in the order of the log. */
  function Recorded(log: seq<LogRow>): seq<string> {
    if log == [] then []
    else if log[|log| - 1].success then Recorded(log[..|log| - 1]) + [log[|log| - 1].migrationId]
    else Recorded(log[..|log| - 1])
  }

  lemma RecordedOneMore(log: seq<LogRow>, row: LogRow)
    ensures Recorded(log + [row]) == if row.success then Recorded(log) + [row.migrationId] else Recorded(log)
  {
    assert (log + [row])[..|log|] == log;
  }

  lemma Repeats(a: seq<string>, b: seq<string>, i: nat, j: nat)
    requires i < |a| && j < |b| && a[i] == b[j]
    ensures !NoRepeats(a + b)
  {
    assert (a + b)[i] == (a + b)[|a| + j];
  }

  lemma {:induction false} SizeOfElements(s: seq<string>)
    ensures |Elements(s)| <= |s|
  {
    if s != [] {
      SizeOfElements(s[..|s| - 1]);
      assert Elements(s) == Elements(s[..|s| - 1]) + {s[|s| - 1]};
    }
  }

  lemma {:induction false} SizeOfDistinct(s: seq<string>)
    requires NoRepeats(s)
    ensures |Elements(s)| == |s|
  {
    if s != [] {
      SizeOfDistinct(s[..|s| - 1]);
      assert Elements(s) == Elements(s[..|s| - 1]) + {s[|s| - 1]};
    }
  }

  /** The records of the first r successes, those that were lost left out. */
  function NewRows(todo: seq<Migration>, fates: string -> Fate, r: nat): seq<LogRow>
    requires r <= |todo|
  {
    if r == 0 then [] else NewRows(todo, fates, r - 1) + RowIf(fates(todo[r - 1].id).recorded, todo[r - 1].id, true)
  }

  function RowIf(recorded: bool, id: string, success: bool): seq<LogRow> {
    if recorded then [LogRow(id, success)] else []
  }

  lemma RowsMore(todo: seq<Migration>, fates: string -> Fate, before: seq<LogRow>, r: nat)
    requires r < |todo|
    ensures before + NewRows(todo, fates, r + 1)
              == before + NewRows(todo, fates, r) + RowIf(fates(todo[r].id).recorded, todo[r].id, true)
  {
  }

  /** No record of the first r successes is lost. */
  ghost predicate AllRecorded(todo: seq<Migration>, fates: string -> Fate, r: nat)
    requires r <= |todo|
  {
    forall j :: 0 <= j < r ==> fates(todo[j].id).recorded
  }

  lemma RecordedMaybe(log: seq<LogRow>, recorded: bool, id: string, success: bool)
    ensures Recorded(log + RowIf(recorded, id, success)) ==
              if recorded && success then Recorded(log) + [id] else Recorded(log)
  {
    if recorded {
      RecordedOneMore(log, LogRow(id, success));
    } else {
      assert log + [] == log;
    }
  }

  /** Having told what was known, the log tells of all r successes too if no record of one was lost,
      and otherwise of fewer. */
  ghost predicate Tells(todo: seq<Migration>, fates: string -> Fate, known: seq<string>, told: seq<string>, r: nat)
    requires r <= |todo|
  {
    if AllRecorded(todo, fates, r) then told == known + IdsOfAll(todo[..r]) else |told| < |known| + r
  }

  lemma {:induction false} LogTells(todo: seq<Migration>, fates: string -> Fate, before: seq<LogRow>, r: nat)
    requires r <= |todo|
    ensures Tells(todo, fates, Recorded(before), Recorded(before + NewRows(todo, fates, r)), r)
  {
    if r == 0 {
      assert before + NewRows(todo, fates, r) == before;
      assert IdsOfAll(todo[..r]) == [];
    } else {
      var q := r - 1;
      LogTells(todo, fates, before, q);
      var rows := before + NewRows(todo, fates, q);
      RecordedMaybe(rows, fates(todo[q].id).recorded, todo[q].id, true);
      RowsMore(todo, fates, before, q);
      TellsOneMore(todo, fates, Recorded(before), Recorded(rows), Recorded(before + NewRows(todo, fates, r)), q);
    }
  }

  /** What the log tells after one more success, told being what it told before. */
  lemma TellsOneMore(todo: seq<Migration>, fates: string -> Fate, known: seq<string>, told: seq<string>,
                     more: seq<string>, r: nat)
    requires r < |todo| && Tells(todo, fates, known, told, r)
    requires more == if fates(todo[r].id).recorded then told + [todo[r].id] else told
    ensures Tells(todo, fates, known, more, r + 1)
  {
    OneMoreId(todo, r);
    OneMoreRecorded(todo, fates, r);
  }

  lemma OneMoreRecorded(todo: seq<Migration>, fates: string -> Fate, r: nat)
    requires r < |todo|
    ensures AllRecorded(todo, fates, r + 1) <==> AllRecorded(todo, fates, r) && fates(todo[r].id).recorded
  {
  }

  lemma OneMoreId(ms: seq<Migration>, k: nat)
    requires k < |ms|
    ensures IdsOfAll(ms[..k + 1]) == IdsOfAll(ms[..k]) + [ms[k].id]
  {
  }

  lemma IdsJoin(ms: seq<Migration>, n: nat, k: nat)
    requires n <= k <= |ms|
    ensures IdsOfAll(ms[..k]) == IdsOfAll(ms[..n]) + IdsOfAll(ms[n..][..k - n])
  {
  }

  lemma ToldJustWhen(ms: seq<Migration>, fates: string -> Fate, told: seq<string>, n: nat, k: nat)
    requires n <= k <= |ms| && Tells(ms[n..], fates, IdsOfAll(ms[..n]), told, k - n)
    ensures told == IdsOfAll(ms[..k]) <==> AllRecorded(ms[n..], fates, k - n)
    ensures |told| < k || AllRecorded(ms[n..], fates, k - n)
  {
    IdsJoin(ms, n, k);
    assert |IdsOfAll(ms[..n])| == n && |IdsOfAll(ms[..k])| == k;
  }

  /** What the log tells after a start that took migrations n to k - 1, and stopped there unless ok. */
  lemma SettledLog(ms: seq<Migration>, fates: string -> Fate, before: seq<LogRow>, n: nat, k: nat, rows: seq<LogRow>,
                   log: seq<LogRow>, ok: bool)
    requires n <= k <= |ms| && Recorded(before) == IdsOfAll(ms[..n]) && (ok <==> k == |ms|)
    requires rows == before + NewRows(ms[n..], fates, k - n)
    requires log == rows + if ok then [] else RowIf(fates(ms[k].id).recorded, ms[k].id, false)
    ensures Recorded(log) == IdsOfAll(ms[..k]) <==> AllRecorded(ms[n..], fates, k - n)
    ensures |Recorded(log)| < k || AllRecorded(ms[n..], fates, k - n)
  {
    FailureTellsNothing(rows, log, if ok then [] else RowIf(fates(ms[k].id).recorded, ms[k].id, false));
    LogTells(ms[n..], fates, before, k - n);
    ToldJustWhen(ms, fates, Recorded(rows), n, k);
  }

  lemma FailureTellsNothing(rows: seq<LogRow>, log: seq<LogRow>, more: seq<LogRow>)
    requires log == rows + more && (more == [] || (|more| == 1 && !more[0].success))
    ensures Recorded(log) == Recorded(rows)
  {
    if more == [] {
      assert log == rows;
    } else {
      assert log == rows + [more[0]];
      RecordedOneMore(rows, more[0]);
    }
  }

  // ---------------------------------------------------------------- what is left to do

  /** The migrations of the list that do not count as done, in its order. */
  function MissingOf(ms: seq<Migration>, done: set<string>): seq<Migration> {
    if ms == [] then []
    else MissingOf(ms[..|ms| - 1], done) + if ms[|ms| - 1].id in done then [] else [ms[|ms| - 1]]
  }

  lemma MissingMore(ms: seq<Migration>, done: set<string>, i: nat)
    requires i < |ms|
    ensures MissingOf(ms[..i + 1], done) == MissingOf(ms[..i], done) + if ms[i].id in done then [] else [ms[i]]
  {
    assert ms[..i + 1][..i] == ms[..i];
  }

  lemma {:induction false} MissingSoFar(ms: seq<Migration>, done: set<string>, i: nat)
    requires i <= |ms|
    ensures MissingOf(ms[..i], done) <= MissingOf(ms, done)
  {
    if i < |ms| {
      assert ms[..|ms| - 1][..i] == ms[..i];
      MissingSoFar(ms[..|ms| - 1], done, i);
    } else {
      assert ms[..i] == ms;
    }
  }

  /** A migration that is not done stands among the missing ones where those before it end. */
  lemma NextMissing(ms: seq<Migration>, done: set<string>, i: nat)
    requires i < |ms|
    ensures var r := |MissingOf(ms[..i], done)|;
      if ms[i].id in done then |MissingOf(ms[..i + 1], done)| == r
      else |MissingOf(ms[..i + 1], done)| == r + 1 <= |MissingOf(ms, done)| && MissingOf(ms, done)[r] == ms[i]
  {
    MissingMore(ms, done, i);
    MissingSoFar(ms, done, i + 1);
  }

  lemma {:induction false} MissingHas(ms: seq<Migration>, done: set<string>, m: Migration)
    ensures m in MissingOf(ms, done) <==> m in ms && m.id !in done
  {
    if ms != [] {
      assert ms == ms[..|ms| - 1] + [ms[|ms| - 1]];
      MissingHas(ms[..|ms| - 1], done, m);
    }
  }

  /** When just the first n are done, the rest is missing. */
  lemma {:induction false} RestIsMissing(ms: seq<Migration>, done: set<string>, n: nat, k: nat)
    requires n <= |ms| && k <= |ms| && forall i :: 0 <= i < |ms| ==> (ms[i].id in done <==> i < n)
    ensures MissingOf(ms[..k], done) == if k <= n then [] else ms[n..k]
    decreases k
  {
    if k > 0 {
      var l := k - 1;
      RestIsMissing(ms, done, n, l);
      MissingMore(ms, done, l);
      OneMoreOfRest(ms, n, l);
    }
  }

  lemma OneMoreOfRest(ms: seq<Migration>, n: nat, l: nat)
    requires n <= |ms| && l < |ms|
    ensures n <= l ==> ms[n..l + 1] == ms[n..l] + [ms[l]]
  {
  }

  // ---------------------------------------------------------------- steps taken

  /** Step n + r is what the fate of the r-th migration left to do makes of the schema it found, and no failure. */
  ghost predicate StepTaken<S>(acts: Actions<S>, initial: S, todo: seq<Migration>, fates: string -> Fate,
                               history: seq<Step>, n: nat, r: nat)
    requires r < |todo| && n + r < |history|
  {
    var found, m := Schema(acts, initial, history[..n + r]), todo[r];
    history[n + r] == StepOf(acts, found, m, fates(m.id)) && !Fails(acts, found, m, fates(m.id))
  }

  /** The steps from n on are what the fates make of what was left to do, in its order, each of the
      schema it found, none of them a failure. */
  ghost predicate StepsTaken<S>(acts: Actions<S>, initial: S, todo: seq<Migration>, fates: string -> Fate,
                                history: seq<Step>, n: nat) {
    && n <= |history| <= n + |todo|
    && forall r :: 0 <= r < |history| - n ==> StepTaken(acts, initial, todo, fates, history, n, r)
  }

  lemma OneMoreStep<S>(acts: Actions<S>, initial: S, todo: seq<Migration>, fates: string -> Fate, history: seq<Step>,
                       n: nat, step: Step)
    requires StepsTaken(acts, initial, todo, fates, history, n) && |history| < n + |todo|
    requires var m := todo[|history| - n];
      && step == StepOf(acts, Schema(acts, initial, history), m, fates(m.id))
      && !Fails(acts, Schema(acts, initial, history), m, fates(m.id))
    ensures StepsTaken(acts, initial, todo, fates, history + [step], n)
  {
    var more := history + [step];
    assert more[..|history|] == history;
    forall r | 0 <= r < |history| - n
      ensures StepTaken(acts, initial, todo, fates, more, n, r)
    {
      assert StepTaken(acts, initial, todo, fates, history, n, r);
      assert more[..n + r] == history[..n + r];
    }
    assert StepTaken(acts, initial, todo, fates, more, n, |history| - n);
  }

  /** The ids of the steps taken are those of what was left to do. */
  lemma {:induction false} TakenIds<S>(acts: Actions<S>, initial: S, todo: seq<Migration>, fates: string -> Fate,
                                       history: seq<Step>, n: nat)
    requires StepsTaken(acts, initial, todo, fates, history, n)
    ensures StepIds(history) == StepIds(history[..n]) + IdsOfAll(todo[..|history| - n])
  {
    forall r | 0 <= r < |history| - n
      ensures history[n + r].id == todo[r].id
    {
      assert StepTaken(acts, initial, todo, fates, history, n, r);
    }
  }

  lemma AllTakenIds<S>(acts: Actions<S>, initial: S, todo: seq<Migration>, fates: string -> Fate, history: seq<Step>,
                       steps: seq<Step>)
    requires StepsTaken(acts, initial, todo, fates, history, |steps|) && history[..|steps|] == steps
    requires |history| == |steps| + |todo|
    ensures StepIds(history) == StepIds(steps) + IdsOfAll(todo)
  {
    TakenIds(acts, initial, todo, fates, history, |steps|);
    assert todo[..|todo|] == todo;
  }

  /** Steps, schema and log after some steps of one start. */
  ghost predicate Underway<S>(acts: Actions<S>, initial: S, todo: seq<Migration>, fates: string -> Fate,
                              before: seq<LogRow>, n: nat, history: seq<Step>, schema: S, log: seq<LogRow>)
  {
    && StepsTaken(acts, initial, todo, fates, history, n)
    && schema == Schema(acts, initial, history)
    && log == before + NewRows(todo, fates, |history| - n)
  }

  lemma UnderwayMore<S>(acts: Actions<S>, initial: S, todo: seq<Migration>, fates: string -> Fate, before: seq<LogRow>,
                        n: nat, history: seq<Step>, schema: S, log: seq<LogRow>)
    requires Underway(acts, initial, todo, fates, before, n, history, schema, log) && |history| < n + |todo|
    requires !Fails(acts, schema, todo[|history| - n], fates(todo[|history| - n].id))
    ensures var m := todo[|history| - n]; var step := StepOf(acts, schema, m, fates(m.id));
      Underway(acts, initial, todo, fates, before, n, history + [step], Take(acts, schema, step),
               log + RowIf(fates(m.id).recorded, m.id, true))
  {
    var m := todo[|history| - n];
    var step := StepOf(acts, schema, m, fates(m.id));
    OneMoreStep(acts, initial, todo, fates, history, n, step);
    SchemaMore(acts, initial, history, step);
    RowsMore(todo, fates, before, |history| - n);
  }

  /** The condition of migration j was met when nothing had gone wrong before, but could not be asked. */
  predicate Unasked<S>(acts: Actions<S>, initial: S, ms: seq<Migration>, j: nat, fate: Fate)
    requires j < |ms|
  {
    ms[j].conditional && fate.queryFails && acts.met(Fold(acts, initial, ms[..j]), ms[j].id)
  }

  /** The first k steps are those of an uninterrupted run. */
  ghost predicate AsUninterrupted<S>(acts: Actions<S>, initial: S, ms: seq<Migration>, history: seq<Step>, k: nat)
    requires k <= |history| && k <= |ms|
  {
    history[..k] == FoldSteps(acts, initial, ms[..k])
  }

  ghost predicate AllAsked<S>(acts: Actions<S>, initial: S, ms: seq<Migration>, fates: seq<Fate>, n: nat, k: nat)
    requires k <= |fates| <= |ms|
  {
    forall j :: n <= j < k ==> !Unasked(acts, initial, ms, j, fates[j])
  }

  lemma OneMoreAsked<S>(acts: Actions<S>, initial: S, ms: seq<Migration>, fates: seq<Fate>, n: nat, k: nat)
    requires n <= k < |fates| <= |ms|
    ensures AllAsked(acts, initial, ms, fates, n, k + 1) <==>
              AllAsked(acts, initial, ms, fates, n, k) && !Unasked(acts, initial, ms, k, fates[k])
  {
  }

  /** Interrupted or not, the steps are those of an uninterrupted run in which nothing goes wrong if and
      only if every condition that was met could be asked; FoldStepsMakeTheFold tells their schema. */
  lemma {:induction false} StepsMakeTheFold<S>(acts: Actions<S>, initial: S, ms: seq<Migration>, history: seq<Step>,
                                               fates: seq<Fate>, n: nat, k: nat)
    requires n <= k <= |history| == |fates| <= |ms|
    requires forall j {:trigger fates[j]} :: n <= j < |history| ==>
               history[j] == StepOf(acts, Schema(acts, initial, history[..j]), ms[j], fates[j])
    requires AsUninterrupted(acts, initial, ms, history, n)
    ensures AsUninterrupted(acts, initial, ms, history, k) <==> AllAsked(acts, initial, ms, fates, n, k)
    decreases k
  {
    if n < k {
      var l := k - 1;
      StepsMakeTheFold(acts, initial, ms, history, fates, n, l);
      OneStepMore(acts, initial, ms, history, fates[l], l);
      OneMoreAsked(acts, initial, ms, fates, n, l);
    }
  }

  lemma OneStepMore<S>(acts: Actions<S>, initial: S, ms: seq<Migration>, history: seq<Step>, fate: Fate, k: nat)
    requires k < |history| <= |ms|
    requires history[k] == StepOf(acts, Schema(acts, initial, history[..k]), ms[k], fate)
    ensures AsUninterrupted(acts, initial, ms, history, k + 1) <==>
              AsUninterrupted(acts, initial, ms, history, k) && !Unasked(acts, initial, ms, k, fate)
  {
    var steps, front := FoldSteps(acts, initial, ms[..k]), history[..k];
    var clean := StepOf(acts, Schema(acts, initial, steps), ms[k], Fate(NoFault, false, true));
    assert FoldSteps(acts, initial, ms[..k + 1]) == steps + [clean] by {
      assert ms[..k + 1] == ms[..k] + [ms[k]];
      FoldStepsMore(acts, initial, ms[..k], ms[k]);
    }
    assert history[..k + 1] == front + [history[k]];
    assert Schema(acts, initial, steps) == Fold(acts, initial, ms[..k]) && |steps| == k by {
      FoldStepsMakeTheFold(acts, initial, ms[..k]);
    }
    SameOneMore(front, steps, history[k], clean);
    CleanJustWhen(acts, Schema(acts, initial, steps), ms[k], fate);
  }

  /** A step is as it would be when nothing goes wrong unless a condition that is met cannot be asked. */
  lemma CleanJustWhen<S>(acts: Actions<S>, found: S, m: Migration, fate: Fate)
    ensures StepOf(acts, found, m, fate) == StepOf(acts, found, m, Fate(NoFault, false, true)) <==>
              !(m.conditional && fate.queryFails && acts.met(found, m.id))
  {
  }

  lemma SameOneMore(a: seq<Step>, b: seq<Step>, x: Step, y: Step)
    requires |a| == |b|
    ensures a + [x] == b + [y] <==> a == b && x == y
  {
    if a + [x] == b + [y] {
      assert (a + [x])[..|a|] == a && (b + [y])[..|b|] == b;
      assert (a + [x])[|a|] == x && (b + [y])[|b|] == y;
    }
  }

  // ---------------------------------------------------------------- the migrator

  class Migrator<S(!new)> {
    const acts: Actions<S>
    const initial: S
    var migrations: seq<Migration>
    var log: seq<LogRow>        // the migration_log table
    var schema: S               // everything else in the database
    var history: seq<Step>      // the migrations that were committed or skipped, ever

    constructor (acts: Actions<S>, schema: S)
      ensures this.acts == acts && initial == this.schema == schema
      ensures migrations == [] && log == [] && history == [] && Resumable() && Faithful()
    {
      this.acts, initial, this.schema := acts, schema, schema;
      migrations, log, history := [], [], [];
    }

    /** Appends to the list; what was done of it stays done. */
    method AddMigration(id: string, conditional: bool)
      modifies this`migrations
      ensures migrations == old(migrations) + [Migration(id, conditional)]
      ensures old(Resumable()) ==> Resumable()
      ensures old(Resumable() && Faithful()) ==> Faithful()
    {
      migrations := migrations + [Migration(id, conditional)];
      assert |history| <= |old(migrations)| ==> migrations[..|history|] == old(migrations)[..|history|];
    }

    /** The migrations that count as done: those with a successful record. */
    method GetMigrationLog() returns (done: set<string>)
      ensures done == Elements(Recorded(log))
    {
      done := {};
      for i := 0 to |log|
        invariant done == Elements(Recorded(log[..i]))
      {
        assert log[..i + 1] == log[..i] + [log[i]];
        RecordedOneMore(log[..i], log[i]);
        if !log[i].success {
          continue;
        }
        done := done + {log[i].migrationId};
      }
      assert log[..|log|] == log;
    }

    /** One migration in its transaction: rolled back on an error, wherever it occurs, and on an unmet
        condition, which is no error. */
    method Exec(m: Migration, fate: Fate) returns (ok: bool)
      modifies this`history, this`schema
      ensures var skipped := m.conditional && (fate.queryFails || !acts.met(old(schema), m.id));
        && (ok <==> fate.fault == NoFault || (skipped && fate.fault != BeginFails))
        && history == old(history) + (if ok then [Step(m.id, skipped)] else [])
        && schema == if ok && !skipped then acts.followUp(acts.statement(old(schema), m.id), m.id) else old(schema)
    {
      if fate.fault == BeginFails {
        return false;
      }
      var begun := schema;
      if m.conditional && (fate.queryFails || !acts.met(schema, m.id)) {
        schema := begun;
        history := history + [Step(m.id, true)];
        return true;
      }
      schema := acts.statement(schema, m.id);
      if fate.fault == StatementFails {
        schema := begun;
        return false;
      }
      schema := acts.followUp(schema, m.id);
      if fate.fault == FollowUpFails || fate.fault == CommitFails {
        schema := begun;
        return false;
      }
      history := history + [Step(m.id, false)];
      ok := true;
    }

    /** The schema is what the steps taken made of the initial one. */
    ghost predicate Consistent()
      reads this
    {
      schema == Schema(acts, initial, history)
    }

    /** Log, steps and schema agree: the successful records, and the steps taken, are both exactly the
        first migrations of the list, once each and in order, and the schema is what they made. */
    ghost predicate Resumable()
      reads this
    {
      && |history| <= |migrations|
      && StepIds(history) == IdsOfAll(migrations[..|history|])
      && Recorded(log) == StepIds(history)
      && Consistent()
    }

    /** The steps taken are those of a run that is never interrupted and in which nothing goes wrong. */
    ghost predicate Faithful()
      requires |history| <= |migrations|
      reads this
    {
      history == FoldSteps(acts, initial, migrations[..|history|])
    }

    ghost predicate DistinctMigrations()
      reads this`migrations
    {
      NoRepeats(IdsOfAll(migrations))
    }

    /** What the next start will execute. */
    function Todo(): seq<Migration>
      reads this`migrations, this`log
    {
      MissingOf(migrations, Elements(Recorded(log)))
    }

    /** Executes the next migration left to do and records how it went. */
    method RunNext(m: Migration, fates: string -> Fate, ghost todo: seq<Migration>, ghost before: seq<LogRow>,
                   ghost n: nat)
      returns (ok: bool)
      requires Underway(acts, initial, todo, fates, before, n, history, schema, log)
      requires |history| < n + |todo| && todo[|history| - n] == m
      modifies this`log, this`history, this`schema
      ensures ok ==> && |history| == |old(history)| + 1 && history[..|old(history)|] == old(history)
                     && Underway(acts, initial, todo, fates, before, n, history, schema, log)
      ensures !ok ==> && history == old(history) && schema == old(schema) && Fails(acts, schema, m, fates(m.id))
                      && log == old(log) + RowIf(fates(m.id).recorded, m.id, false)
    {
      ghost var steps, found, rows := history, schema, log;
      var fate := fates(m.id);
      ok := Exec(m, fate);
      if fate.recorded {
        log := log + [LogRow(m.id, ok)];
      } else {
        assert log == rows + [];
      }
      if ok {
        UnderwayMore(acts, initial, todo, fates, before, n, steps, found, rows);
      }
    }

    /** The loop of Start; rows is the log without the record of the failure that ended it. */
    method TakeSteps(fates: string -> Fate) returns (ok: bool, ghost rows: seq<LogRow>)
      requires Consistent()
      modifies this`log, this`history, this`schema
      ensures |old(history)| <= |history| && history[..|old(history)|] == old(history)
      ensures Underway(acts, initial, old(Todo()), fates, old(log), |old(history)|, history, schema, rows)
      ensures ok <==> |history| == |old(history)| + |old(Todo())|
      ensures ok ==> log == rows
      ensures !ok ==> var m := old(Todo())[|history| - |old(history)|];
                      Fails(acts, schema, m, fates(m.id)) && log == rows + RowIf(fates(m.id).recorded, m.id, false)
    {
      var done := GetMigrationLog();
      ghost var n, todo := |history|, Todo();
      rows := log;
      assert Underway(acts, initial, todo, fates, log, n, history, schema, log) by {
        assert log + [] == log;
      }
      for i := 0 to |migrations|
        invariant n <= |history| && history[..n] == old(history)
        invariant |history| == n + |MissingOf(migrations[..i], done)|
        invariant Underway(acts, initial, todo, fates, old(log), n, history, schema, rows) && log == rows
      {
        NextMissing(migrations, done, i);
        if migrations[i].id in done {
          continue;
        }
        ok := RunNext(migrations[i], fates, todo, old(log), n);
        if !ok {
          return;
        }
        rows := log;
      }
      assert migrations[..|migrations|] == migrations;
      ok := true;
    }

    /** What a start did to a resumable state with n steps: the steps are the first of the list again,
        and the state stays resumable exactly when no record of a success was lost. */
    ghost predicate Resumed(fates: string -> Fate, n: nat, ok: bool)
      requires n <= |history|
      reads this
    {
      && |history| <= |migrations| && StepIds(history) == IdsOfAll(migrations[..|history|])
      && (ok <==> |history| == |migrations|)
      && (Resumable() <==> AllRecorded(migrations[n..], fates, |history| - n))
      && (!Resumable() ==> exists i :: 0 <= i < |history| && history[i].id !in Recorded(log))
    }

    /** How each step went, when those from n on were taken in one start. */
    ghost function Fates(fates: string -> Fate): seq<Fate>
      requires |history| <= |migrations|
      reads this
    {
      var ms := migrations;
      seq(|history|, j requires 0 <= j < |ms| => fates(ms[j].id))
    }

    /** From whatever log: what does not count as done is executed in the order of the list up to the
        first failure, which leaves the schema as it was. From a resumable state that is the rest of
        the list; the state stays resumable exactly when no record of a success was lost, and faithful
        exactly when every condition that was met could be asked. */
    method Start(fates: string -> Fate) returns (ok: bool)
      requires Consistent()
      modifies this`log, this`history, this`schema
      ensures Consistent() && |old(history)| <= |history| && history[..|old(history)|] == old(history)
      ensures StepsTaken(acts, initial, old(Todo()), fates, history, |old(history)|)
      ensures ok <==> |history| == |old(history)| + |old(Todo())|
      ensures ok ==> StepIds(history) == old(StepIds(history)) + IdsOfAll(old(Todo()))
      ensures !ok ==> var m := old(Todo())[|history| - |old(history)|]; Fails(acts, schema, m, fates(m.id))
      ensures log == old(log) + NewRows(old(Todo()), fates, |history| - |old(history)|)
                     + if ok then []
                       else var m := old(Todo())[|history| - |old(history)|]; RowIf(fates(m.id).recorded, m.id, false)
      ensures old(DistinctMigrations() && Resumable()) ==>
                && old(Todo()) == migrations[|old(history)|..] && Resumed(fates, |old(history)|, ok)
                && (old(Faithful()) ==>
                      (Faithful() <==> AllAsked(acts, initial, migrations, Fates(fates), |old(history)|, |history|)))
      ensures old(Todo()) == [] ==> ok && log == old(log) && history == old(history) && schema == old(schema)
    {
      ghost var n, todo, before := |history|, Todo(), log;
      ghost var prefix, steps := DistinctMigrations() && Resumable(), history;
      if prefix {
        RestIsTodo();
      }
      ghost var rows;
      ok, rows := TakeSteps(fates);
      assert rows + [] == rows && history[..n] == steps;
      assert ok ==> StepIds(history) == StepIds(steps) + IdsOfAll(todo) by {
        if ok {
          AllTakenIds(acts, initial, todo, fates, history, steps);
        }
      }
      if prefix {
        FromResumable(fates, before, n, rows, ok);
      }
    }

    /** In a resumable state the rest of the list is left to do. */
    lemma RestIsTodo()
      requires DistinctMigrations() && Resumable()
      ensures Todo() == migrations[|history|..]
    {
      DoneIsPrefix();
      RestIsMissing(migrations, Elements(Recorded(log)), |history|, |migrations|);
      assert migrations[..|migrations|] == migrations;
      assert Todo() == migrations[|history|..];
    }

    /** The new records leave a resumable state exactly when none of a success was lost. */
    lemma Settled(fates: string -> Fate, before: seq<LogRow>, n: nat, rows: seq<LogRow>, ok: bool)
      requires DistinctMigrations() && n <= |migrations|
      requires n <= |history| <= |migrations| && Consistent()
      requires StepIds(history) == StepIds(history[..n]) + IdsOfAll(migrations[n..][..|history| - n])
      requires rows == before + NewRows(migrations[n..], fates, |history| - n)
      requires Recorded(before) == IdsOfAll(migrations[..n]) == StepIds(history[..n])
      requires ok <==> |history| == |migrations|
      requires log == rows
                      + if ok then []
                        else RowIf(fates(migrations[|history|].id).recorded, migrations[|history|].id, false)
      ensures Resumed(fates, n, ok)
    {
      assert StepIds(history) == IdsOfAll(migrations[..|history|]) by {
        IdsJoin(migrations, n, |history|);
      }
      SettledLog(migrations, fates, before, n, |history|, rows, log, ok);
      LostStepIsForgotten();
    }

    /** A start from a resumable state, over the values it found and left. */
    lemma FromResumable(fates: string -> Fate, before: seq<LogRow>, n: nat, rows: seq<LogRow>, ok: bool)
      requires DistinctMigrations() && n <= |migrations|
      requires Underway(acts, initial, migrations[n..], fates, before, n, history, schema, rows)
      requires Recorded(before) == IdsOfAll(migrations[..n]) == StepIds(history[..n])
      requires ok <==> |history| == |migrations|
      requires log == rows
                      + if ok then []
                        else RowIf(fates(migrations[|history|].id).recorded, migrations[|history|].id, false)
      ensures Resumed(fates, n, ok)
      ensures history[..n] == FoldSteps(acts, initial, migrations[..n]) ==>
                (Faithful() <==> AllAsked(acts, initial, migrations, Fates(fates), n, |history|))
    {
      TakenIds(acts, initial, migrations[n..], fates, history, n);
      Settled(fates, before, n, rows, ok);
      StaysFaithful(fates, n);
    }

    /** The new steps are those of an uninterrupted run exactly when every condition that was met could
        be asked. */
    lemma StaysFaithful(fates: string -> Fate, n: nat)
      requires n <= |history| <= |migrations| && StepsTaken(acts, initial, migrations[n..], fates, history, n)
      ensures history[..n] == FoldSteps(acts, initial, migrations[..n]) ==>
                (Faithful() <==> AllAsked(acts, initial, migrations, Fates(fates), n, |history|))
    {
      var how := Fates(fates);
      if history[..n] == FoldSteps(acts, initial, migrations[..n]) {
        forall j | n <= j < |history|
          ensures history[j] == StepOf(acts, Schema(acts, initial, history[..j]), migrations[j], how[j])
        {
          assert migrations[n..][j - n] == migrations[j];
          assert StepTaken(acts, initial, migrations[n..], fates, history, n, j - n);
        }
        StepsMakeTheFold(acts, initial, migrations, history, how, n, |history|);
        assert history[..|history|] == history;
      }
    }

    /** A step whose record was lost does not count as done: the next start would take it again. */
    lemma LostStepIsForgotten()
      requires |history| <= |migrations| && StepIds(history) == IdsOfAll(migrations[..|history|])
      requires DistinctMigrations()
      ensures |Recorded(log)| < |history| ==> exists i :: 0 <= i < |history| && history[i].id !in Recorded(log)
    {
      var ids := StepIds(history);
      forall i, j | 0 <= i < j < |ids|
        ensures ids[i] != ids[j]
      {
        assert ids[i] == IdsOfAll(migrations)[i] && ids[j] == IdsOfAll(migrations)[j];
      }
      SizeOfDistinct(ids);
      SizeOfElements(Recorded(log));
      if forall i :: 0 <= i < |history| ==> history[i].id in Recorded(log) {
        assert forall i :: 0 <= i < |ids| ==> ids[i] == history[i].id;
        assert Elements(ids) <= Elements(Recorded(log));
        var more := Elements(Recorded(log)) - Elements(ids);
        assert Elements(Recorded(log)) == Elements(ids) + more;
      }
    }

    /** In a resumable state the done migrations are the first ones of the list. */
    lemma DoneIsPrefix()
      requires DistinctMigrations() && Resumable()
      ensures forall i :: 0 <= i < |migrations| ==> (migrations[i].id in Elements(Recorded(log)) <==> i < |history|)
    {
      var ids := IdsOfAll(migrations);
      forall i | 0 <= i < |migrations|
        ensures migrations[i].id in Recorded(log) <==> i < |history|
      {
        if i < |history| {
          assert Recorded(log)[i] == migrations[i].id;
        } else {
          forall j | 0 <= j < |history|
            ensures Recorded(log)[j] != migrations[i].id
          {
            assert Recorded(log)[j] == ids[j] && ids[j] != ids[i];
          }
        }
      }
    }

    /** A first part of the list repeats nothing. */
    lemma FirstPartIsDistinct(n: nat)
      requires DistinctMigrations() && n <= |migrations|
      ensures NoRepeats(IdsOfAll(migrations[..n]))
    {
      assert forall i :: 0 <= i < n ==> IdsOfAll(migrations[..n])[i] == IdsOfAll(migrations)[i];
    }

    /** A step of the list whose record was lost is left to do again. */
    lemma LostStepIsLeftToDo(i: nat) returns (q: nat)
      requires i < |history| <= |migrations| && StepIds(history) == IdsOfAll(migrations[..|history|])
      requires history[i].id !in Recorded(log)
      ensures q < |Todo()| && Todo()[q].id == history[i].id
    {
      assert StepIds(history)[i] == migrations[i].id;
      MissingHas(migrations, Elements(Recorded(log)), migrations[i]);
      q :| 0 <= q < |Todo()| && Todo()[q] == migrations[i];
    }

    /** Two starts, the second of which gets through: no migration is taken twice if and only if the
        first lost no record of a success; r is how many migrations the first one took. */
    method StartTwice(first: string -> Fate, second: string -> Fate) returns (ok: bool, ghost r: nat)
      requires DistinctMigrations() && Resumable()
      modifies this`log, this`history, this`schema
      ensures r <= |old(Todo())| && |old(history)| + r <= |history|
      ensures StepsTaken(acts, initial, old(Todo()), first, history[..|old(history)| + r], |old(history)|)
      ensures ok ==> (NoRepeats(StepIds(history)) <==> AllRecorded(old(Todo()), first, r))
    {
      ghost var n := |history|;
      var _ := Start(first);
      r := |history| - n;
      assert history[..n + r] == history;
      ghost var resumable := Resumable();
      ok := StartAgain(second);
    }

    /** The second of two starts: it takes something again exactly when the first did not leave a
        resumable state. */
    method StartAgain(second: string -> Fate) returns (ok: bool)
      requires DistinctMigrations() && Consistent() && |history| <= |migrations|
      requires StepIds(history) == IdsOfAll(migrations[..|history|])
      requires !Resumable() ==> exists i :: 0 <= i < |history| && history[i].id !in Recorded(log)
      modifies this`log, this`history, this`schema
      ensures |old(history)| <= |history| && history[..|old(history)|] == old(history)
      ensures ok ==> (NoRepeats(StepIds(history)) <==> old(Resumable()))
    {
      ghost var steps, left, resumable := history, Todo(), Resumable();
      ghost var lost, again: nat := 0, 0;
      if !resumable {
        lost :| 0 <= lost < |history| && history[lost].id !in Recorded(log);
        again := LostStepIsLeftToDo(lost);
      }
      ok := Start(second);
      if ok {
        if resumable {
          assert Resumed(second, |steps|, ok);
          FirstPartIsDistinct(|history|);
        } else {
          assert StepIds(history) == StepIds(steps) + IdsOfAll(left);
          Repeats(StepIds(steps), IdsOfAll(left), lost, again);
        }
      }
    }

    /** Any number of starts, each failing wherever and however it may, with no record of a success
        lost: the steps taken are always the first migrations of the list, each once and in order, and
        the schema is what they made; how tells how each step went. They are the steps of a run that is
        never interrupted, and the schema is the one it makes, exactly when every condition that was
        met could be asked; and once a start has succeeded, the next ones change nothing. */
    method Upgrade(starts: seq<string -> Fate>) returns (ok: bool, ghost how: seq<Fate>)
      requires DistinctMigrations() && Resumable()
      requires forall s, m, found :: s in starts && m in migrations && !Fails(acts, found, m, s(m.id)) ==>
                 s(m.id).recorded
      modifies this`log, this`history, this`schema
      ensures Resumable()
      ensures |old(history)| <= |history| == |how| && history[..|old(history)|] == old(history)
      ensures ok ==> |history| == |migrations|
      ensures WentLike(starts, how, |old(history)|)
      ensures old(Faithful()) ==>
                (Faithful() <==> AllAsked(acts, initial, migrations, how, |old(history)|, |history|))
      ensures Faithful() ==> schema == Fold(acts, initial, migrations[..|history|])
      ensures |old(history)| == |migrations| ==> log == old(log) && history == old(history) && schema == old(schema)
    {
      ok := false;
      ghost var n := |history|;
      how := seq(n, _ => Fate(NoFault, false, true));
      for i := 0 to |starts|
        invariant Resumable() && n <= |history| == |how| && history[..n] == old(history)
        invariant ok ==> |history| == |migrations|
        invariant WentLike(starts, how, n)
        invariant n == |migrations| ==> log == old(log) && history == old(history) && schema == old(schema)
      {
        ok, how := StartOnce(starts, i, how, n);
      }
      FaithfulJustWhen(how, n);
    }

    /** One start among several. */
    method StartOnce(starts: seq<string -> Fate>, i: nat, ghost how: seq<Fate>, ghost n: nat)
      returns (ok: bool, ghost more: seq<Fate>)
      requires DistinctMigrations() && Resumable() && i < |starts| && n <= |history| == |how|
      requires forall m, found :: m in migrations && !Fails(acts, found, m, starts[i](m.id)) ==>
                 starts[i](m.id).recorded
      requires WentLike(starts, how, n)
      modifies this`log, this`history, this`schema
      ensures Resumable() && |old(history)| <= |history| == |more| && history[..|old(history)|] == old(history)
      ensures ok ==> |history| == |migrations|
      ensures WentLike(starts, more, n)
      ensures |old(history)| == |migrations| ==> log == old(log) && history == old(history) && schema == old(schema)
    {
      ghost var steps := history;
      RestIsTodo();
      ok := Start(starts[i]);
      assert Resumed(starts[i], |steps|, ok);
      assert Resumable() by {
        TakenAreRecorded(starts[i], |steps|);
      }
      more := how + Fates(starts[i])[|steps|..];
      assert WentLike(starts, more, n) by {
        WentOn(starts, i, how, more, steps, n);
      }
    }

    lemma FaithfulJustWhen(how: seq<Fate>, n: nat)
      requires n <= |history| == |how| && |history| <= |migrations| && Consistent()
      requires forall j {:trigger how[j]} :: n <= j < |history| ==>
                 history[j] == StepOf(acts, Schema(acts, initial, history[..j]), migrations[j], how[j])
      ensures history[..n] == FoldSteps(acts, initial, migrations[..n]) ==>
                (Faithful() <==> AllAsked(acts, initial, migrations, how, n, |history|))
      ensures Faithful() ==> schema == Fold(acts, initial, migrations[..|history|])
    {
      if history[..n] == FoldSteps(acts, initial, migrations[..n]) {
        StepsMakeTheFold(acts, initial, migrations, history, how, n, |history|);
      }
      assert history[..|history|] == history;
      FoldStepsMakeTheFold(acts, initial, migrations[..|history|]);
    }

    /** Each step from n on went as one of the starts had it. */
    ghost predicate WentLike(starts: seq<string -> Fate>, how: seq<Fate>, n: nat)
      requires |history| == |how| && |history| <= |migrations|
      reads this
    {
      forall j {:trigger how[j]} :: n <= j < |history| ==>
        && history[j] == StepOf(acts, Schema(acts, initial, history[..j]), migrations[j], how[j])
        && exists i :: 0 <= i < |starts| && how[j] == starts[i](migrations[j].id)
    }

    lemma WentOn(starts: seq<string -> Fate>, i: nat, was: seq<Fate>, how: seq<Fate>, steps: seq<Step>, n: nat)
      requires i < |starts| && n <= |steps| == |was| <= |history| == |how| && |history| <= |migrations|
      requires history[..|steps|] == steps && how == was + Fates(starts[i])[|steps|..]
      requires forall j {:trigger was[j]} :: n <= j < |steps| ==>
        && steps[j] == StepOf(acts, Schema(acts, initial, steps[..j]), migrations[j], was[j])
        && exists l :: 0 <= l < |starts| && was[j] == starts[l](migrations[j].id)
      requires StepsTaken(acts, initial, migrations[|steps|..], starts[i], history, |steps|)
      ensures WentLike(starts, how, n)
    {
      forall j | n <= j < |history|
        ensures history[j] == StepOf(acts, Schema(acts, initial, history[..j]), migrations[j], how[j])
        ensures exists l :: 0 <= l < |starts| && how[j] == starts[l](migrations[j].id)
      {
        if j < |steps| {
          assert history[j] == steps[j] && history[..j] == steps[..j] && how[j] == was[j];
        } else {
          assert migrations[|steps|..][j - |steps|] == migrations[j];
          assert StepTaken(acts, initial, migrations[|steps|..], starts[i], history, |steps|, j - |steps|);
        }
      }
    }

    /** What a start took was recorded, if it records whatever does not fail. */
    lemma TakenAreRecorded(fates: string -> Fate, n: nat)
      requires n <= |history| <= |migrations| && StepsTaken(acts, initial, migrations[n..], fates, history, n)
      requires forall m, found :: m in migrations && !Fails(acts, found, m, fates(m.id)) ==> fates(m.id).recorded
      ensures AllRecorded(migrations[n..], fates, |history| - n)
    {
      forall j | 0 <= j < |history| - n
        ensures fates(migrations[n..][j].id).recorded
      {
        assert migrations[n..][j] == migrations[n + j] && migrations[n + j] in migrations;
        assert StepTaken(acts, initial, migrations[n..], fates, history, n, j);
      }
    }
  }

  // ---------------------------------------------------------------- what is executed

  /** What is sent to the database for a migration: its statement, and what its own code does after it. */
  datatype Effect = Ran(id: string) | FollowedUp(id: string)

  /** Actions that do no more than write down that they were executed; any condition will do. */
  ghost predicate WriteDown(acts: Actions<seq<Effect>>) {
    forall trace, id :: && acts.statement(trace, id) == trace + [Ran(id)]
                        && acts.followUp(trace, id) == trace + [FollowedUp(id)]
  }

  /** Each step that was not skipped, in order: its statement and then the code after it, once each. */
  function Effects(steps: seq<Step>): seq<Effect> {
    if steps == [] then []
    else
      var step := steps[|steps| - 1];
      Effects(steps[..|steps| - 1]) + if step.skipped then [] else [Ran(step.id), FollowedUp(step.id)]
  }

  lemma {:induction false} EffectsWrittenDown(acts: Actions<seq<Effect>>, initial: seq<Effect>, history: seq<Step>,
                                              n: nat)
    requires WriteDown(acts) && n <= |history|
    ensures Schema(acts, initial, history) == Schema(acts, initial, history[..n]) + Effects(history[n..])
  {
    if n == |history| {
      assert history[..n] == history && history[n..] == [];
    } else {
      var m := |history| - 1;
      assert history[..m][..n] == history[..n];
      assert history[n..][..m - n] == history[..m][n..];
      EffectsWrittenDown(acts, initial, history[..m], n);
    }
  }

  /** A start executes the statement and the code of every new step that was not skipped, in order and
      once each, and nothing of a step that failed or was skipped. */
  method StartWrittenDown(mg: Migrator<seq<Effect>>, fates: string -> Fate) returns (ok: bool)
    requires WriteDown(mg.acts) && mg.Consistent()
    modifies mg`log, mg`history, mg`schema
    ensures |old(mg.history)| <= |mg.history| && mg.history[..|old(mg.history)|] == old(mg.history)
    ensures mg.schema == old(mg.schema) + Effects(mg.history[|old(mg.history)|..])
  {
    ghost var n := |mg.history|;
    ok := mg.Start(fates);
    EffectsWrittenDown(mg.acts, mg.initial, mg.history, n);
  }

  /** And so do any number of starts of which no record of a success is lost. */
  method UpgradeWrittenDown(mg: Migrator<seq<Effect>>, starts: seq<string -> Fate>) returns (ok: bool)
    requires WriteDown(mg.acts) && mg.DistinctMigrations() && mg.Resumable()
    requires forall s, m, found :: s in starts && m in mg.migrations && !Fails(mg.acts, found, m, s(m.id)) ==>
               s(m.id).recorded
    modifies mg`log, mg`history, mg`schema
    ensures |old(mg.history)| <= |mg.history| <= |mg.migrations|
    ensures StepIds(mg.history) == IdsOfAll(mg.migrations[..|mg.history|])
    ensures mg.schema == old(mg.schema) + Effects(mg.history[|old(mg.history)|..])
  {
    ghost var n := |mg.history|;
    ghost var how;
    ok, how := mg.Upgrade(starts);
    EffectsWrittenDown(mg.acts, mg.initial, mg.history, n);
  }
}
