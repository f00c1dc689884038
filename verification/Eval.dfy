/** Judging a check from the error series its probes reported (executor.go, eval). */
module Eval {
  import opened Model

  /** The value of a data point: null (or empty), a number, or something that is neither. */
  datatype Point = NoValue | Value(v: real) | Garbage

  type Series = seq<Point>

  datatype Verdict = NoData | ParseError | Judged(state: EvalResult)

  // ---------------------------------------------------------------- meaning

  /** The values of a series with the nulls taken out. */
  ghost function Values(s: Series): seq<real> {
    if s == [] then []
    else
      var front, last := Values(s[..|s| - 1]), s[|s| - 1];
      if last.Value? then front + [last.v] else front
  }

  /** Some steps consecutive values are all positive. */
  ghost predicate HasStreak(vs: seq<real>, steps: int) {
    exists i :: 0 <= i <= |vs| && StreakAt(vs, steps, i)
  }

  ghost predicate StreakAt(vs: seq<real>, steps: int, i: int)
    requires 0 <= i <= |vs|
  {
    i + steps <= |vs| && forall j :: i <= j < i + steps ==> vs[j] > 0.0
  }

  ghost predicate HasGarbage(s: Series) {
    Garbage in s
  }

  ghost predicate Bad(s: Series, steps: int) {
    HasStreak(Values(s), steps)
  }

  /** How many of the series have a streak. */
  ghost function BadCount(res: seq<Series>, steps: int): nat {
    if res == [] then 0 else BadCount(res[..|res| - 1], steps) + if Bad(res[|res| - 1], steps) then 1 else 0
  }

  /** The declarative verdict. */
  ghost function Meaning(res: seq<Series>, health: HealthSettings): Verdict {
    if res == [] then NoData
    else if exists s :: s in res && HasGarbage(s) then ParseError
    else if forall s :: s in res ==> Values(s) == [] then Judged(EvalUnknown)
    else if BadCount(res, health.steps) >= health.numProbes then Judged(EvalCritical)
    else Judged(EvalOk)
  }

  // ---------------------------------------------------------------- the streak counters

  /** cur ends in exactly this many positive values; no run before it is longer than best. */
  ghost predicate Counted(vs: seq<real>, cur: nat, best: nat) {
    && cur <= |vs| && best <= |vs|
    && (forall j :: |vs| - cur <= j < |vs| ==> vs[j] > 0.0)
    && (cur < |vs| ==> vs[|vs| - cur - 1] <= 0.0)
    && HasStreak(vs, best)
    && (forall n: nat :: n > best && n > cur ==> !HasStreak(vs, n))
  }

  lemma StreakInPrefix(vs: seq<real>, v: real, n: int)
    ensures HasStreak(vs, n) ==> HasStreak(vs + [v], n)
    ensures v <= 0.0 && n > 0 && HasStreak(vs + [v], n) ==> HasStreak(vs, n)
  {
    var more := vs + [v];
    if HasStreak(vs, n) {
      var i :| 0 <= i <= |vs| && StreakAt(vs, n, i);
      assert StreakAt(more, n, i);
    }
    if v <= 0.0 && n > 0 && HasStreak(more, n) {
      var i :| 0 <= i <= |more| && StreakAt(more, n, i);
      assert more[|vs|] == v;
      assert forall j :: i <= j < i + n ==> more[j] == vs[j];
      assert StreakAt(vs, n, i);
    }
  }

  /** A positive value lengthens the current run by one; longer runs than both counters stay impossible. */
  lemma CountPositive(vs: seq<real>, v: real, cur: nat, best: nat)
    requires Counted(vs, cur, best) && v > 0.0
    ensures Counted(vs + [v], cur + 1, best)
  {
    var more := vs + [v];
    StreakInPrefix(vs, v, best);
    assert cur < |vs| ==> more[|vs| - cur - 1] <= 0.0;
    forall n: nat, i | n > best && n > cur + 1 && 0 <= i <= |more|
      ensures !StreakAt(more, n, i)
    {
      if i + n < |more| {
        assert !HasStreak(vs, n);
        assert !StreakAt(vs, n, i);
        var j :| i <= j < i + n && vs[j] <= 0.0;
        assert more[j] <= 0.0;
      }
    }
  }

  lemma CurrentIsStreak(vs: seq<real>, cur: nat, best: nat)
    requires Counted(vs, cur, best)
    ensures HasStreak(vs, cur)
  {
    assert StreakAt(vs, cur, |vs| - cur);
  }

  lemma CountOther(vs: seq<real>, v: real, cur: nat, best: nat)
    requires Counted(vs, cur, best) && v <= 0.0
    ensures Counted(vs + [v], 0, if cur > best then cur else best)
  {
    CurrentIsStreak(vs, cur, best);
    var longest := if cur > best then cur else best;
    StreakInPrefix(vs, v, longest);
    forall n: nat | n > longest
      ensures !HasStreak(vs + [v], n)
    {
      StreakInPrefix(vs, v, n);
    }
  }

  /** The longer of the two counters decides every question about streaks. */
  lemma LongestDecides(vs: seq<real>, cur: nat, best: nat, steps: int)
    requires Counted(vs, cur, best)
    ensures (if cur > best then cur else best) >= steps <==> HasStreak(vs, steps)
  {
    CurrentIsStreak(vs, cur, best);
    var longest := if cur > best then cur else best;
    if longest >= steps {
      var i :| 0 <= i <= |vs| && StreakAt(vs, longest, i);
      assert StreakAt(vs, steps, i);
    }
  }

  /** One series: does it have data, is it bad, is there garbage in it. */
  method ScanSeries(s: Series, steps: int) returns (ok: bool, hasData: bool, bad: bool)
    ensures ok <==> !HasGarbage(s)
    ensures ok ==> (hasData <==> Values(s) != [])
    ensures ok ==> (bad <==> Bad(s, steps))
  {
    var curStreak, maxStreak, nonNullPoints: nat := 0, 0, 0;
    assert StreakAt([], 0, 0);
    for i := 0 to |s|
      invariant Garbage !in s[..i]
      invariant Counted(Values(s[..i]), curStreak, maxStreak)
      invariant nonNullPoints == |Values(s[..i])|
    {
      assert s[..i + 1] == s[..i] + [s[i]];
      assert s[..i + 1][..i] == s[..i];
      match s[i]
      case NoValue =>
      case Garbage =>
        return false, false, false;
      case Value(v) =>
        nonNullPoints := nonNullPoints + 1;
        if v > 0.0 {
          CountPositive(Values(s[..i]), v, curStreak, maxStreak);
          curStreak := curStreak + 1;
        } else {
          CountOther(Values(s[..i]), v, curStreak, maxStreak);
          if curStreak > maxStreak {
            maxStreak := curStreak;
          }
          curStreak := 0;
        }
    }
    assert s[..|s|] == s;
    LongestDecides(Values(s), curStreak, maxStreak, steps);
    if curStreak > maxStreak {
      maxStreak := curStreak;
    }
    ok, hasData, bad := true, nonNullPoints > 0, maxStreak >= steps;
  }

  // ---------------------------------------------------------------- the verdict in terms of the points

  /** The positions of the numbers of s from a up to b. */
  ghost function NumbersIn(s: Series, a: int, b: int): set<int>
    requires 0 <= a <= b <= |s|
  {
    set i | a <= i < b && s[i].Value?
  }

  /** From a up to b every number is positive, and there are at least steps of them. */
  ghost predicate FailsBetween(s: Series, steps: int, a: int, b: int)
    requires 0 <= a <= b <= |s|
  {
    (forall i :: a <= i < b && s[i].Value? ==> s[i].v > 0.0) && |NumbersIn(s, a, b)| >= steps
  }

  ghost predicate FailsSomewhere(s: Series, steps: int) {
    exists a, b :: 0 <= a <= b <= |s| && FailsBetween(s, steps, a, b)
  }

  lemma {:induction false} ValuesJoin(s: Series, r: Series)
    ensures Values(s + r) == Values(s) + Values(r)
  {
    if r == [] {
      assert s + r == s;
    } else {
      assert (s + r)[..|s + r| - 1] == s + r[..|r| - 1];
      ValuesJoin(s, r[..|r| - 1]);
    }
  }

  lemma ValuesMore(s: Series, b: nat)
    requires b < |s|
    ensures Values(s[..b + 1]) == Values(s[..b]) + if s[b].Value? then [s[b].v] else []
  {
    assert s[..b + 1][..b] == s[..b];
  }

  /** The values from a up to b are the numbers there. */
  lemma {:induction false} ValuesBetween(s: Series, a: nat, b: nat)
    requires a <= b <= |s|
    ensures |Values(s[..b])| == |Values(s[..a])| + |NumbersIn(s, a, b)|
    ensures Values(s[..a]) <= Values(s[..b])
    ensures (forall j :: |Values(s[..a])| <= j < |Values(s[..b])| ==> Values(s[..b])[j] > 0.0) <==>
              forall i :: a <= i < b && s[i].Value? ==> s[i].v > 0.0
    decreases b
  {
    if a < b {
      ValuesBetween(s, a, b - 1);
      ValuesMore(s, b - 1);
      assert NumbersIn(s, a, b) == NumbersIn(s, a, b - 1) + if s[b - 1].Value? then {b - 1} else {};
      var less, more := Values(s[..b - 1]), Values(s[..b]);
      assert forall j :: 0 <= j < |less| ==> more[j] == less[j];
      if s[b - 1].Value? {
        assert more[|less|] == s[b - 1].v;
      }
      if forall j :: |Values(s[..a])| <= j < |more| ==> more[j] > 0.0 {
        assert forall j :: |Values(s[..a])| <= j < |less| ==> less[j] > 0.0;
      }
    }
  }

  /** Some prefix has exactly n of the values. */
  lemma {:induction false} PrefixWith(s: Series, n: nat, b: nat) returns (a: nat)
    requires b <= |s| && n <= |Values(s[..b])|
    ensures a <= b && |Values(s[..a])| == n
    decreases b
  {
    if n == |Values(s[..b])| {
      a := b;
    } else {
      ValuesMore(s, b - 1);
      a := PrefixWith(s, n, b - 1);
    }
  }

  /** With the nulls out there is a streak of steps positive values exactly when some stretch of the
      points holds at least steps numbers, all of them positive. */
  lemma StreakJustWhen(s: Series, steps: int)
    ensures HasStreak(Values(s), steps) <==> FailsSomewhere(s, steps)
  {
    var vs := Values(s);
    assert s[..|s|] == s;
    if i :| 0 <= i <= |vs| && StreakAt(vs, steps, i) {
      var until := if steps < 0 then i else i + steps;
      var b := PrefixWith(s, until, |s|);
      var a := PrefixWith(s, i, b);
      ValuesBetween(s, a, b);
      ValuesBetween(s, b, |s|);
      assert FailsBetween(s, steps, a, b);
    }
    if a, b :| 0 <= a <= b <= |s| && FailsBetween(s, steps, a, b) {
      ValuesBetween(s, a, b);
      ValuesBetween(s, b, |s|);
      assert StreakAt(vs, steps, |Values(s[..a])|);
    }
  }

  lemma {:induction false} NoValuesJustWhen(s: Series)
    ensures Values(s) == [] <==> forall p :: p in s ==> !p.Value?
  {
    if s != [] {
      var front, last := s[..|s| - 1], s[|s| - 1];
      assert s == front + [last];
      NoValuesJustWhen(front);
    }
  }

  /** The series that fail, by position. */
  ghost function FailingSeries(res: seq<Series>, steps: int): set<int> {
    set i | 0 <= i < |res| && FailsSomewhere(res[i], steps)
  }

  lemma {:induction false} BadCountIsSize(res: seq<Series>, steps: int)
    ensures BadCount(res, steps) == |FailingSeries(res, steps)|
  {
    if res != [] {
      var m := |res| - 1;
      BadCountIsSize(res[..m], steps);
      StreakJustWhen(res[m], steps);
      assert FailingSeries(res, steps) ==
             FailingSeries(res[..m], steps) + if FailsSomewhere(res[m], steps) then {m} else {};
    }
  }

  /** Every point of every series can be read. */
  ghost predicate Readable(res: seq<Series>) {
    forall s, p :: s in res && p in s ==> p != Garbage
  }

  /** Some series has a number. */
  ghost predicate HasNumbers(res: seq<Series>) {
    exists s :: s in res && exists p :: p in s && p.Value?
  }

  /** The verdict read off the points themselves. */
  lemma MeaningJustWhen(res: seq<Series>, health: HealthSettings)
    ensures Meaning(res, health) == NoData <==> res == []
    ensures Meaning(res, health) == ParseError <==> !Readable(res)
    ensures Meaning(res, health) == Judged(EvalUnknown) <==> res != [] && Readable(res) && !HasNumbers(res)
    ensures Meaning(res, health) == Judged(EvalCritical) <==>
              Readable(res) && HasNumbers(res) && |FailingSeries(res, health.steps)| >= health.numProbes
    ensures Meaning(res, health) == Judged(EvalOk) <==>
              Readable(res) && HasNumbers(res) && |FailingSeries(res, health.steps)| < health.numProbes
  {
    BadCountIsSize(res, health.steps);
    forall s | s in res
      ensures Values(s) == [] <==> forall p :: p in s ==> !p.Value?
    {
      NoValuesJustWhen(s);
    }
    assert (exists s :: s in res && HasGarbage(s)) <==> !Readable(res);
  }

  /** eval: what the points say, in whatever way the loops count. */
  method Evaluate(res: seq<Series>, health: HealthSettings) returns (verdict: Verdict)
    ensures verdict == Meaning(res, health)
    ensures verdict == NoData <==> res == []
    ensures verdict == ParseError <==> !Readable(res)
    ensures verdict == Judged(EvalUnknown) <==> res != [] && Readable(res) && !HasNumbers(res)
    ensures verdict == Judged(EvalCritical) <==>
              Readable(res) && HasNumbers(res) && |FailingSeries(res, health.steps)| >= health.numProbes
    ensures verdict == Judged(EvalOk) <==>
              Readable(res) && HasNumbers(res) && |FailingSeries(res, health.steps)| < health.numProbes
  {
    MeaningJustWhen(res, health);
    if |res| == 0 {
      return NoData;
    }
    var badEndpoints, endpointsWithData: nat := 0, 0;
    for i := 0 to |res|
      invariant badEndpoints == BadCount(res[..i], health.steps)
      invariant forall s :: s in res[..i] ==> !HasGarbage(s)
      invariant endpointsWithData == 0 <==> forall s :: s in res[..i] ==> Values(s) == []
    {
      assert res[..i + 1] == res[..i] + [res[i]];
      assert res[..i + 1][..i] == res[..i];
      var ok, hasData, bad := ScanSeries(res[i], health.steps);
      if !ok {
        assert res[i] in res;
        return ParseError;
      }
      if hasData {
        endpointsWithData := endpointsWithData + 1;
      }
      if bad {
        badEndpoints := badEndpoints + 1;
      }
    }
    assert res[..|res|] == res;
    if endpointsWithData == 0 {
      return Judged(EvalUnknown);
    }
    if badEndpoints >= health.numProbes {
      return Judged(EvalCritical);
    }
    return Judged(EvalOk);
  }

  // ---------------------------------------------------------------- the order of the series

  lemma {:induction false} BadCountSplit(a: seq<Series>, b: seq<Series>, steps: int)
    ensures BadCount(a + b, steps) == BadCount(a, steps) + BadCount(b, steps)
  {
    if b == [] {
      assert a + b == a;
    } else {
      assert (a + b)[..|a + b| - 1] == a + b[..|b| - 1];
      BadCountSplit(a, b[..|b| - 1], steps);
    }
  }

  lemma BadCountOne(s: Series, steps: int)
    ensures BadCount([s], steps) == if Bad(s, steps) then 1 else 0
  {
  }

  lemma TakenOut(b: seq<Series>, i: nat)
    requires i < |b|
    ensures multiset(b[..i] + b[i + 1..]) == multiset(b) - multiset{b[i]}
  {
    assert b == b[..i] + [b[i]] + b[i + 1..];
  }

  lemma CountWithout(b: seq<Series>, i: nat, steps: int)
    requires i < |b|
    ensures BadCount(b, steps) == BadCount(b[..i] + b[i + 1..], steps) + if Bad(b[i], steps) then 1 else 0
  {
    assert b == b[..i] + ([b[i]] + b[i + 1..]);
    BadCountSplit(b[..i], [b[i]] + b[i + 1..], steps);
    BadCountSplit([b[i]], b[i + 1..], steps);
    BadCountSplit(b[..i], b[i + 1..], steps);
    BadCountOne(b[i], steps);
  }

  lemma {:induction false} BadCountPermuted(a: seq<Series>, b: seq<Series>, steps: int)
    requires multiset(a) == multiset(b)
    ensures BadCount(a, steps) == BadCount(b, steps)
    decreases |a|
  {
    if a == [] {
      assert |multiset(b)| == 0;
    } else {
      var m := |a| - 1;
      assert a[m] in multiset(b);
      var i :| 0 <= i < |b| && b[i] == a[m];
      TakenOut(a, m);
      TakenOut(b, i);
      assert a[..m] + a[m + 1..] == a[..m];
      BadCountPermuted(a[..m], b[..i] + b[i + 1..], steps);
      CountWithout(b, i, steps);
    }
  }

  /** The verdict does not depend on the order in which graphite lists the series. */
  lemma OrderDoesNotMatter(a: seq<Series>, b: seq<Series>, health: HealthSettings)
    requires multiset(a) == multiset(b)
    ensures Meaning(a, health) == Meaning(b, health)
  {
    assert forall s :: s in a <==> s in multiset(a);
    assert forall s :: s in b <==> s in multiset(b);
    assert |a| == |multiset(a)| && |b| == |multiset(b)|;
    BadCountPermuted(a, b, health.steps);
  }

  // ---------------------------------------------------------------- raising values

  /** The same points with no value lower. */
  ghost predicate Raised(s: Series, r: Series) {
    |s| == |r| && forall i :: 0 <= i < |s| ==> RaisedPoint(s[i], r[i])
  }

  ghost predicate RaisedPoint(p: Point, q: Point) {
    match (p, q)
    case (Value(v), Value(w)) => v <= w
    case (NoValue, NoValue) => true
    case (Garbage, Garbage) => true
    case _ => false
  }

  lemma {:induction false} RaisedValues(s: Series, r: Series)
    requires Raised(s, r)
    ensures |Values(s)| == |Values(r)| && forall i :: 0 <= i < |Values(s)| ==> Values(s)[i] <= Values(r)[i]
    ensures HasGarbage(s) <==> HasGarbage(r)
  {
    if s != [] {
      var m := |s| - 1;
      RaisedValues(s[..m], r[..m]);
      assert s == s[..m] + [s[m]] && r == r[..m] + [r[m]];
      assert RaisedPoint(s[m], r[m]);
    }
  }

  lemma RaisedStaysBad(s: Series, r: Series, steps: int)
    requires Raised(s, r) && Bad(s, steps)
    ensures Bad(r, steps)
  {
    RaisedValues(s, r);
    var i :| 0 <= i <= |Values(s)| && StreakAt(Values(s), steps, i);
    assert StreakAt(Values(r), steps, i);
  }

  lemma {:induction false} RaisedCount(a: seq<Series>, b: seq<Series>, steps: int)
    requires |a| == |b| && forall i :: 0 <= i < |a| ==> Raised(a[i], b[i])
    ensures BadCount(a, steps) <= BadCount(b, steps)
  {
    if a != [] {
      var m := |a| - 1;
      assert forall i :: 0 <= i < m ==> Raised(a[..m][i], b[..m][i]);
      RaisedCount(a[..m], b[..m], steps);
      assert Raised(a[m], b[m]);
      if Bad(a[m], steps) {
        RaisedStaysBad(a[m], b[m], steps);
      }
    }
  }

  /** What raising leaves alone: where there is garbage, and where there is no data. */
  lemma {:induction false} RaisedShape(a: seq<Series>, b: seq<Series>)
    requires |a| == |b| && forall i :: 0 <= i < |a| ==> Raised(a[i], b[i])
    ensures (exists s :: s in a && HasGarbage(s)) <==> (exists s :: s in b && HasGarbage(s))
    ensures (forall s :: s in a ==> Values(s) == []) <==> (forall s :: s in b ==> Values(s) == [])
  {
    if a != [] {
      var m := |a| - 1;
      assert forall i :: 0 <= i < m ==> Raised(a[..m][i], b[..m][i]);
      RaisedShape(a[..m], b[..m]);
      assert Raised(a[m], b[m]);
      RaisedValues(a[m], b[m]);
      assert a == a[..m] + [a[m]] && b == b[..m] + [b[m]];
      assert forall s :: s in a <==> s in a[..m] || s == a[m];
      assert forall s :: s in b <==> s in b[..m] || s == b[m];
    }
  }

  /** Raising values never takes a check out of Critical, and never decides whether there is data. */
  lemma RaisingKeepsCritical(a: seq<Series>, b: seq<Series>, health: HealthSettings)
    requires |a| == |b| && forall i :: 0 <= i < |a| ==> Raised(a[i], b[i])
    ensures Meaning(a, health) == Judged(EvalCritical) ==> Meaning(b, health) == Judged(EvalCritical)
    ensures Meaning(b, health) == Judged(EvalOk) ==> Meaning(a, health) == Judged(EvalOk)
    ensures Meaning(a, health) == Judged(EvalUnknown) <==> Meaning(b, health) == Judged(EvalUnknown)
    ensures Meaning(a, health) == ParseError <==> Meaning(b, health) == ParseError
  {
    RaisedCount(a, b, health.steps);
    RaisedShape(a, b);
  }
}
