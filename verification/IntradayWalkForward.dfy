// intraday/walk_forward.py: calendar-length windows that advance through a bar series. A frame is
// the list of its rows' timestamps, in nanoseconds; pandas' bounds on timestamps are not modelled.
module IntradayWalkForward {
  import opened Common
  import opened Ordering

  const DAY: int := 86400000000000

  datatype Settings = Settings(
    trainDays: int,
    validationDays: int,
    testDays: int,
    stepDays: int,
    embargoBars: int,
    minTrainRows: int,
    minValidationRows: int,
    minTestRows: int
  )

  // What resolve_walk_forward_config checks before the folds are built.
  predicate Valid(s: Settings) {
    s.trainDays > 0 && s.validationDays > 0 && s.testDays > 0 && s.stepDays > 0 && s.embargoBars >= 0
  }

  datatype Fold = Fold(
    foldId: int,
    trainStart: int,
    trainEnd: int,
    validationEnd: int,
    testStart: int,
    testEnd: int,
    nTrain: int,
    nValidation: int,
    nTest: int
  )

  // ---------- the median bar spacing

  function Diffs(xs: seq<int>): seq<int> {
    if |xs| < 2 then [] else Diffs(xs[..|xs| - 1]) + [xs[|xs| - 1] - xs[|xs| - 2]]
  }

  function Median(xs: seq<int>): int
    requires xs != []
  {
    var s := Sorted(IntLe, xs);
    SortedLength(xs);
    if |s| % 2 == 1 then s[|s| / 2] else (s[|s| / 2 - 1] + s[|s| / 2]) / 2
  }

  lemma SortedLength(xs: seq<int>)
    ensures |Sorted(IntLe, xs)| == |xs|
  {
    IntLeTotal();
    SortedSpec(IntLe, xs);
    assert |multiset(Sorted(IntLe, xs))| == |multiset(xs)|;
  }

  // _median_bar_delta
  function MedianBarDelta(rows: seq<int>): int {
    var unique := SortedDistinct(IntLe, rows);
    if |unique| < 2 then 0
    else
      DiffsLength(unique);
      Median(Diffs(unique))
  }

  lemma {:induction false} DiffsLength(xs: seq<int>)
    ensures |Diffs(xs)| == if |xs| < 2 then 0 else |xs| - 1
  {
    if |xs| >= 2 { DiffsLength(xs[..|xs| - 1]); }
  }

  lemma {:induction false} DiffsPositive(xs: seq<int>)
    requires Increasing(IntLe, xs)
    ensures forall d | d in Diffs(xs) :: d > 0
  {
    if |xs| >= 2 {
      assert IntLe(xs[|xs| - 2], xs[|xs| - 1]);
      DiffsPositive(xs[..|xs| - 1]);
    }
  }

  // Two distinct timestamps or more give a positive spacing, so an embargo moves forward.
  lemma MedianBarDeltaSign(rows: seq<int>)
    ensures MedianBarDelta(rows) >= 0
    ensures |SortedDistinct(IntLe, rows)| >= 2 ==> MedianBarDelta(rows) > 0
  {
    IntLeTotal();
    var unique := SortedDistinct(IntLe, rows);
    SortedDistinctSpec(IntLe, rows);
    if |unique| >= 2 {
      DiffsLength(unique);
      DiffsPositive(unique);
      SortedLength(Diffs(unique));
      SortedMembers(IntLe, Diffs(unique));
      var s := Sorted(IntLe, Diffs(unique));
      assert s[|s| / 2] in s && (|s| % 2 == 0 ==> s[|s| / 2 - 1] in s);
    }
  }

  // The middle of an odd number of values in order, or the floored mean of the two middle ones.
  ghost predicate IsMedian(m: int, xs: seq<int>) {
    exists s :: Ascending(IntLe, s) && multiset(s) == multiset(xs) && |s| > 0 && MiddleOf(m, s)
  }

  predicate MiddleOf(m: int, s: seq<int>)
    requires |s| > 0
  {
    if |s| % 2 == 1 then m == s[(|s| - 1) / 2] else 2 * m <= s[|s| / 2 - 1] + s[|s| / 2] < 2 * m + 2
  }

  // The spacings of the distinct timestamps in order.
  ghost predicate AreSpacings(gaps: seq<int>, rows: seq<int>) {
    exists times ::
      && Increasing(IntLe, times) && (forall t :: t in times <==> t in rows)
      && |gaps| == (if |times| < 2 then 0 else |times| - 1) && forall i | 0 <= i < |gaps| :: gaps[i] == times[i + 1] - times[i]
  }

  lemma {:induction false} DiffsMeaning(xs: seq<int>, i: nat)
    requires i < |Diffs(xs)|
    ensures |Diffs(xs)| == |xs| - 1 && Diffs(xs)[i] == xs[i + 1] - xs[i]
  {
    DiffsLength(xs);
    DiffsLength(xs[..|xs| - 1]);
    if i < |xs| - 2 {
      DiffsMeaning(xs[..|xs| - 1], i);
    }
  }

  lemma MedianMeaning(xs: seq<int>)
    requires xs != []
    ensures IsMedian(Median(xs), xs)
  {
    IntLeTotal();
    SortedSpec(IntLe, xs);
    SortedLength(xs);
    hide Sorted, Ascending;
    assert MiddleOf(Median(xs), Sorted(IntLe, xs));
  }

  // The spacing is the median one, and 0 without two distinct timestamps.
  lemma MedianBarDeltaIsMedian(rows: seq<int>) returns (gaps: seq<int>)
    ensures AreSpacings(gaps, rows)
    ensures if gaps == [] then MedianBarDelta(rows) == 0 else IsMedian(MedianBarDelta(rows), gaps)
  {
    hide Increasing, SortedDistinct, Diffs, Median, IsMedian;
    var unique := SortedDistinct(IntLe, rows);
    gaps := Diffs(unique);
    IntLeTotal();
    SortedDistinctSpec(IntLe, rows);
    DiffsLength(unique);
    forall i | 0 <= i < |gaps|
      ensures gaps[i] == unique[i + 1] - unique[i]
    {
      DiffsMeaning(unique, i);
    }
    if gaps != [] {
      MedianMeaning(gaps);
    }
  }

  // ---------- folds

  function MinOf(rows: seq<int>): int
    requires rows != []
  {
    if |rows| == 1 then rows[0] else Min(rows[0], MinOf(rows[1..]))
  }

  function MaxOf(rows: seq<int>): int
    requires rows != []
  {
    if |rows| == 1 then rows[0] else Max(rows[0], MaxOf(rows[1..]))
  }

  function TestStart(s: Settings, delta: int, anchor: int): int {
    anchor + s.trainDays * DAY + s.validationDays * DAY + delta * s.embargoBars
  }

  function FoldAt(rows: seq<int>, s: Settings, delta: int, anchor: int, id: int): Fold {
    var trainEnd := anchor + s.trainDays * DAY;
    var validationEnd := trainEnd + s.validationDays * DAY;
    var testStart := TestStart(s, delta, anchor);
    var testEnd := testStart + s.testDays * DAY;
    Fold(id, anchor, trainEnd, validationEnd, testStart, testEnd,
         CountIn(rows, anchor, trainEnd), CountIn(rows, trainEnd, validationEnd), CountIn(rows, testStart, testEnd))
  }

  predicate MeetsMinima(f: Fold, s: Settings) {
    f.nTrain >= s.minTrainRows && f.nValidation >= s.minValidationRows && f.nTest >= s.minTestRows
  }

  function FoldsFrom(rows: seq<int>, s: Settings, delta: int, last: int, anchor: int, id: int): seq<Fold>
    requires s.stepDays > 0
    decreases last - TestStart(s, delta, anchor)
  {
    if TestStart(s, delta, anchor) > last then []
    else
      var f := FoldAt(rows, s, delta, anchor, id);
      if MeetsMinima(f, s) then [f] + FoldsFrom(rows, s, delta, last, anchor + s.stepDays * DAY, id + 1)
      else FoldsFrom(rows, s, delta, last, anchor + s.stepDays * DAY, id)
  }

  // ---------- termination

  // The loop's anchor after n rounds. An empty frame has no first timestamp, and pandas' NaT stays
  // NaT; comparing it is always false, so it never stops the loop.
  function AnchorAfter(rows: seq<int>, s: Settings, n: nat): Option<int> {
    if rows == [] then None else Some(MinOf(rows) + n * (s.stepDays * DAY))
  }

  predicate StopsAt(rows: seq<int>, s: Settings, anchor: Option<int>) {
    rows != [] && anchor.Some? && TestStart(s, MedianBarDelta(rows), anchor.value) > MaxOf(rows)
  }

  ghost predicate Terminates(rows: seq<int>, s: Settings) {
    exists n: nat :: StopsAt(rows, s, AnchorAfter(rows, s, n))
  }

  // The builder terminates exactly when the frame has a row and either the step is positive or
  // the very first test window already starts after the last row.
  lemma TerminatesIff(rows: seq<int>, s: Settings)
    ensures Terminates(rows, s)
            <==> rows != [] && (s.stepDays > 0 || StopsAt(rows, s, AnchorAfter(rows, s, 0)))
  {
    if rows != [] {
      var start := TestStart(s, MedianBarDelta(rows), MinOf(rows));
      if s.stepDays > 0 {
        var n: nat := Max(0, MaxOf(rows) - start + 1);
        assert n * (s.stepDays * DAY) >= n;
        assert StopsAt(rows, s, AnchorAfter(rows, s, n));
      } else if Terminates(rows, s) {
        var n: nat :| StopsAt(rows, s, AnchorAfter(rows, s, n));
        assert n * (s.stepDays * DAY) <= 0;
      }
      assert AnchorAfter(rows, s, 0) == Some(MinOf(rows));
    }
  }

  // All folds; a frame whose first test window starts after its last row has none, whatever the step.
  function Folds(rows: seq<int>, s: Settings): seq<Fold>
    requires rows != []
  {
    if s.stepDays > 0 then FoldsFrom(rows, s, MedianBarDelta(rows), MaxOf(rows), MinOf(rows), 0) else []
  }

  method MakeWalkForwardFolds(rows: seq<int>, s: Settings) returns (folds: seq<Fold>)
    requires Terminates(rows, s)
    ensures rows != [] && folds == Folds(rows, s)
  {
    TerminatesIff(rows, s);
    var delta, last := MedianBarDelta(rows), MaxOf(rows);
    var anchor, foldId := MinOf(rows), 0;
    folds := [];
    while true
      invariant s.stepDays > 0 ==> folds + FoldsFrom(rows, s, delta, last, anchor, foldId) == Folds(rows, s)
      invariant s.stepDays <= 0 ==> folds == [] && TestStart(s, delta, anchor) > last
      decreases last - TestStart(s, delta, anchor)
    {
      if TestStart(s, delta, anchor) > last {
        break;
      }
      var f := FoldAt(rows, s, delta, anchor, foldId);
      if MeetsMinima(f, s) {
        folds := folds + [f];
        foldId := foldId + 1;
      }
      anchor := anchor + s.stepDays * DAY;
    }
  }

  // ---------- the folds

  lemma {:induction false} ExtremesOf(rows: seq<int>)
    requires rows != []
    ensures MinOf(rows) in rows && MaxOf(rows) in rows && forall t | t in rows :: MinOf(rows) <= t <= MaxOf(rows)
  {
    if |rows| > 1 {
      ExtremesOf(rows[1..]);
      assert forall t :: t in rows <==> t == rows[0] || t in rows[1..];
    }
  }

  function StepStart(s: Settings, first: int, m: nat): int { first + m * (s.stepDays * DAY) }

  lemma StartsMoveOn(s: Settings, first: int, m: nat, n: nat)
    requires s.stepDays > 0
    ensures StepStart(s, first, 0) == first && StepStart(s, first, m + 1) == StepStart(s, first, m) + s.stepDays * DAY
    ensures m <= n ==> StepStart(s, first, m) <= StepStart(s, first, n)
    ensures m < n ==> StepStart(s, first, m) + s.stepDays * DAY <= StepStart(s, first, n)
  {
    NextStep(m, s.stepDays * DAY);
    if m <= n {
      assert n * (s.stepDays * DAY) == m * (s.stepDays * DAY) + (n - m) * (s.stepDays * DAY);
      assert m < n ==> (n - m) * (s.stepDays * DAY) >= s.stepDays * DAY;
    }
  }

  lemma NextStep(n: nat, step: int)
    ensures (n + 1) * step == n * step + step
  {
  }

  // The windows of a fold from `start`: calendar lengths, with the embargo before the test, their
  // rows counted.
  predicate Windows(f: Fold, rows: seq<int>, s: Settings, delta: int, start: int) {
    && f.trainStart == start
    && f.trainEnd - f.trainStart == s.trainDays * DAY && f.validationEnd - f.trainEnd == s.validationDays * DAY
    && f.testStart - f.validationEnd == delta * s.embargoBars && f.testEnd - f.testStart == s.testDays * DAY
    && f.nTrain == CountIn(rows, f.trainStart, f.trainEnd)
    && f.nValidation == CountIn(rows, f.trainEnd, f.validationEnd)
    && f.nTest == CountIn(rows, f.testStart, f.testEnd)
  }

  // A step gives a fold when a fold with its windows starts its test by the last row and meets the
  // minima.
  ghost predicate Kept(rows: seq<int>, s: Settings, delta: int, last: int, start: int) {
    exists f :: Windows(f, rows, s, delta, start) && f.testStart <= last && MeetsMinima(f, s)
  }

  lemma KeptIff(rows: seq<int>, s: Settings, delta: int, last: int, start: int, id: int)
    ensures Windows(FoldAt(rows, s, delta, start, id), rows, s, delta, start)
    ensures FoldAt(rows, s, delta, start, id).testStart == TestStart(s, delta, start)
    ensures Kept(rows, s, delta, last, start)
            <==> TestStart(s, delta, start) <= last && MeetsMinima(FoldAt(rows, s, delta, start, id), s)
  {
    hide CountIn;
    var f := FoldAt(rows, s, delta, start, id);
    assert Windows(f, rows, s, delta, start);
  }

  // The steps from `m` on that give folds, in order, and their folds numbered from `id`.
  ghost predicate FoldSteps(steps: seq<nat>, folds: seq<Fold>, rows: seq<int>, s: Settings, delta: int, last: int,
                            first: int, m: nat, id: int)
  {
    && |steps| == |folds| && (forall i, j | 0 <= i < j < |steps| :: steps[i] < steps[j])
    && (forall n :: n in steps <==> n >= m && Kept(rows, s, delta, last, StepStart(s, first, n)))
    && forall i | 0 <= i < |steps| :: folds[i] == FoldAt(rows, s, delta, StepStart(s, first, steps[i]), id + i)
  }

  lemma PrependStep(steps: seq<nat>, folds: seq<Fold>, rows: seq<int>, s: Settings, delta: int, last: int,
                    first: int, m: nat, id: int)
    requires Kept(rows, s, delta, last, StepStart(s, first, m))
    requires FoldSteps(steps, folds, rows, s, delta, last, first, m + 1, id + 1)
    ensures FoldSteps([m] + steps, [FoldAt(rows, s, delta, StepStart(s, first, m), id)] + folds, rows, s, delta, last, first, m, id)
  {
    hide FoldAt, Kept, StepStart;
    var steps', folds' := [m] + steps, [FoldAt(rows, s, delta, StepStart(s, first, m), id)] + folds;
    forall i | 0 <= i < |steps|
      ensures m < steps[i]
    {
      assert steps[i] in steps;
    }
    forall i | 0 <= i < |steps'|
      ensures folds'[i] == FoldAt(rows, s, delta, StepStart(s, first, steps'[i]), id + i)
    {
      if i > 0 {
        assert steps'[i] == steps[i - 1] && folds'[i] == folds[i - 1];
        assert id + 1 + (i - 1) == id + i;
      }
    }
    assert forall n :: n in steps' <==> n == m || n in steps;
  }

  lemma {:induction false} FoldsOfSteps(rows: seq<int>, s: Settings, delta: int, last: int, first: int, m: nat, id: int)
    returns (steps: seq<nat>)
    requires s.stepDays > 0
    ensures FoldSteps(steps, FoldsFrom(rows, s, delta, last, StepStart(s, first, m), id), rows, s, delta, last, first, m, id)
    decreases last - TestStart(s, delta, StepStart(s, first, m))
  {
    hide StepStart, CountIn, Kept, FoldAt;
    StartsMoveOn(s, first, m, m);
    var start := StepStart(s, first, m);
    if TestStart(s, delta, start) > last {
      steps := [];
      forall n: nat | n >= m
        ensures !Kept(rows, s, delta, last, StepStart(s, first, n))
      {
        StartsMoveOn(s, first, m, n);
        KeptIff(rows, s, delta, last, StepStart(s, first, n), 0);
      }
    } else {
      KeptIff(rows, s, delta, last, start, id);
      var here := if MeetsMinima(FoldAt(rows, s, delta, start, id), s) then 1 else 0;
      steps := FoldsOfSteps(rows, s, delta, last, first, m + 1, id + here);
      if here == 1 {
        var folds := FoldsFrom(rows, s, delta, last, StepStart(s, first, m + 1), id + 1);
        hide FoldSteps;
        PrependStep(steps, folds, rows, s, delta, last, first, m, id);
        steps := [m] + steps;
      }
    }
  }

  // The folds are exactly those of the steps, from the first row on, whose test window starts by
  // the last row and whose windows have enough rows; they are numbered in turn.
  lemma FoldsMeaning(rows: seq<int>, s: Settings) returns (steps: seq<nat>, gaps: seq<int>, delta: int)
    requires rows != [] && s.stepDays > 0
    ensures AreSpacings(gaps, rows) && (if gaps == [] then delta == 0 else IsMedian(delta, gaps))
    ensures |steps| == |Folds(rows, s)| && forall i, j | 0 <= i < j < |steps| :: steps[i] < steps[j]
    ensures forall n :: n in steps <==> n >= 0 && Kept(rows, s, delta, MaxOf(rows), StepStart(s, MinOf(rows), n))
    ensures forall i | 0 <= i < |steps| ::
              Folds(rows, s)[i].foldId == i && Windows(Folds(rows, s)[i], rows, s, delta, StepStart(s, MinOf(rows), steps[i]))
  {
    hide StepStart, CountIn, FoldsFrom, IsMedian, AreSpacings;
    delta := MedianBarDelta(rows);
    gaps := MedianBarDeltaIsMedian(rows);
    StartsMoveOn(s, MinOf(rows), 0, 0);
    steps := FoldsOfSteps(rows, s, delta, MaxOf(rows), MinOf(rows), 0, 0);
    hide Kept, FoldAt, Windows;
    forall i | 0 <= i < |steps|
      ensures Folds(rows, s)[i].foldId == i && Windows(Folds(rows, s)[i], rows, s, delta, StepStart(s, MinOf(rows), steps[i]))
    {
      KeptIff(rows, s, delta, MaxOf(rows), StepStart(s, MinOf(rows), steps[i]), i);
      IdOfFold(rows, s, delta, StepStart(s, MinOf(rows), steps[i]), i);
    }
  }

  lemma IdOfFold(rows: seq<int>, s: Settings, delta: int, start: int, id: int)
    ensures FoldAt(rows, s, delta, start, id).foldId == id
  {
  }

  // Every fold orders its windows, counts exactly their rows, and meets the minima; ids run from 0.
  lemma FoldsAreOrdered(rows: seq<int>, s: Settings, i: nat)
    requires rows != [] && Valid(s)
    requires i < |Folds(rows, s)|
    ensures var f := Folds(rows, s)[i];
            && f.foldId == i && MeetsMinima(f, s)
            && MinOf(rows) <= f.trainStart < f.trainEnd < f.validationEnd <= f.testStart < f.testEnd
            && f.testStart <= MaxOf(rows) && Windows(f, rows, s, MedianBarDelta(rows), f.trainStart)
  {
    hide CountIn, FoldsFrom, StepStart;
    MedianBarDeltaSign(rows);
    var first := MinOf(rows);
    StartsMoveOn(s, first, 0, 0);
    var steps := FoldsOfSteps(rows, s, MedianBarDelta(rows), MaxOf(rows), first, 0, 0);
    assert steps[i] in steps;
    KeptIff(rows, s, MedianBarDelta(rows), MaxOf(rows), StepStart(s, first, steps[i]), i);
    StartsMoveOn(s, first, 0, steps[i]);
    assert MedianBarDelta(rows) * s.embargoBars >= 0;
  }

  // Test windows never overlap when the step is at least the test length.
  lemma TestWindowsDisjoint(rows: seq<int>, s: Settings, i: nat, j: nat)
    requires rows != [] && Valid(s) && s.stepDays >= s.testDays
    requires i < j < |Folds(rows, s)|
    ensures Folds(rows, s)[i].testEnd <= Folds(rows, s)[j].testStart
  {
    hide CountIn, FoldsFrom, StepStart;
    var first := MinOf(rows);
    StartsMoveOn(s, first, 0, 0);
    var steps := FoldsOfSteps(rows, s, MedianBarDelta(rows), MaxOf(rows), first, 0, 0);
    StartsMoveOn(s, first, steps[i], steps[j]);
  }
}
