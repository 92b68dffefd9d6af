// daily_index_forecast/walk_forward.py: window scaling, the holdout, and the daily folds. A frame
// is the list of its rows' session dates, as day numbers.
module DailyWalkForward {
  import opened Common
  import opened Ordering

  // ---------- window scaling

  // max(1, int(days * available / requested))
  function Scaled(days: nat, available: nat, requested: nat): int
    requires requested > 0
  {
    Max(1, days * available / requested)
  }

  type Sizes = s: seq<int> | |s| == 3 witness [1, 1, 1]

  function SumOf(s: Sizes): int { s[0] + s[1] + s[2] }

  // max(range(3), key=lambda idx: effective[idx]): the first of the largest.
  function Largest(s: Sizes): (i: nat)
    ensures i < 3 && (forall j | 0 <= j < 3 :: s[j] <= s[i]) && (forall j | 0 <= j < i :: s[j] < s[i])
  {
    if s[0] >= s[1] && s[0] >= s[2] then 0 else if s[1] >= s[2] then 1 else 2
  }

  // Take one session from the first largest window until the total fits or every window is one.
  function Trim(s: Sizes, available: nat): Sizes
    requires forall i | 0 <= i < 3 :: s[i] >= 1
    decreases SumOf(s)
  {
    var i := Largest(s);
    if SumOf(s) <= available || s[i] <= 1 then s else Trim(s[i := s[i] - 1], available)
  }

  function ScaledSizes(requested: Sizes, available: nat): Sizes
    requires forall i | 0 <= i < 3 :: requested[i] >= 1
  {
    var total := SumOf(requested);
    if available >= total then requested
    else Trim([Scaled(requested[0], available, total), Scaled(requested[1], available, total),
               Scaled(requested[2], available, total)], available)
  }

  method ScaleWindowSizes(requested: Sizes, available: nat) returns (effective: Sizes)
    requires forall i | 0 <= i < 3 :: requested[i] >= 1
    ensures effective == ScaledSizes(requested, available)
  {
    var total := SumOf(requested);
    if available >= total {
      return requested;
    }
    effective := [Scaled(requested[0], available, total), Scaled(requested[1], available, total),
                  Scaled(requested[2], available, total)];
    while SumOf(effective) > available
      invariant forall i | 0 <= i < 3 :: effective[i] >= 1
      invariant Trim(effective, available) == ScaledSizes(requested, available)
      decreases SumOf(effective)
    {
      var largest := Largest(effective);
      if effective[largest] <= 1 {
        // No window is above one, so the source's search for another one to shorten fails.
        assert forall i | 0 <= i < 3 :: effective[i] <= 1;
        break;
      }
      effective := effective[largest := effective[largest] - 1];
    }
  }

  // floor(x * y / total) keeps between x * y / total - 1 and x * y / total.
  lemma FloorShare(days: nat, available: nat, total: nat)
    requires total > 0
    ensures days * available - total < (days * available / total) * total <= days * available
  {
  }

  lemma AtMostRequest(days: nat, available: nat, total: nat)
    requires total > available
    ensures days * available / total <= days
  {
  }

  lemma ShareSum(r: Sizes, available: nat, total: nat)
    requires r[0] >= 0 && r[1] >= 0 && r[2] >= 0 && total == SumOf(r) > 0
    ensures available - 2 <= r[0] * available / total + r[1] * available / total + r[2] * available / total <= available
  {
    FloorShare(r[0], available, total);
    FloorShare(r[1], available, total);
    FloorShare(r[2], available, total);
    var q := r[0] * available / total + r[1] * available / total + r[2] * available / total;
    assert r[0] * available + r[1] * available + r[2] * available == total * available;
    assert q * total == (r[0] * available / total) * total + (r[1] * available / total) * total + (r[2] * available / total) * total;
    assert q * total <= available * total;
    assert q * total > available * total - 3 * total;
    Between(q, available, total);
  }

  lemma Between(q: int, available: int, total: nat)
    requires total > 0 && (available - 3) * total < q * total <= available * total
    ensures available - 2 <= q <= available
  {
  }

  lemma {:induction false} TrimSpec(s: Sizes, available: nat)
    requires forall i | 0 <= i < 3 :: s[i] >= 1
    ensures forall i | 0 <= i < 3 :: 1 <= Trim(s, available)[i] <= s[i]
    ensures SumOf(Trim(s, available)) == if SumOf(s) <= available then SumOf(s) else Max(3, available)
    decreases SumOf(s)
  {
    var i := Largest(s);
    if SumOf(s) > available && s[i] > 1 {
      TrimSpec(s[i := s[i] - 1], available);
    }
  }

  // The floor of the request's share of the available sessions, or one when that is zero.
  predicate FloorOrOne(size: int, days: int, available: nat, total: nat) {
    if days * available < total then size == 1 else size * total <= days * available < (size + 1) * total
  }

  // What is left of `full` after shortening to fit: only as much as needed, and from the top. A
  // shortened window is at most one below any other, and not below an earlier one.
  predicate Shortened(sizes: Sizes, full: Sizes, available: nat) {
    && (forall i | 0 <= i < 3 :: 1 <= sizes[i] <= full[i])
    && (if SumOf(full) <= available then sizes == full else SumOf(sizes) == Max(3, available))
    && forall i, j | 0 <= i < 3 && 0 <= j < 3 && sizes[i] < full[i] :: sizes[j] <= sizes[i] + if j < i then 0 else 1
  }

  // That determines the sizes.
  lemma ShortenedUnique(a: Sizes, b: Sizes, full: Sizes, available: nat)
    requires Shortened(a, full, available) && Shortened(b, full, available)
    ensures a == b
  {
    assert a == [a[0], a[1], a[2]] && b == [b[0], b[1], b[2]];
  }

  lemma {:induction false} TrimShortens(s: Sizes, available: nat)
    requires forall i | 0 <= i < 3 :: s[i] >= 1
    ensures Shortened(Trim(s, available), s, available)
    decreases SumOf(s)
  {
    TrimSpec(s, available);
    var i := Largest(s);
    if SumOf(s) > available && s[i] > 1 {
      TrimShortens(s[i := s[i] - 1], available);
      hide Trim, Largest;
      OneMoreShortened(Trim(s, available), s, i, available);
    }
  }

  lemma OneMoreShortened(t: Sizes, s: Sizes, i: nat, available: nat)
    requires i < 3 && s[i] > 1 && (forall j | 0 <= j < 3 :: 1 <= s[j] <= s[i]) && (forall j | 0 <= j < i :: s[j] < s[i])
    requires SumOf(s) > available && SumOf(t) == Max(3, available)
    requires Shortened(t, s[i := s[i] - 1], available)
    ensures Shortened(t, s, available)
  {
    var s' := s[i := s[i] - 1];
    forall j, k | 0 <= j < 3 && 0 <= k < 3 && t[j] < s[j]
      ensures t[k] <= t[j] + if k < j then 0 else 1
    {
      if t[j] == s'[j] {
        assert j == i && t[k] <= s'[k] <= s[k];
      }
    }
  }

  // Too few sessions are shared out in proportion to the requests: each window gets the floor of
  // its share, or one session, and what then is too much is taken from the largest windows.
  lemma SizesAreProportional(requested: Sizes, available: nat) returns (full: Sizes)
    requires (forall i | 0 <= i < 3 :: requested[i] >= 1) && available < SumOf(requested)
    ensures forall i | 0 <= i < 3 :: FloorOrOne(full[i], requested[i], available, SumOf(requested))
    ensures Shortened(ScaledSizes(requested, available), full, available)
    ensures (forall i | 0 <= i < 3 :: requested[i] * available >= SumOf(requested)) ==> ScaledSizes(requested, available) == full
  {
    var total := SumOf(requested);
    full := [Scaled(requested[0], available, total), Scaled(requested[1], available, total), Scaled(requested[2], available, total)];
    forall i | 0 <= i < 3
      ensures FloorOrOne(full[i], requested[i], available, total)
      ensures requested[i] * available >= total ==> full[i] == requested[i] * available / total
    {
      ScaledIsFloor(requested[i], available, total);
    }
    TrimShortens(full, available);
    ShareSum(requested, available, total);
  }

  lemma ScaledIsFloor(days: nat, available: nat, total: nat)
    requires total > 0
    ensures FloorOrOne(Scaled(days, available, total), days, available, total)
    ensures days * available >= total ==> Scaled(days, available, total) == days * available / total
  {
    FloorShare(days, available, total);
    var q := days * available / total;
    assert (q + 1) * total == q * total + total;
    if days * available >= total {
      assert q >= 1;
    } else {
      assert q <= 0;
    }
  }

  // Every window stays between one session and its request; a scaled total uses all of the
  // available sessions but at most two; and only fewer than three sessions can be overrun.
  lemma ScalingBounds(requested: Sizes, available: nat)
    requires forall i | 0 <= i < 3 :: requested[i] >= 1
    ensures forall i | 0 <= i < 3 :: 1 <= ScaledSizes(requested, available)[i] <= requested[i]
    ensures available >= SumOf(requested) ==> ScaledSizes(requested, available) == requested
    ensures 3 <= available < SumOf(requested) ==> available - 2 <= SumOf(ScaledSizes(requested, available)) <= available
    ensures available < 3 ==> SumOf(ScaledSizes(requested, available)) == 3
  {
    var total := SumOf(requested);
    if available < total {
      ShareSum(requested, available, total);
      AtMostRequest(requested[0], available, total);
      AtMostRequest(requested[1], available, total);
      AtMostRequest(requested[2], available, total);
      var s: Sizes := [Scaled(requested[0], available, total), Scaled(requested[1], available, total),
                       Scaled(requested[2], available, total)];
      TrimSpec(s, available);
    }
  }

  // ---------- holdout and folds

  datatype Settings = Settings(
    trainDays: int,
    validationDays: int,
    testDays: int,
    stepDays: int,
    embargoDays: int,
    minTrainRows: int,
    minValidationRows: int,
    minTestRows: int,
    minHoldoutRows: int,
    holdoutDays: int
  )

  datatype Fold = Fold(
    foldId: int,
    trainStart: int,
    trainEnd: int,
    validationEnd: int,
    testStart: int,
    testEnd: int,
    nTrain: int,
    nValidation: int,
    nTest: int
  )

  datatype Walk = Walk(folds: seq<Fold>, holdoutStart: int, holdoutEnd: int)

  datatype WalkError =
    | NonPositiveWindow
    | NegativeEmbargo
    | TooFewSessions
    | HoldoutIndexError
    | ThinHoldout
    | TooFewAfterScaling
    | NoFolds

  // xs[i] with Python's negative indices; None models IndexError.
  function PyIndex(xs: seq<int>, i: int): Option<int> {
    if 0 <= i < |xs| then Some(xs[i]) else if -|xs| <= i < 0 then Some(xs[|xs| + i]) else None
  }

  function CountFrom(rows: seq<int>, from: int): nat {
    if rows == [] then 0 else CountFrom(rows[1..], from) + if rows[0] >= from then 1 else 0
  }

  function RowsBefore(rows: seq<int>, to: int): seq<int> {
    if rows == [] then [] else (if rows[0] < to then [rows[0]] else []) + RowsBefore(rows[1..], to)
  }

  function Sessions(rows: seq<int>): seq<int> { SortedDistinct(IntLe, rows) }

  function HoldoutDays(sessions: nat, requested: int): int { Min(requested, Max(1, sessions - 3)) }

  function Span(sizes: Sizes, embargo: nat): int { SumOf(sizes) + embargo }

  // The fold whose training window starts at session `anchor`.
  function FoldAt(rows: seq<int>, history: seq<int>, sizes: Sizes, embargo: nat, anchor: nat, id: int): Fold
    requires (forall i | 0 <= i < 3 :: sizes[i] >= 1) && anchor + Span(sizes, embargo) <= |history|
  {
    var trainStart := history[anchor];
    var trainEnd := history[anchor + sizes[0] - 1] + 1;
    var validationEnd := history[anchor + sizes[0] + sizes[1] - 1] + 1;
    var testStart := history[anchor + sizes[0] + sizes[1] + embargo];
    var testEnd := history[anchor + sizes[0] + sizes[1] + embargo + sizes[2] - 1] + 1;
    Fold(id, trainStart, trainEnd, validationEnd, testStart, testEnd,
         CountIn(rows, trainStart, trainEnd), CountIn(rows, trainEnd, validationEnd), CountIn(rows, testStart, testEnd))
  }

  predicate Enough(f: Fold, s: Settings) {
    f.nTrain >= s.minTrainRows && f.nValidation >= s.minValidationRows && f.nTest >= s.minTestRows
  }

  // The folds from `anchor` on: every step whose windows fit and have enough rows, numbered in turn.
  function FoldsFrom(rows: seq<int>, history: seq<int>, sizes: Sizes, s: Settings, anchor: nat, id: int): seq<Fold>
    requires (forall i | 0 <= i < 3 :: sizes[i] >= 1) && s.embargoDays >= 0 && s.stepDays > 0
    decreases |history| - anchor
  {
    if anchor + Span(sizes, s.embargoDays) > |history| then []
    else
      var f := FoldAt(rows, history, sizes, s.embargoDays, anchor, id);
      if Enough(f, s) then [f] + FoldsFrom(rows, history, sizes, s, anchor + s.stepDays, id + 1)
      else FoldsFrom(rows, history, sizes, s, anchor + s.stepDays, id)
  }

  function WalkFor(rows: seq<int>, s: Settings): Result<Walk, WalkError> {
    var sessions := Sessions(rows);
    if s.trainDays <= 0 || s.validationDays <= 0 || s.testDays <= 0 || s.stepDays <= 0 then Err(NonPositiveWindow)
    else if s.embargoDays < 0 then Err(NegativeEmbargo)
    else if |sessions| < 4 then Err(TooFewSessions)
    else
      match PyIndex(sessions, -HoldoutDays(|sessions|, s.holdoutDays))
      case None => Err(HoldoutIndexError)
      case Some(start) =>
        if CountFrom(rows, start) < s.minHoldoutRows then Err(ThinHoldout)
        else
          var history := Sessions(RowsBefore(rows, start));
          var sizes := ScaledSizes([s.trainDays, s.validationDays, s.testDays], |history|);
          ScalingBounds([s.trainDays, s.validationDays, s.testDays], |history|);
          if |history| < SumOf(sizes) then Err(TooFewAfterScaling)
          else
            var folds := FoldsFrom(rows, history, sizes, s, 0, 0);
            if folds == [] then Err(NoFolds) else Ok(Walk(folds, start, sessions[|sessions| - 1] + 1))
  }

  method MakeWalkForwardFolds(rows: seq<int>, s: Settings) returns (result: Result<Walk, WalkError>)
    ensures result == WalkFor(rows, s)
  {
    hide FoldsFrom, ScaledSizes, Sessions, CountFrom, RowsBefore, PyIndex, HoldoutDays;
    if s.trainDays <= 0 || s.validationDays <= 0 || s.testDays <= 0 || s.stepDays <= 0 {
      return Err(NonPositiveWindow);
    }
    if s.embargoDays < 0 {
      return Err(NegativeEmbargo);
    }
    var sessions := Sessions(rows);
    if |sessions| < 4 {
      return Err(TooFewSessions);
    }
    var start := PyIndex(sessions, -HoldoutDays(|sessions|, s.holdoutDays));
    if start.None? {
      return Err(HoldoutIndexError);
    }
    if CountFrom(rows, start.value) < s.minHoldoutRows {
      return Err(ThinHoldout);
    }
    var history := Sessions(RowsBefore(rows, start.value));
    var sizes := ScaleWindowSizes([s.trainDays, s.validationDays, s.testDays], |history|);
    ScalingBounds([s.trainDays, s.validationDays, s.testDays], |history|);
    if |history| < SumOf(sizes) {
      return Err(TooFewAfterScaling);
    }
    var folds := CollectFolds(rows, history, sizes, s);
    result := if folds == [] then Err(NoFolds) else Ok(Walk(folds, start.value, sessions[|sessions| - 1] + 1));
  }

  // The fold loop.
  method CollectFolds(rows: seq<int>, history: seq<int>, sizes: Sizes, s: Settings) returns (folds: seq<Fold>)
    requires (forall i | 0 <= i < 3 :: sizes[i] >= 1) && s.embargoDays >= 0 && s.stepDays > 0
    ensures folds == FoldsFrom(rows, history, sizes, s, 0, 0)
  {
    folds := [];
    var foldId, anchor := 0, 0;
    while anchor + Span(sizes, s.embargoDays) <= |history|
      invariant anchor >= 0
      invariant folds + FoldsFrom(rows, history, sizes, s, anchor, foldId) == FoldsFrom(rows, history, sizes, s, 0, 0)
      decreases |history| - anchor
    {
      var f := FoldAt(rows, history, sizes, s.embargoDays, anchor, foldId);
      if Enough(f, s) {
        folds := folds + [f];
        foldId := foldId + 1;
      }
      anchor := anchor + s.stepDays;
    }
  }

  // ---------- no leak

  lemma SessionsSpec(rows: seq<int>)
    ensures Increasing(IntLe, Sessions(rows)) && forall d :: d in Sessions(rows) <==> d in rows
  {
    IntLeTotal();
    SortedDistinctSpec(IntLe, rows);
  }

  lemma {:induction false} RowsBeforeSpec(rows: seq<int>, to: int)
    ensures forall d :: d in RowsBefore(rows, to) <==> d in rows && d < to
  {
    if rows != [] {
      RowsBeforeSpec(rows[1..], to);
      assert forall d :: d in rows <==> d == rows[0] || d in rows[1..];
    }
  }

  // The dates from session a up to the day after session b - 1 hold exactly sessions a..b-1.
  lemma WindowIsSessions(rows: seq<int>, history: seq<int>, cutoff: int, a: nat, b: nat, d: int)
    requires Increasing(IntLe, history) && a < b <= |history|
    requires forall x :: x in history <==> x in rows && x < cutoff
    requires d in rows
    ensures history[b - 1] + 1 <= cutoff
    ensures history[a] <= d < history[b - 1] + 1 <==> d in history[a..b]
    ensures a > 0 ==> (history[a - 1] + 1 <= d < history[b - 1] + 1 <==> d in history[a..b])
  {
    IntsIncrease(history);
    assert history[b - 1] in history;
    if d in history[a..b] {
      var k :| 0 <= k < |history[a..b]| && history[a..b][k] == d;
      assert history[a + k] == d;
    }
    if (history[a] <= d || (a > 0 && history[a - 1] < d)) && d < history[b - 1] + 1 {
      assert d in history;
      var k :| 0 <= k < |history| && history[k] == d;
      assert a <= k < b;
      assert history[a..b][k - a] == d;
    }
  }

  // The rows dated from..to-1 are exactly those of sessions a..b-1.
  ghost predicate Holds(rows: seq<int>, history: seq<int>, from: int, to: int, a: nat, b: nat)
    requires a <= b <= |history|
  {
    forall d | d in rows :: from <= d < to <==> d in history[a..b]
  }

  lemma WindowHolds(rows: seq<int>, history: seq<int>, cutoff: int, a: nat, b: nat)
    requires Increasing(IntLe, history) && a < b <= |history|
    requires forall x :: x in history <==> x in rows && x < cutoff
    ensures Holds(rows, history, history[a], history[b - 1] + 1, a, b)
    ensures a > 0 ==> Holds(rows, history, history[a - 1] + 1, history[b - 1] + 1, a, b)
    ensures history[b - 1] + 1 <= cutoff
  {
    assert history[b - 1] in history;
    forall d | d in rows
      ensures history[a] <= d < history[b - 1] + 1 <==> d in history[a..b]
      ensures a > 0 ==> (history[a - 1] + 1 <= d < history[b - 1] + 1 <==> d in history[a..b])
    {
      WindowIsSessions(rows, history, cutoff, a, b, d);
    }
  }

  // A fold starting at `anchor` that leaks nothing: the rows of each part are exactly those of its
  // sessions, the embargoed sessions lie between the parts, and all of it ends before the holdout.
  ghost predicate Sound(rows: seq<int>, history: seq<int>, sizes: Sizes, embargo: nat, cutoff: int, f: Fold, anchor: nat)
    requires forall i | 0 <= i < 3 :: sizes[i] >= 1
  {
    var t, v, e, x := anchor, anchor + sizes[0], anchor + sizes[0] + sizes[1], anchor + sizes[0] + sizes[1] + embargo;
    && x + sizes[2] <= |history|
    && f.trainStart < f.trainEnd < f.validationEnd <= f.testStart < f.testEnd <= cutoff
    && Holds(rows, history, f.trainStart, f.trainEnd, t, v)
    && Holds(rows, history, f.trainEnd, f.validationEnd, v, e)
    && (forall k | e <= k < x :: f.validationEnd <= history[k] < f.testStart)
    && Holds(rows, history, f.testStart, f.testEnd, x, x + sizes[2])
    && f.nTrain == CountIn(rows, f.trainStart, f.trainEnd)
    && f.nValidation == CountIn(rows, f.trainEnd, f.validationEnd)
    && f.nTest == CountIn(rows, f.testStart, f.testEnd)
  }

  lemma FoldIsSound(rows: seq<int>, history: seq<int>, sizes: Sizes, embargo: nat, cutoff: int, anchor: nat, id: int)
    requires (forall i | 0 <= i < 3 :: sizes[i] >= 1) && anchor + Span(sizes, embargo) <= |history|
    requires Increasing(IntLe, history) && forall x :: x in history <==> x in rows && x < cutoff
    ensures Sound(rows, history, sizes, embargo, cutoff, FoldAt(rows, history, sizes, embargo, anchor, id), anchor)
  {
    hide Holds, CountIn, Increasing;
    var t, v, e, x := anchor, anchor + sizes[0], anchor + sizes[0] + sizes[1], anchor + sizes[0] + sizes[1] + embargo;
    WindowHolds(rows, history, cutoff, t, v);
    WindowHolds(rows, history, cutoff, v, e);
    WindowHolds(rows, history, cutoff, x, x + sizes[2]);
    FoldOrdered(rows, history, sizes, embargo, anchor, id);
  }

  lemma FoldOrdered(rows: seq<int>, history: seq<int>, sizes: Sizes, embargo: nat, anchor: nat, id: int)
    requires (forall i | 0 <= i < 3 :: sizes[i] >= 1) && anchor + Span(sizes, embargo) <= |history|
    requires Increasing(IntLe, history)
    ensures var f := FoldAt(rows, history, sizes, embargo, anchor, id);
            && f.trainStart < f.trainEnd < f.validationEnd <= f.testStart < f.testEnd
            && forall k | anchor + sizes[0] + sizes[1] <= k < anchor + sizes[0] + sizes[1] + embargo ::
                 f.validationEnd <= history[k] < f.testStart
  {
  }

  // How many rows are dated on one of the days.
  function RowsOn(rows: multiset<int>, days: seq<int>): nat {
    if days == [] then 0 else rows[days[0]] + RowsOn(rows, days[1..])
  }

  lemma {:induction false} OneRowMore(rows: multiset<int>, r: int, days: seq<int>)
    requires NoRepeats(days)
    ensures RowsOn(rows + multiset{r}, days) == RowsOn(rows, days) + if r in days then 1 else 0
  {
    if days != [] {
      assert days == [days[0]] + days[1..];
      NoRepeatsFrom(days[0], days[1..]);
      OneRowMore(rows, r, days[1..]);
    }
  }

  lemma {:induction false} NoRowsOn(days: seq<int>)
    ensures RowsOn(multiset{}, days) == 0
  {
    if days != [] {
      NoRowsOn(days[1..]);
    }
  }

  lemma {:induction false} CountIsRowsOn(rows: seq<int>, from: int, to: int, days: seq<int>)
    requires NoRepeats(days) && forall d | d in rows :: from <= d < to <==> d in days
    ensures CountIn(rows, from, to) == RowsOn(multiset(rows), days)
  {
    if rows == [] {
      NoRowsOn(days);
    } else {
      assert rows == [rows[0]] + rows[1..];
      assert multiset(rows) == multiset(rows[1..]) + multiset{rows[0]};
      assert forall d | d in rows[1..] :: d in rows;
      CountIsRowsOn(rows[1..], from, to, days);
      OneRowMore(multiset(rows[1..]), rows[0], days);
    }
  }

  lemma SomeSessions(history: seq<int>, a: nat, b: nat)
    requires Increasing(IntLe, history) && a <= b <= |history|
    ensures NoRepeats(history[a..b])
  {
  }

  // The three windows of sessions that start at `anchor`.
  function TrainPart(history: seq<int>, sizes: Sizes, anchor: nat): seq<int>
    requires (forall i | 0 <= i < 3 :: sizes[i] >= 1) && anchor + sizes[0] <= |history|
  {
    history[anchor..anchor + sizes[0]]
  }

  function ValidationPart(history: seq<int>, sizes: Sizes, anchor: nat): seq<int>
    requires (forall i | 0 <= i < 3 :: sizes[i] >= 1) && anchor + sizes[0] + sizes[1] <= |history|
  {
    history[anchor + sizes[0]..anchor + sizes[0] + sizes[1]]
  }

  function TestPart(history: seq<int>, sizes: Sizes, embargo: nat, anchor: nat): seq<int>
    requires (forall i | 0 <= i < 3 :: sizes[i] >= 1) && anchor + Span(sizes, embargo) <= |history|
  {
    history[anchor + sizes[0] + sizes[1] + embargo..anchor + Span(sizes, embargo)]
  }

  // The rows of the windows at `anchor` meet the minima.
  predicate EnoughRows(rows: seq<int>, history: seq<int>, sizes: Sizes, s: Settings, anchor: nat)
    requires (forall i | 0 <= i < 3 :: sizes[i] >= 1) && s.embargoDays >= 0 && anchor + Span(sizes, s.embargoDays) <= |history|
  {
    && RowsOn(multiset(rows), TrainPart(history, sizes, anchor)) >= s.minTrainRows
    && RowsOn(multiset(rows), ValidationPart(history, sizes, anchor)) >= s.minValidationRows
    && RowsOn(multiset(rows), TestPart(history, sizes, s.embargoDays, anchor)) >= s.minTestRows
  }

  // The counts of a fold are those of its windows' rows.
  lemma FoldCounts(rows: seq<int>, history: seq<int>, sizes: Sizes, s: Settings, cutoff: int, anchor: nat, id: int)
    requires (forall i | 0 <= i < 3 :: sizes[i] >= 1) && s.embargoDays >= 0 && anchor + Span(sizes, s.embargoDays) <= |history|
    requires Increasing(IntLe, history) && forall x :: x in history <==> x in rows && x < cutoff
    ensures var f := FoldAt(rows, history, sizes, s.embargoDays, anchor, id);
            && f.nTrain == RowsOn(multiset(rows), TrainPart(history, sizes, anchor))
            && f.nValidation == RowsOn(multiset(rows), ValidationPart(history, sizes, anchor))
            && f.nTest == RowsOn(multiset(rows), TestPart(history, sizes, s.embargoDays, anchor))
            && (Enough(f, s) <==> EnoughRows(rows, history, sizes, s, anchor))
  {
    hide RowsOn, CountIn, Increasing;
    var t, v, e, x := anchor, anchor + sizes[0], anchor + sizes[0] + sizes[1], anchor + sizes[0] + sizes[1] + s.embargoDays;
    PartCount(rows, history, cutoff, t, v);
    PartCount(rows, history, cutoff, v, e);
    PartCount(rows, history, cutoff, x, x + sizes[2]);
  }

  lemma PartCount(rows: seq<int>, history: seq<int>, cutoff: int, a: nat, b: nat)
    requires Increasing(IntLe, history) && a < b <= |history|
    requires forall x :: x in history <==> x in rows && x < cutoff
    ensures CountIn(rows, history[a], history[b - 1] + 1) == RowsOn(multiset(rows), history[a..b])
    ensures a > 0 ==> CountIn(rows, history[a - 1] + 1, history[b - 1] + 1) == RowsOn(multiset(rows), history[a..b])
  {
    hide RowsOn, CountIn;
    WindowHolds(rows, history, cutoff, a, b);
    SomeSessions(history, a, b);
    CountIsRowsOn(rows, history[a], history[b - 1] + 1, history[a..b]);
    if a > 0 {
      CountIsRowsOn(rows, history[a - 1] + 1, history[b - 1] + 1, history[a..b]);
    }
  }

  function StepStart(s: Settings, m: nat): nat
    requires s.stepDays > 0
  {
    m * s.stepDays
  }

  lemma StartsMoveOn(s: Settings, m: nat, n: nat)
    requires s.stepDays > 0
    ensures StepStart(s, m + 1) == StepStart(s, m) + s.stepDays
    ensures m <= n ==> StepStart(s, m) <= StepStart(s, n)
  {
    if m <= n {
      assert (n - m) * s.stepDays >= 0;
    }
  }

  // Step m of the walk gives a fold: its windows fit and have enough rows.
  predicate Kept(rows: seq<int>, history: seq<int>, sizes: Sizes, s: Settings, m: nat)
    requires (forall i | 0 <= i < 3 :: sizes[i] >= 1) && s.embargoDays >= 0 && s.stepDays > 0
  {
    StepStart(s, m) + Span(sizes, s.embargoDays) <= |history| && EnoughRows(rows, history, sizes, s, StepStart(s, m))
  }

  function FoldOf(rows: seq<int>, history: seq<int>, sizes: Sizes, s: Settings, m: nat, id: int): Fold
    requires (forall i | 0 <= i < 3 :: sizes[i] >= 1) && s.embargoDays >= 0 && s.stepDays > 0
    requires Kept(rows, history, sizes, s, m)
  {
    FoldAt(rows, history, sizes, s.embargoDays, StepStart(s, m), id)
  }

  // The steps from `first` on that give folds, in order, and their folds numbered from `id`.
  ghost predicate FoldSteps(steps: seq<nat>, folds: seq<Fold>, rows: seq<int>, history: seq<int>, sizes: Sizes, s: Settings,
                            first: nat, id: int)
    requires (forall i | 0 <= i < 3 :: sizes[i] >= 1) && s.embargoDays >= 0 && s.stepDays > 0
  {
    && |steps| == |folds| && (forall i, j | 0 <= i < j < |steps| :: steps[i] < steps[j])
    && (forall m :: m in steps <==> m >= first && Kept(rows, history, sizes, s, m))
    && forall i | 0 <= i < |steps| ::
         Kept(rows, history, sizes, s, steps[i]) && folds[i] == FoldOf(rows, history, sizes, s, steps[i], id + i)
  }

  lemma PrependStep(steps: seq<nat>, folds: seq<Fold>, rows: seq<int>, history: seq<int>, sizes: Sizes, s: Settings,
                    first: nat, id: int)
    requires (forall i | 0 <= i < 3 :: sizes[i] >= 1) && s.embargoDays >= 0 && s.stepDays > 0
    requires Kept(rows, history, sizes, s, first) && FoldSteps(steps, folds, rows, history, sizes, s, first + 1, id + 1)
    ensures FoldSteps([first] + steps, [FoldOf(rows, history, sizes, s, first, id)] + folds, rows, history, sizes, s, first, id)
  {
    hide FoldOf, Kept;
    var steps', folds' := [first] + steps, [FoldOf(rows, history, sizes, s, first, id)] + folds;
    forall i | 0 <= i < |steps|
      ensures first < steps[i]
    {
      assert steps[i] in steps;
    }
    forall i | 0 <= i < |steps'|
      ensures Kept(rows, history, sizes, s, steps'[i]) && folds'[i] == FoldOf(rows, history, sizes, s, steps'[i], id + i)
    {
      if i > 0 {
        assert steps'[i] == steps[i - 1] && folds'[i] == folds[i - 1];
        assert id + 1 + (i - 1) == id + i;
      }
    }
    assert forall m :: m in steps' <==> m == first || m in steps;
  }

  lemma {:induction false} FoldsOfSteps(rows: seq<int>, history: seq<int>, sizes: Sizes, s: Settings, cutoff: int,
                                        first: nat, id: int) returns (steps: seq<nat>)
    requires (forall j | 0 <= j < 3 :: sizes[j] >= 1) && s.embargoDays >= 0 && s.stepDays > 0
    requires Increasing(IntLe, history) && forall x :: x in history <==> x in rows && x < cutoff
    ensures FoldSteps(steps, FoldsFrom(rows, history, sizes, s, StepStart(s, first), id), rows, history, sizes, s, first, id)
    decreases |history| - StepStart(s, first)
  {
    hide StepStart, EnoughRows, FoldAt, Enough, Increasing;
    StartsMoveOn(s, first, first);
    var anchor := StepStart(s, first);
    if anchor + Span(sizes, s.embargoDays) > |history| {
      steps := [];
      forall m: nat | m >= first
        ensures !Kept(rows, history, sizes, s, m)
      {
        StartsMoveOn(s, first, m);
      }
    } else {
      FoldCounts(rows, history, sizes, s, cutoff, anchor, id);
      var f := FoldAt(rows, history, sizes, s.embargoDays, anchor, id);
      var here := if Enough(f, s) then 1 else 0;
      steps := FoldsOfSteps(rows, history, sizes, s, cutoff, first + 1, id + here);
      if Enough(f, s) {
        var folds := FoldsFrom(rows, history, sizes, s, StepStart(s, first + 1), id + 1);
        hide FoldSteps;
        PrependStep(steps, folds, rows, history, sizes, s, first, id);
        steps := [first] + steps;
      }
    }
  }

  lemma {:induction false} StepsGrow(steps: seq<nat>, i: nat)
    requires i < |steps| && forall k, j | 0 <= k < j < |steps| :: steps[k] < steps[j]
    ensures steps[i] >= i
  {
    if i > 0 {
      StepsGrow(steps, i - 1);
    }
  }

  // In every fold of every accepted frame the parts are train < validation < embargo < test <
  // holdout, with the effective numbers of sessions, no row in two parts, and ids 0..k-1.
  lemma FoldsNeverLeak(rows: seq<int>, s: Settings, i: nat)
    returns (history: seq<int>, sizes: Sizes, at: nat, steps: nat)
    requires WalkFor(rows, s).Ok? && i < |WalkFor(rows, s).value.folds|
    ensures var walk := WalkFor(rows, s).value;
            && s.trainDays > 0 && s.validationDays > 0 && s.testDays > 0
            && history == Sessions(RowsBefore(rows, walk.holdoutStart))
            && sizes == ScaledSizes([s.trainDays, s.validationDays, s.testDays], |history|)
            && (forall j | 0 <= j < 3 :: sizes[j] >= 1) && s.embargoDays >= 0
            && steps >= i && at == steps * s.stepDays
            && walk.folds[i].foldId == i && Enough(walk.folds[i], s)
            && Sound(rows, history, sizes, s.embargoDays, walk.holdoutStart, walk.folds[i], at)
  {
    hide Sound, CountIn, Increasing, Sessions, RowsBefore, ScaledSizes, WalkFor, FoldsFrom, EnoughRows;
    WalkParts(rows, s);
    var walk := WalkFor(rows, s).value;
    history := Sessions(RowsBefore(rows, walk.holdoutStart));
    sizes := ScaledSizes([s.trainDays, s.validationDays, s.testDays], |history|);
    HistorySpec(rows, walk.holdoutStart);
    var all := FoldsOfSteps(rows, history, sizes, s, walk.holdoutStart, 0, 0);
    steps := all[i];
    StepsGrow(all, i);
    at := StepStart(s, steps);
    FoldCounts(rows, history, sizes, s, walk.holdoutStart, at, i);
    FoldIsSound(rows, history, sizes, s.embargoDays, walk.holdoutStart, at, i);
  }

  lemma WalkParts(rows: seq<int>, s: Settings)
    requires WalkFor(rows, s).Ok?
    ensures s.trainDays > 0 && s.validationDays > 0 && s.testDays > 0 && s.stepDays > 0 && s.embargoDays >= 0
    ensures var history := Sessions(RowsBefore(rows, WalkFor(rows, s).value.holdoutStart));
            var sizes := ScaledSizes([s.trainDays, s.validationDays, s.testDays], |history|);
            && (forall j | 0 <= j < 3 :: sizes[j] >= 1)
            && WalkFor(rows, s).value.folds == FoldsFrom(rows, history, sizes, s, 0, 0)
  {
    ScalingBounds([s.trainDays, s.validationDays, s.testDays],
                  |Sessions(RowsBefore(rows, WalkFor(rows, s).value.holdoutStart))|);
  }

  lemma HistorySpec(rows: seq<int>, cutoff: int)
    ensures Increasing(IntLe, Sessions(RowsBefore(rows, cutoff)))
    ensures forall x :: x in Sessions(RowsBefore(rows, cutoff)) <==> x in rows && x < cutoff
  {
    SessionsSpec(RowsBefore(rows, cutoff));
    RowsBeforeSpec(rows, cutoff);
  }

  // ---------- the guard after scaling

  lemma HistoryIsPrefix(rows: seq<int>, k: nat)
    requires k < |Sessions(rows)|
    ensures Sessions(RowsBefore(rows, Sessions(rows)[k])) == Sessions(rows)[..k]
  {
    var sessions := Sessions(rows);
    SessionsSpec(rows);
    HistorySpec(rows, sessions[k]);
    IntsIncrease(sessions);
    assert Increasing(IntLe, sessions[..k]);
    forall d
      ensures d in sessions[..k] <==> d in Sessions(RowsBefore(rows, sessions[k]))
    {
      if d in sessions[..k] {
        var j :| 0 <= j < k && sessions[j] == d;
        assert d in sessions;
      }
      if d in rows && d < sessions[k] {
        assert d in sessions;
        var j :| 0 <= j < |sessions| && sessions[j] == d;
        assert j < k;
        assert sessions[..k][j] == d;
      }
    }
    IntLeTotal();
    IncreasingUnique(IntLe, Sessions(RowsBefore(rows, sessions[k])), sessions[..k]);
  }

  // The number of sessions left before the holdout.
  lemma HistoryLength(rows: seq<int>, h: int)
    requires |Sessions(rows)| >= 4
    ensures var n := |Sessions(rows)|;
            var index := PyIndex(Sessions(rows), -HoldoutDays(n, h));
            && (index.None? <==> h <= -n)
            && (index.Some? ==> |Sessions(RowsBefore(rows, index.value))| == if h >= 1 then n - HoldoutDays(n, h) else -h)
  {
    var n := |Sessions(rows)|;
    var eff := HoldoutDays(n, h);
    if h >= 1 {
      HistoryIsPrefix(rows, n - eff);
    } else if h > -n {
      HistoryIsPrefix(rows, -h);
    }
  }

  // The guard after scaling fires exactly when the holdout request is 0, -1 or -2: the function
  // never checks it, and Python reads those as an index from the front. For any positive holdout
  // at least three sessions remain and the guard cannot fire.
  lemma GuardAfterScalingIff(rows: seq<int>, s: Settings)
    requires s.trainDays > 0 && s.validationDays > 0 && s.testDays > 0 && s.stepDays > 0 && s.embargoDays >= 0
    requires |Sessions(rows)| >= 4
    ensures WalkFor(rows, s) == Err(TooFewAfterScaling)
            <==> -2 <= s.holdoutDays <= 0 && CountFrom(rows, Sessions(rows)[-s.holdoutDays]) >= s.minHoldoutRows
    ensures s.holdoutDays > 0 ==> WalkFor(rows, s) != Err(TooFewAfterScaling) && WalkFor(rows, s) != Err(HoldoutIndexError)
  {
    hide FoldsFrom, Sessions, RowsBefore, CountFrom;
    HistoryLength(rows, s.holdoutDays);
    var n := |Sessions(rows)|;
    var index := PyIndex(Sessions(rows), -HoldoutDays(n, s.holdoutDays));
    if index.Some? {
      var history := Sessions(RowsBefore(rows, index.value));
      ScalingBounds([s.trainDays, s.validationDays, s.testDays], |history|);
    }
  }

  // ---------- the whole walk

  lemma {:induction false} CountFromIsCountIn(rows: seq<int>, from: int, top: int)
    requires forall d | d in rows :: d < top
    ensures CountFrom(rows, from) == CountIn(rows, from, top)
  {
    if rows != [] {
      assert rows[0] in rows && forall d | d in rows[1..] :: d in rows;
      CountFromIsCountIn(rows[1..], from, top);
    }
  }

  // The rows from session k on.
  lemma HoldoutRows(rows: seq<int>, k: nat)
    requires k < |Sessions(rows)|
    ensures CountFrom(rows, Sessions(rows)[k]) == RowsOn(multiset(rows), Sessions(rows)[k..])
  {
    hide Sessions, RowsOn, CountFrom;
    SessionsSpec(rows);
    var sessions := Sessions(rows);
    var n := |sessions|;
    IntsIncrease(sessions);
    forall d | d in rows
      ensures d < sessions[n - 1] + 1
    {
      var j :| 0 <= j < n && sessions[j] == d;
    }
    CountFromIsCountIn(rows, sessions[k], sessions[n - 1] + 1);
    PartCount(rows, sessions, sessions[n - 1] + 1, k, n);
    assert sessions[k..n] == sessions[k..];
  }

  // The sizes are the requested ones, or the proportional ones when there are too few sessions.
  ghost predicate SizesFor(requested: Sizes, available: nat, sizes: Sizes) {
    if available >= SumOf(requested) then sizes == requested
    else exists full: Sizes ::
           && (forall i | 0 <= i < 3 :: FloorOrOne(full[i], requested[i], available, SumOf(requested)))
           && Shortened(sizes, full, available)
  }

  lemma SizesAreFor(requested: Sizes, available: nat)
    requires forall i | 0 <= i < 3 :: requested[i] >= 1
    ensures SizesFor(requested, available, ScaledSizes(requested, available))
  {
    ScalingBounds(requested, available);
    if available < SumOf(requested) {
      var full := SizesAreProportional(requested, available);
    }
  }

  // The holdout is the last sessions, as many as asked for but leaving three at least (a request
  // of 0 or less is an index from the front), and it has enough rows.
  ghost predicate HoldoutAt(rows: seq<int>, s: Settings, walk: Walk, k: nat) {
    var sessions := Sessions(rows);
    var n := |sessions|;
    && k < n && n >= 4
    && n - k == (if s.holdoutDays >= 1 then Min(s.holdoutDays, n - 3) else n + s.holdoutDays)
    && walk.holdoutStart == sessions[k] && walk.holdoutEnd == sessions[n - 1] + 1
    && RowsOn(multiset(rows), sessions[k..]) >= s.minHoldoutRows
  }

  // An accepted walk: the holdout, the window sizes shared out of the sessions before it, and one
  // fold for each step whose windows fit and have enough rows; there is at least one.
  lemma WalkMeaning(rows: seq<int>, s: Settings) returns (k: nat, sizes: Sizes, steps: seq<nat>)
    requires WalkFor(rows, s).Ok?
    ensures s.trainDays > 0 && s.validationDays > 0 && s.testDays > 0 && s.stepDays > 0 && s.embargoDays >= 0
    ensures HoldoutAt(rows, s, WalkFor(rows, s).value, k)
    ensures (forall i | 0 <= i < 3 :: sizes[i] >= 1) && SumOf(sizes) <= k
    ensures SizesFor([s.trainDays, s.validationDays, s.testDays], k, sizes)
    ensures FoldSteps(steps, WalkFor(rows, s).value.folds, rows, Sessions(rows)[..k], sizes, s, 0, 0) && steps != []
  {
    hide FoldsFrom, ScaledSizes, Sessions, CountFrom, RowsBefore, FoldSteps, SizesFor, RowsOn, Increasing;
    WalkParts(rows, s);
    var walk, n := WalkFor(rows, s).value, |Sessions(rows)|;
    HistoryLength(rows, s.holdoutDays);
    k := if s.holdoutDays >= 1 then n - HoldoutDays(n, s.holdoutDays) else -s.holdoutDays;
    HistoryIsPrefix(rows, k);
    HoldoutRows(rows, k);
    var requested: Sizes := [s.trainDays, s.validationDays, s.testDays];
    sizes := ScaledSizes(requested, k);
    SizesAreFor(requested, k);
    HistorySpec(rows, walk.holdoutStart);
    steps := FoldsOfSteps(rows, Sessions(rows)[..k], sizes, s, walk.holdoutStart, 0, 0);
    assert StepStart(s, 0) == 0;
    StepsForFolds(steps, walk.folds, rows, Sessions(rows)[..k], sizes, s);
  }

  lemma StepsForFolds(steps: seq<nat>, folds: seq<Fold>, rows: seq<int>, history: seq<int>, sizes: Sizes, s: Settings)
    requires (forall i | 0 <= i < 3 :: sizes[i] >= 1) && s.embargoDays >= 0 && s.stepDays > 0
    requires FoldSteps(steps, folds, rows, history, sizes, s, 0, 0)
    ensures |steps| == |folds|
  {
  }
}
