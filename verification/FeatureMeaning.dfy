// What the values of a feature record and of its label are, in terms of bar positions in the
// frame: stated without the functions that compute them.
module FeatureMeaning {
  import opened Common
  import opened Ordering
  import opened Features

  // ---------- sessions as ranges of positions

  // The bars of day d are those at the positions a..c-1.
  ghost predicate SessionAt(cal: Calendar, f: Frame, d: int, a: nat, c: nat) {
    && a <= c <= |f|
    && forall i | 0 <= i < |f| :: a <= i < c <==> cal.day(f[i].ts) == d
  }

  // Of these, the ones at a..b-1 are those up to the decision; both parts have bars.
  ghost predicate DecisionAt(cal: Calendar, f: Frame, d: int, ts: int, a: nat, b: nat, c: nat) {
    && a < b < c && SessionAt(cal, f, d, a, c)
    && forall i | a <= i < c :: i < b <==> f[i].ts <= ts
  }

  // A bar put before the others shifts their ranges.
  lemma SessionShifts(cal: Calendar, f: Frame, d: int, a: nat, c: nat)
    requires f != [] && ValidCalendar(cal) && InTimeOrder(f) && SessionAt(cal, f[1..], d, a, c)
    ensures cal.day(f[0].ts) != d ==> SessionAt(cal, f, d, a + 1, c + 1)
    ensures cal.day(f[0].ts) == d && a == c ==> SessionAt(cal, f, d, 0, 1)
    ensures cal.day(f[0].ts) == d && a < c ==> a == 0 && SessionAt(cal, f, d, 0, c + 1)
  {
    forall i | 0 < i < |f|
      ensures (a + 1 <= i < c + 1 <==> cal.day(f[i].ts) == d) && cal.day(f[0].ts) <= cal.day(f[1].ts) <= cal.day(f[i].ts)
    {
      assert f[1..][i - 1] == f[i] && f[1..][0] == f[1];
    }
    assert a < c && cal.day(f[0].ts) == d ==> cal.day(f[a + 1].ts) == d && cal.day(f[1].ts) == d;
  }

  lemma {:induction false} SessionIsRange(cal: Calendar, f: Frame, d: int) returns (a: nat, c: nat)
    requires ValidCalendar(cal) && InTimeOrder(f)
    ensures SessionAt(cal, f, d, a, c) && Session(cal, f, d) == f[a..c]
  {
    if f == [] {
      a, c := 0, 0;
    } else {
      assert InTimeOrder(f[1..]);
      var a', c' := SessionIsRange(cal, f[1..], d);
      SessionShifts(cal, f, d, a', c');
      assert f[1..][a'..c'] == f[a' + 1..c' + 1];
      hide SessionAt, InTimeOrder, ValidCalendar;
      if cal.day(f[0].ts) != d {
        a, c := a' + 1, c' + 1;
      } else if a' == c' {
        a, c := 0, 1;
      } else {
        a, c := 0, c' + 1;
        assert f[0..c' + 1] == [f[0]] + f[1..c' + 1];
      }
    }
  }

  lemma PrefixShifts(f: Frame, ts: int, b: nat)
    requires f != [] && InTimeOrder(f) && IsPrefixUpTo(f[1..], ts, b)
    ensures if f[0].ts <= ts then IsPrefixUpTo(f, ts, b + 1) else b == 0 && IsPrefixUpTo(f, ts, 0)
  {
    assert |f| > 1 ==> f[1..][0] == f[1] && f[0].ts <= f[1].ts;
    forall i | 0 < i < |f|
      ensures (i < b + 1 <==> f[i].ts <= ts) && f[0].ts <= f[i].ts
    {
      assert f[1..][i - 1] == f[i];
    }
  }

  ghost predicate IsPrefixUpTo(f: Frame, ts: int, b: nat) {
    b <= |f| && forall i | 0 <= i < |f| :: i < b <==> f[i].ts <= ts
  }

  lemma {:induction false} UpToIsPrefix(f: Frame, ts: int) returns (b: nat)
    requires InTimeOrder(f)
    ensures IsPrefixUpTo(f, ts, b) && UpTo(f, ts) == f[..b] && After(f, ts) == f[b..]
  {
    if f == [] {
      b := 0;
    } else {
      assert InTimeOrder(f[1..]);
      var b' := UpToIsPrefix(f[1..], ts);
      PrefixShifts(f, ts, b');
      hide IsPrefixUpTo, InTimeOrder;
      if f[0].ts <= ts {
        b := b' + 1;
        assert f[..b] == [f[0]] + f[1..][..b'];
        assert f[b..] == f[1..][b'..];
      } else {
        b := 0;
        assert f == [f[0]] + f[1..];
      }
    }
  }

  lemma RangeIsUnique(cal: Calendar, f: Frame, d: int, a: nat, c: nat, a': nat, c': nat)
    requires a < c && SessionAt(cal, f, d, a, c) && SessionAt(cal, f, d, a', c')
    ensures a == a' && c == c'
  {
    assert cal.day(f[a].ts) == d && cal.day(f[c - 1].ts) == d;
    assert cal.day(f[a'].ts) == d && cal.day(f[c' - 1].ts) == d;
  }

  lemma SessionOfRange(cal: Calendar, f: Frame, d: int, a: nat, c: nat)
    requires ValidCalendar(cal) && InTimeOrder(f) && a < c && SessionAt(cal, f, d, a, c)
    ensures c <= |f| && Session(cal, f, d) == f[a..c]
  {
    var a', c' := SessionIsRange(cal, f, d);
    RangeIsUnique(cal, f, d, a, c, a', c');
  }

  lemma AroundDecision(cal: Calendar, f: Frame, d: int, ts: int, a: nat, b: nat, c: nat)
    requires DecisionAt(cal, f, d, ts, a, b, c)
    ensures SessionAt(cal, f, d, a, c) && a < b < c <= |f| && f[b - 1].ts <= ts < f[b].ts
  {
  }

  // The two parts of the session are the ranges of the decision.
  lemma DecisionParts(cal: Calendar, f: Frame, d: int, time: string, a: nat, b: nat, c: nat)
    requires ValidCalendar(cal) && InTimeOrder(f) && DecisionAt(cal, f, d, cal.decision(d, time), a, b, c)
    ensures a < b < c <= |f| && Session(cal, f, d) == f[a..c] && HasRecord(cal, f, d, time)
    ensures UpTo(Session(cal, f, d), cal.decision(d, time)) == f[a..b]
    ensures After(Session(cal, f, d), cal.decision(d, time)) == f[b..c]
  {
    hide ValidCalendar, InTimeOrder, Session, UpTo, After, DecisionAt, SessionAt;
    AroundDecision(cal, f, d, cal.decision(d, time), a, b, c);
    SessionOfRange(cal, f, d, a, c);
    SessionInOrder(cal, f, d);
    SplitByDecision(f[a..c], cal.decision(d, time), b - a);
    assert f[a..c][..b - a] == f[a..b] && f[a..c][b - a..] == f[b..c];
  }

  lemma SplitByDecision(f: Frame, ts: int, m: nat)
    requires InTimeOrder(f) && 0 < m < |f| && f[m - 1].ts <= ts < f[m].ts
    ensures UpTo(f, ts) == f[..m] && After(f, ts) == f[m..]
  {
    var k := UpToIsPrefix(f, ts);
    assert k == m;
  }

  // A decision gives a record exactly when its session has bars on both sides of it.
  lemma HasRecordIff(cal: Calendar, f: Frame, d: int, time: string)
    requires ValidCalendar(cal) && InTimeOrder(f)
    ensures HasRecord(cal, f, d, time) <==> exists a, b, c :: DecisionAt(cal, f, d, cal.decision(d, time), a, b, c)
  {
    var ts := cal.decision(d, time);
    if HasRecord(cal, f, d, time) {
      var a, c := SessionIsRange(cal, f, d);
      SessionInOrder(cal, f, d);
      var k := UpToIsPrefix(f[a..c], ts);
      assert forall i | a <= i < c :: f[a..c][i - a] == f[i];
      assert DecisionAt(cal, f, d, ts, a, a + k, c);
    }
    if a: nat, b: nat, c: nat :| DecisionAt(cal, f, d, ts, a, b, c) {
      DecisionParts(cal, f, d, time, a, b, c);
    }
  }

  // ---------- sums, products and extremes

  // Sum is the sum.
  lemma {:induction false} SumOfParts(xs: seq<real>, ys: seq<real>)
    ensures Sum(xs + ys) == Sum(xs) + Sum(ys)
    ensures Sum([]) == 0.0 && forall x :: Sum([x]) == x
  {
    if xs == [] {
      assert xs + ys == ys;
    } else {
      assert (xs + ys)[1..] == xs[1..] + ys;
      SumOfParts(xs[1..], ys);
    }
  }

  function Volumes(f: Frame): seq<real> { seq(|f|, i requires 0 <= i < |f| => f[i].volume) }

  function DollarVolumes(f: Frame): seq<real> { seq(|f|, i requires 0 <= i < |f| => Dollars(f[i])) }

  function Dollars(b: Bar): real { b.close * b.volume }

  lemma {:induction false} VolumesAreSums(f: Frame)
    ensures Volume(f) == Sum(Volumes(f)) && DollarVolume(f) == Sum(DollarVolumes(f))
  {
    if f != [] {
      VolumesAreSums(f[1..]);
      assert Volumes(f)[1..] == Volumes(f[1..]);
      assert DollarVolumes(f)[1..] == DollarVolumes(f[1..]);
    }
  }

  ghost predicate IsHighest(high: real, f: Frame) {
    (forall i | 0 <= i < |f| :: f[i].high <= high) && exists i :: 0 <= i < |f| && f[i].high == high
  }

  ghost predicate IsLowest(low: real, f: Frame) {
    (forall i | 0 <= i < |f| :: low <= f[i].low) && exists i :: 0 <= i < |f| && f[i].low == low
  }

  lemma {:induction false} ExtremesReached(f: Frame)
    requires f != []
    ensures IsHighest(MaxHigh(f), f) && IsLowest(MinLow(f), f)
  {
    if |f| == 1 {
      assert f[0].high == MaxHigh(f) && f[0].low == MinLow(f);
    } else {
      ExtremesReached(f[1..]);
      var i :| 0 <= i < |f[1..]| && f[1..][i].high == MaxHigh(f[1..]);
      var j :| 0 <= j < |f[1..]| && f[1..][j].low == MinLow(f[1..]);
      assert f[0].high == MaxHigh(f) || f[i + 1].high == MaxHigh(f);
      assert f[0].low == MinLow(f) || f[j + 1].low == MinLow(f);
      forall k | 0 <= k < |f|
        ensures f[k].high <= MaxHigh(f) && MinLow(f) <= f[k].low
      {
        ExtremesBound(f, k);
      }
    }
  }

  // r is the relative change from `base` to `x`, absent for a zero base.
  ghost predicate IsChange(r: Option<real>, x: real, base: real) {
    if base == 0.0 then r.None? else r.Some? && (1.0 + r.value) * base == x
  }

  ghost predicate IsShare(r: Option<real>, x: real, base: real) {
    if base == 0.0 then r.None? else r.Some? && r.value * base == x
  }

  lemma ChangeIsChange(x: real, y: real)
    ensures IsChange(Change(x, y), x, y)
  {
    if y != 0.0 {
      var q := x / y;
      assert q * y == x;
    }
  }

  // ---------- the session so far

  ghost predicate WindowFields(r: Feature, cal: Calendar, f: Frame, a: nat, b: nat, c: nat)
    requires a < b < c <= |f|
  {
    && r.barsSeen == b - a
    && r.open == f[a].open && r.last == f[b - 1].close
    && IsHighest(r.high, f[a..b]) && IsLowest(r.low, f[a..b])
    && r.volumeSoFar == Sum(Volumes(f[a..b])) && r.dollarVolumeSoFar == Sum(DollarVolumes(f[a..b]))
    && IsChange(r.windowReturn, f[b - 1].close, f[a].open)
    && IsShare(r.windowRange, r.high - r.low, f[a].open)
    && (if r.high > r.low then r.low + r.closeLocation * (r.high - r.low) == f[b - 1].close else r.closeLocation == 0.5)
    && 60 * r.minutesSinceOpen <= f[b - 1].ts - f[a].ts < 60 * (r.minutesSinceOpen + 1)
    && 60 * r.minutesToClose <= cal.close(r.sessionDate) - f[b - 1].ts < 60 * (r.minutesToClose + 1)
  }

  // The session's bars up to the decision give the record its window fields.
  lemma WindowMeaning(cal: Calendar, st: Statistics, symbol: string, f: Frame, bench: Frame, d: int, time: string,
                      a: nat, b: nat, c: nat)
    requires ValidCalendar(cal) && InTimeOrder(f) && DecisionAt(cal, f, d, cal.decision(d, time), a, b, c)
    ensures HasRecord(cal, f, d, time)
    ensures var r := FeatureAt(cal, st, symbol, f, bench, d, time);
            && r.symbol == symbol && r.sessionDate == d && r.decisionTime == time && r.decisionTs == cal.decision(d, time)
            && WindowFields(r, cal, f, a, b, c)
  {
    hide Session, UpTo, After, Summaries, History, BenchmarkPart, Rolling, DecisionAt, ValidCalendar, InTimeOrder;
    DecisionParts(cal, f, d, time, a, b, c);
    WindowOfRecord(cal, f, a, b, c, FeatureAt(cal, st, symbol, f, bench, d, time));
  }

  // The computed window fields have the stated meaning.
  lemma WindowOfRecord(cal: Calendar, f: Frame, a: nat, b: nat, c: nat, r: Feature)
    requires a < b < c <= |f|
    requires var seen := f[a..b];
             && r.barsSeen == |seen| && r.open == seen[0].open && r.last == seen[|seen| - 1].close
             && r.high == MaxHigh(seen) && r.low == MinLow(seen)
             && r.volumeSoFar == Volume(seen) && r.dollarVolumeSoFar == DollarVolume(seen)
             && r.windowReturn == Change(r.last, r.open)
             && r.windowRange == (if r.open == 0.0 then None else Some((r.high - r.low) / r.open))
             && r.closeLocation == (if r.high > r.low then (r.last - r.low) / (r.high - r.low) else 0.5)
             && r.minutesSinceOpen == (seen[|seen| - 1].ts - seen[0].ts) / 60
             && r.minutesToClose == (cal.close(r.sessionDate) - seen[|seen| - 1].ts) / 60
    ensures WindowFields(r, cal, f, a, b, c)
  {
    hide MaxHigh, MinLow, Volume, DollarVolume, Change, Sum, IsHighest, IsLowest, IsChange, Volumes, DollarVolumes;
    var seen := f[a..b];
    ExtremesReached(seen);
    VolumesAreSums(seen);
    ChangeIsChange(r.last, r.open);
    assert seen[0] == f[a] && seen[|seen| - 1] == f[b - 1];
    if r.high > r.low {
      QuotientTimes(r.last - r.low, r.high - r.low);
    }
    if r.open != 0.0 {
      QuotientTimes(r.high - r.low, r.open);
    }
  }

  lemma QuotientTimes(x: real, y: real)
    requires y != 0.0
    ensures x / y * y == x
  {
  }

  // ---------- the session before

  // The last earlier session takes the positions p..a-1.
  ghost predicate PriorFields(r: Feature, st: Statistics, f: Frame, p: nat, a: nat)
    requires p < a < |f|
  {
    && IsChange(r.gapReturn, f[a].open, f[a - 1].close)
    && IsChange(r.priorReturn, f[a - 1].close, f[p].open)
    && (exists high, low :: IsHighest(high, f[p..a]) && IsLowest(low, f[p..a]) && IsShare(r.priorRange, high - low, f[p].open))
    && r.priorVolume == Some(Sum(Volumes(f[p..a])))
    && r.priorVolatility == Some(st.realizedVolatility(seq(a - p, i requires 0 <= i < a - p => f[p + i].close)))
  }

  lemma {:induction false} SummaryAt(cal: Calendar, st: Statistics, f: Frame, days: seq<int>, i: nat)
    requires i < |days| && forall d | d in days :: Session(cal, f, d) != []
    ensures |SummariesOf(cal, st, f, days)| == |days|
    ensures SummariesOf(cal, st, f, days)[i] == Summarize(st, days[i], Session(cal, f, days[i]))
  {
    SummaryDays(cal, st, f, days);
    if i > 0 {
      assert days[0] in days;
      assert forall d | d in days[1..] :: d in days;
      SummaryAt(cal, st, f, days[1..], i - 1);
      assert SummariesOf(cal, st, f, days)
             == [Summarize(st, days[0], Session(cal, f, days[0]))] + SummariesOf(cal, st, f, days[1..]);
    }
  }

  // The earlier days are those of the bars before the session.
  lemma EarlierDay(cal: Calendar, f: Frame, d: int, a: nat, c: nat, x: int)
    requires ValidCalendar(cal) && InTimeOrder(f) && SessionAt(cal, f, d, a, c) && a < c
    ensures x in Before(Days(cal, f), d) <==> exists i :: 0 <= i < a && cal.day(f[i].ts) == x
    ensures x in Before(Days(cal, f), d) ==> Session(cal, f, x) != []
  {
    hide Days, Before, Session;
    DaysSpec(cal, f);
    BeforeSpec(Days(cal, f), d);
    InSession(cal, f, x);
    assert forall i | a <= i < |f| :: d == cal.day(f[a].ts) <= cal.day(f[i].ts);
    if x in Before(Days(cal, f), d) {
      var i :| 0 <= i < |DaysOf(cal, f)| && DaysOf(cal, f)[i] == x;
      assert cal.day(f[i].ts) == x;
    }
    if i :| 0 <= i < a && cal.day(f[i].ts) == x {
      assert DaysOf(cal, f)[i] == x;
      assert f[i].ts <= f[a].ts;
    }
  }

  // The last of them is that of the bar right before it.
  lemma EarlierDays(cal: Calendar, f: Frame, d: int, a: nat, c: nat)
    requires ValidCalendar(cal) && InTimeOrder(f) && SessionAt(cal, f, d, a, c) && a < c
    ensures forall x | x in Before(Days(cal, f), d) :: Session(cal, f, x) != []
    ensures a == 0 <==> Before(Days(cal, f), d) == []
    ensures a > 0 ==> Before(Days(cal, f), d)[|Before(Days(cal, f), d)| - 1] == cal.day(f[a - 1].ts)
  {
    var early := Before(Days(cal, f), d);
    forall x
      ensures x in early <==> exists i :: 0 <= i < a && cal.day(f[i].ts) == x
      ensures x in early ==> Session(cal, f, x) != []
    {
      EarlierDay(cal, f, d, a, c, x);
    }
    DaysSpec(cal, f);
    BeforeSpec(Days(cal, f), d);
    IntsIncrease(early);
    hide Days, Before, Session;
    if a > 0 {
      var e := cal.day(f[a - 1].ts);
      assert e in early;
      var last := early[|early| - 1];
      assert last in early;
      var i :| 0 <= i < a && cal.day(f[i].ts) == last;
      assert f[i].ts <= f[a - 1].ts;
      assert last <= e;
    } else {
      assert forall x :: x !in early;
    }
  }

  // The gap and the prior fields come from the session that ends right before this one.
  lemma PriorMeaning(cal: Calendar, st: Statistics, symbol: string, f: Frame, bench: Frame, d: int, time: string,
                     a: nat, b: nat, c: nat) returns (p: nat)
    requires ValidCalendar(cal) && InTimeOrder(f) && DecisionAt(cal, f, d, cal.decision(d, time), a, b, c)
    ensures HasRecord(cal, f, d, time)
    ensures var r := FeatureAt(cal, st, symbol, f, bench, d, time);
            if a == 0 then
              r.gapReturn == r.priorReturn == r.priorRange == r.priorVolume == r.priorVolatility == None
            else
              p < a && SessionAt(cal, f, cal.day(f[a - 1].ts), p, a) && PriorFields(r, st, f, p, a)
  {
    hide Days, Before, Session, SummariesOf, Summaries, Position, History, HasRecord;
    DecisionParts(cal, f, d, time, a, b, c);
    p := 0;
    var r := FeatureAt(cal, st, symbol, f, bench, d, time);
    var early := Before(Days(cal, f), d);
    EarlierDays(cal, f, d, a, c);
    PastIsPosition(cal, st, f, d);
    var past := SummariesOf(cal, st, f, early);
    SummaryDays(cal, st, f, early);
    if a > 0 {
      var e := cal.day(f[a - 1].ts);
      assert cal.day(f[a].ts) == d != e;
      SummaryAt(cal, st, f, early, |early| - 1);
      var q: nat;
      p, q := SessionIsRange(cal, f, e);
      assert p <= a - 1 < q;
      PriorFromSummary(st, e, f, p, a, r);
    }
  }

  // The values of a summary, in terms of its bars.
  lemma PriorFromSummary(st: Statistics, e: int, f: Frame, p: nat, a: nat, r: Feature)
    requires p < a < |f|
    requires var s := Summarize(st, e, f[p..a]);
             && r.gapReturn == Change(f[a].open, s.close) && r.priorReturn == s.returnPct && r.priorRange == s.rangePct
             && r.priorVolume == Some(s.volume) && r.priorVolatility == Some(s.realizedVolatility)
    ensures PriorFields(r, st, f, p, a)
  {
    hide MaxHigh, MinLow, Volume, DollarVolume, Change, Sum, IsHighest, IsLowest, IsChange, Volumes;
    var session := f[p..a];
    ExtremesReached(session);
    VolumesAreSums(session);
    assert session[0] == f[p] && session[|session| - 1] == f[a - 1];
    ChangeIsChange(f[a].open, f[a - 1].close);
    ChangeIsChange(f[a - 1].close, f[p].open);
    if f[p].open != 0.0 {
      QuotientTimes(MaxHigh(session) - MinLow(session), f[p].open);
    }
    assert IsShare(r.priorRange, MaxHigh(session) - MinLow(session), f[p].open);
    assert Closes(session) == seq(a - p, i requires 0 <= i < a - p => f[p + i].close);
  }

  // ---------- the label

  ghost predicate IsBps(r: Option<real>, x: real, base: real) {
    if base == 0.0 then r.None? else r.Some? && r.value * base == (x - base) * 10000.0
  }

  // Bought at the last close by the decision, sold at the session's last close.
  ghost predicate LabelMeans(l: Label, st: Statistics, symbol: string, d: int, time: string, f: Frame, b: nat, c: nat, cost: real)
    requires 0 < b < c <= |f|
  {
    && l.symbol == symbol && l.sessionDate == d && l.decisionTime == time
    && l.exitTs == f[c - 1].ts && l.entryPrice == f[b - 1].close && l.exitPrice == f[c - 1].close
    && (if l.entryPrice == 0.0 then l.returnBps == 0.0
        else l.returnBps * l.entryPrice == (l.exitPrice - l.entryPrice) * 10000.0)
    && l.netReturnBps == l.returnBps - cost && (l.positiveAfterCost <==> l.returnBps > cost)
    && (exists high, low ::
          && IsHighest(high, f[b..c]) && IsLowest(low, f[b..c])
          && IsBps(l.maxRunupBps, high, l.entryPrice) && IsBps(l.maxDrawdownBps, low, l.entryPrice))
    && l.volatilityBps == st.pathVolatility(seq(c - b, i requires 0 <= i < c - b => f[b + i].close))
  }

  lemma ChangeInBps(x: real, base: real)
    ensures IsBps(ChangeBps(x, base), x, base)
  {
    if base != 0.0 {
      QuotientTimes(x, base);
      assert (x / base - 1.0) * 10000.0 * base == (x / base * base - base) * 10000.0;
    }
  }

  lemma LabelMeaning(cal: Calendar, st: Statistics, symbol: string, f: Frame, d: int, time: string, cost: real,
                     a: nat, b: nat, c: nat)
    requires ValidCalendar(cal) && InTimeOrder(f) && DecisionAt(cal, f, d, cal.decision(d, time), a, b, c)
    ensures HasRecord(cal, f, d, time)
    ensures LabelMeans(LabelAt(cal, st, symbol, f, d, time, cost), st, symbol, d, time, f, b, c, cost)
  {
    hide Session, UpTo, After, DecisionAt, ValidCalendar, InTimeOrder;
    DecisionParts(cal, f, d, time, a, b, c);
    assert f[a..b][b - a - 1] == f[b - 1];
    hide HasRecord, LabelOf, LabelMeans;
    LabelOfFuture(st, symbol, d, time, f, b, c, cost);
  }

  lemma LabelOfFuture(st: Statistics, symbol: string, d: int, time: string, f: Frame, b: nat, c: nat, cost: real)
    requires 0 < b < c <= |f|
    ensures LabelMeans(LabelOf(st, symbol, d, time, f[b - 1].close, f[b..c], cost), st, symbol, d, time, f, b, c, cost)
  {
    hide MaxHigh, MinLow, ChangeBps, IsHighest, IsLowest;
    var future, last := f[b..c], f[b - 1].close;
    assert future[c - b - 1] == f[c - 1];
    assert Closes(future) == seq(c - b, i requires 0 <= i < c - b => f[b + i].close);
    ExtremesReached(future);
    ChangeInBps(f[c - 1].close, last);
    ChangeInBps(MaxHigh(future), last);
    ChangeInBps(MinLow(future), last);
  }
}
