// Progress reporting: backtests/argo_progress.py (percentages, the n/total text, the throttled
// writer), the order of the hooks in cli.py, and the weighted percentage of
// datasets/argo_progress_status.py.
module Progress {
  import opened Common
  import opened Rounding
  import opened Text

  // ---------- the n/total text

  function Clamp(completed: int, total: int): int { Max(0, Min(total, completed)) }

  // What write_argo_progress puts into the file.
  function ProgressText(completed: int, total: int): string {
    IntText(Clamp(completed, total)) + "/" + IntText(total) + "\n"
  }

  function IndexOf(s: string, c: char): nat {
    if s == "" || s[0] == c then 0 else 1 + IndexOf(s[1..], c)
  }

  lemma {:induction false} IndexOfSeparator(a: string, c: char, b: string)
    requires c !in a
    ensures IndexOf(a + [c] + b, c) == |a|
  {
    if a != "" {
      assert (a + [c] + b)[1..] == a[1..] + [c] + b;
      IndexOfSeparator(a[1..], c, b);
    }
  }

  function ParseLine(line: string): Option<(int, int)> {
    var slash := IndexOf(line, '/');
    if slash >= |line| then None
    else
      match (PyInt(Strip(line[..slash])), PyInt(Strip(line[slash + 1..])))
      case (Some(completed), Some(total)) => if completed < 0 || total < 0 then None else Some((completed, total))
      case (_, _) => None
  }

  // parse_argo_progress: None when the last line is not two non-negative ints around a slash.
  function ParseProgress(value: string): Option<(int, int)> { ParseLine(Strip(LastLine(Strip(value)))) }

  lemma IntTextChars(n: int)
    ensures IntText(n) != "" && Trimmed(IntText(n)) && IsDigit(IntText(n)[|IntText(n)| - 1])
    ensures forall i | 0 <= i < |IntText(n)| :: IsDigit(IntText(n)[i]) || IntText(n)[i] == '-'
  {
    DecimalDigits(if n < 0 then -n else n);
  }

  lemma StripNewline(line: string)
    requires line != "" && Trimmed(line)
    ensures Strip(line + "\n") == line
  {
    var text := line + "\n";
    assert LStrip(text) == text;
    assert text[..|text| - 1] == line;
    assert RStrip(text) == RStrip(line) == line;
  }

  lemma ParseIntPair(k: int, total: int)
    ensures ParseLine(IntText(k) + "/" + IntText(total)) == if k < 0 || total < 0 then None else Some((k, total))
  {
    var left, right := IntText(k), IntText(total);
    IntTextChars(k);
    IntTextChars(total);
    var line := left + "/" + right;
    assert line == left + ['/'] + right;
    IndexOfSeparator(left, '/', right);
    assert line[..|left|] == left && line[|left| + 1..] == right;
    StripFixed(left);
    StripFixed(right);
    IntRoundTrip(k);
    IntRoundTrip(total);
  }

  // Reading back what was written gives the clamped count and the total, exactly when the total
  // is not negative.
  lemma ParseInvertsWrite(completed: int, total: int)
    ensures ParseProgress(ProgressText(completed, total))
            == if total < 0 then None
               else Some((if completed < 0 then 0 else if completed > total then total else completed, total))
  {
    var k := Clamp(completed, total);
    IntTextChars(k);
    IntTextChars(total);
    var line := IntText(k) + "/" + IntText(total);
    assert Trimmed(line);
    StripNewline(line);
    LastLineFixed(line);
    StripFixed(line);
    ParseIntPair(k, total);
  }

  lemma {:induction false} LastLineAfter(head: string, line: string)
    requires (head == "" || IsLineBreak(head[|head| - 1])) && forall i | 0 <= i < |line| :: !IsLineBreak(line[i])
    ensures LastLine(head + line) == line
    decreases |line|
  {
    if line == "" {
      assert head + line == head;
    } else {
      var n := |line| - 1;
      assert (head + line)[..|head + line| - 1] == head + line[..n];
      LastLineAfter(head, line[..n]);
    }
  }

  lemma StripLonger(a: string, s: string, b: string)
    requires (forall c | c in a :: IsSpace(c)) && forall c | c in b :: IsSpace(c)
    ensures Strip(a + s + b) == Strip(s) && Strip(Strip(s)) == Strip(s)
  {
    var x, y := StripMeaning(s);
    assert a + s + b == (a + x) + Strip(s) + (y + b);
    StripIs(a + x, Strip(s), y + b);
    StripFixed(Strip(s));
  }

  // A line stripped around its slash, and both sides stripped again.
  lemma SlashLine(left: string, right: string) returns (x: string, y: string)
    ensures Strip(left + "/" + right) == x + "/" + y && Strip(x) == Strip(left) && Strip(y) == Strip(right)
    ensures forall c | c in x :: c in left
  {
    hide LStrip, RStrip, Strip;
    var a := LStripTakes(left);
    var b := RStripTakes(right);
    x, y := LStrip(left), RStrip(right);
    assert forall c | c in x :: c in a + x;
    LStripTrims(left);
    RStripTrims(right);
    var t := x + "/" + y;
    assert Trimmed(t);
    assert left + "/" + right == a + t + b;
    StripIs(a, t, b);
    StripLonger(a, x, "");
    StripLonger("", y, b);
    assert a + x + "" == left && "" + y + b == right;
  }

  lemma PyIntOfStrip(s: string)
    ensures PyInt(Strip(s)) == PyInt(s)
  {
    StripLonger("", s, "");
  }

  // Of a text without outer white space only the last line counts, and in it the ints on the two
  // sides of its first slash; neither may be negative.
  lemma ParseMeaning(head: string, left: string, right: string)
    requires Trimmed(head + left + "/" + right) && (head == "" || IsLineBreak(head[|head| - 1]))
    requires '/' !in left && forall c | c in left + right :: !IsLineBreak(c)
    ensures ParseProgress(head + left + "/" + right)
            == match (PyInt(left), PyInt(right))
               case (Some(n), Some(m)) => if n >= 0 && m >= 0 then Some((n, m)) else None
               case _ => None
  {
    hide PyInt, Strip, LastLine, Trimmed;
    var value, line := head + left + "/" + right, left + "/" + right;
    assert value == head + line;
    StripFixed(value);
    assert forall i | 0 <= i < |line| :: line[i] in left + right || line[i] == '/';
    LastLineAfter(head, line);
    var a, b := SlashLine(left, right);
    IndexOfSeparator(a, '/', b);
    var stripped := Strip(line);
    assert stripped == a + ['/'] + b;
    assert stripped[..|a|] == a && stripped[|a| + 1..] == b;
    PyIntOfStrip(left);
    PyIntOfStrip(right);
  }

  function ProgressFraction(completed: int, total: int): (f: real)
    ensures 0.0 <= f <= 1.0
  {
    if total <= 0 then 0.0 else MinR(1.0, MaxR(0.0, completed as real / total as real))
  }

  // The fraction is exact between 0 and the total, and full or empty only where it should be.
  lemma FractionIsExact(completed: int, total: int)
    requires total > 0
    ensures 0 <= completed <= total ==> ProgressFraction(completed, total) * total as real == completed as real
    ensures ProgressFraction(completed, total) == 1.0 <==> completed >= total
    ensures ProgressFraction(completed, total) == 0.0 <==> completed <= 0
  {
  }

  // ---------- the percentages of a command line run

  const TOTAL := 100

  function PctFromRunIndex(idx: int, total: int): int {
    if total <= 0 then TOTAL else Round((idx * TOTAL) as real / total as real)
  }

  function PctFromRunAndBar(runIdx: int, totalRuns: int, barIdx: int, barTotal: int): int {
    if totalRuns <= 0 then TOTAL
    else if barTotal <= 0 then PctFromRunIndex(runIdx, totalRuns)
    else
      var completed := (runIdx - 1) as real + barIdx as real / barTotal as real;
      Round(MinR(1.0, completed / totalRuns as real) * 100.0)
  }

  // Both percentages are one non-decreasing function of how many runs are done.
  function PctAt(position: real, total: int): int
    requires total > 0
  {
    Round(MinR(1.0, position / total as real) * 100.0)
  }

  lemma PctAtMonotone(a: real, b: real, total: int)
    requires total > 0 && a <= b
    ensures PctAt(a, total) <= PctAt(b, total)
  {
    DivideLe(a, b, total as real);
    RoundMonotone(MinR(1.0, a / total as real) * 100.0, MinR(1.0, b / total as real) * 100.0);
  }

  lemma RunIndexIsPosition(idx: int, total: int)
    requires total > 0 && idx <= total
    ensures PctFromRunIndex(idx, total) == PctAt(idx as real, total)
    ensures idx == 0 ==> PctFromRunIndex(idx, total) == 0
    ensures idx == total ==> PctFromRunIndex(idx, total) == TOTAL
  {
    PercentFirst(idx as real, total as real);
    RoundInt(0);
    RoundInt(TOTAL);
  }

  // pct is 100 * part / whole to the nearest integer, and the even one of two.
  predicate NearestPct(pct: int, part: int, whole: int) {
    var off := 2 * (pct * whole - 100 * part);
    -whole <= off <= whole && (off == whole || off == -whole ==> pct % 2 == 0)
  }

  // The percentages are those of the share of the work: whole runs, and bars within the run.
  lemma PercentMeaning(idx: int, total: int, seen: int, barTotal: int)
    ensures total <= 0 ==> PctFromRunIndex(idx, total) == PctFromRunAndBar(idx, total, seen, barTotal) == 100
    ensures total > 0 && barTotal <= 0 ==> PctFromRunAndBar(idx, total, seen, barTotal) == PctFromRunIndex(idx, total)
    ensures total > 0 ==> NearestPct(PctFromRunIndex(idx, total), idx, total)
    ensures 0 < idx <= total && 0 <= seen <= barTotal && barTotal > 0
            ==> NearestPct(PctFromRunAndBar(idx, total, seen, barTotal), (idx - 1) * barTotal + seen, total * barTotal)
  {
    if total > 0 {
      NearestQuotient((idx * TOTAL) as real / total as real, idx, total);
      if 0 < idx <= total && 0 <= seen <= barTotal && barTotal > 0 {
        BarShare(idx, total, seen, barTotal);
      }
    }
  }

  lemma BarShare(idx: int, total: int, seen: int, barTotal: int)
    requires 0 < idx <= total && 0 <= seen <= barTotal && barTotal > 0
    ensures NearestPct(PctFromRunAndBar(idx, total, seen, barTotal), (idx - 1) * barTotal + seen, total * barTotal)
  {
    var b, t, part := barTotal as real, total as real, (idx - 1) * barTotal + seen;
    ShareOfBars((idx - 1) as real, seen as real, b, t);
    ProductAsReal(idx - 1, barTotal);
    ProductAsReal(total, barTotal);
    var x := ((idx - 1) as real + seen as real / b) / t * 100.0;
    assert x * (t * b) == 100.0 * part as real;
    assert PctFromRunAndBar(idx, total, seen, barTotal) == Round(x);
    hide PctFromRunAndBar;
    NearestQuotient(x, part, total * barTotal);
  }

  lemma ShareOfBars(k: real, seen: real, b: real, t: real)
    requires 0.0 <= seen <= b && b > 0.0 && k + 1.0 <= t && t > 0.0
    ensures (k + seen / b) / t <= 1.0
    ensures (k + seen / b) / t * 100.0 * (t * b) == 100.0 * (k * b + seen)
  {
    var q := seen / b;
    QuotientOf(seen, b);
    var c := k + q;
    QuotientOf(c, t);
    assert c * b == k * b + q * b;
    Regroup(c / t, t, b, c);
  }

  lemma QuotientOf(x: real, y: real)
    requires y > 0.0 && x <= y
    ensures x / y * y == x && x / y <= 1.0
  {
  }

  lemma Regroup(h: real, t: real, b: real, c: real)
    requires h * t == c
    ensures h * 100.0 * (t * b) == 100.0 * (c * b)
  {
    assert h * 100.0 * (t * b) == 100.0 * ((h * t) * b);
  }

  lemma NearestQuotient(x: real, part: int, whole: int)
    requires whole > 0 && x * whole as real == (100 * part) as real
    ensures NearestPct(Round(x), part, whole)
  {
    RoundNearest(x);
    hide Round;
    var r, w := Round(x), whole as real;
    var y := r as real - x;
    var z := y * w;
    ProductAsReal(r, whole);
    assert z == (r * whole) as real - (100 * part) as real;
    assert w - 2.0 * z == (1.0 - 2.0 * y) * w && w + 2.0 * z == (1.0 + 2.0 * y) * w;
    var off := 2 * (r * whole - 100 * part);
    assert off as real == 2.0 * z;
  }

  lemma ProductAsReal(a: int, b: int)
    ensures a as real * b as real == (a * b) as real
  {
  }

  lemma PercentFirst(x: real, t: real)
    requires t > 0.0 && x <= t
    ensures x * 100.0 / t == x / t * 100.0 == MinR(1.0, x / t) * 100.0
    ensures x == t ==> x / t == 1.0
  {
  }

  // One run's bar callbacks: the bar counts seen, out of the feed's length.
  datatype Bars = Bars(total: int, seen: seq<int>)

  // The counts only grow and never pass the length of the feed.
  predicate InFeed(bars: Bars) {
    && (forall i | 0 <= i < |bars.seen| :: 0 <= bars.seen[i] && (bars.total > 0 ==> bars.seen[i] <= bars.total))
    && (forall i, j | 0 <= i <= j < |bars.seen| :: bars.seen[i] <= bars.seen[j])
  }

  function BarReports(idx: int, total: int, bars: Bars, n: nat): (r: seq<int>)
    requires n <= |bars.seen|
    ensures |r| == n && forall i | 0 <= i < n :: r[i] == PctFromRunAndBar(idx, total, bars.seen[i], bars.total)
  {
    if n == 0 then []
    else BarReports(idx, total, bars, n - 1) + [PctFromRunAndBar(idx, total, bars.seen[n - 1], bars.total)]
  }

  // The percentages requested while one run is executed, then up to the n-th run, then overall.
  function RunReports(idx: int, total: int, bars: Bars): seq<int> {
    [PctFromRunIndex(idx - 1, total)] + BarReports(idx, total, bars, |bars.seen|) + [PctFromRunIndex(idx, total)]
  }

  function ReportsUpTo(runs: seq<Bars>, total: int, n: nat): seq<int>
    requires n <= |runs|
  {
    if n == 0 then [] else ReportsUpTo(runs, total, n - 1) + RunReports(n, total, runs[n - 1])
  }

  function Reports(runs: seq<Bars>): seq<int> { [0] + ReportsUpTo(runs, |runs|, |runs|) + [TOTAL] }

  predicate NonDecreasing(s: seq<int>) { forall i, j | 0 <= i <= j < |s| :: s[i] <= s[j] }

  function BarPosition(idx: int, bars: Bars, seen: int): real {
    if bars.total <= 0 then idx as real else (idx - 1) as real + seen as real / bars.total as real
  }

  lemma BarIsPosition(idx: int, total: int, bars: Bars, seen: int)
    requires total > 0 && idx <= total
    requires 0 <= seen && (bars.total > 0 ==> seen <= bars.total)
    ensures PctFromRunAndBar(idx, total, seen, bars.total) == PctAt(BarPosition(idx, bars, seen), total)
    ensures (idx - 1) as real <= BarPosition(idx, bars, seen) <= idx as real
  {
    RunIndexIsPosition(idx, total);
    if bars.total > 0 {
      var b := bars.total as real;
      DivideLe(0.0, seen as real, b);
      DivideLe(seen as real, b, b);
    }
  }

  lemma BarPositionGrows(idx: int, bars: Bars, a: int, b: int)
    requires a <= b
    ensures BarPosition(idx, bars, a) <= BarPosition(idx, bars, b)
  {
  }

  lemma BarReportsClimb(idx: int, total: int, bars: Bars)
    requires 0 < idx <= total && InFeed(bars)
    ensures NonDecreasing(BarReports(idx, total, bars, |bars.seen|))
  {
    var s := BarReports(idx, total, bars, |bars.seen|);
    forall i, j | 0 <= i <= j < |s|
      ensures s[i] <= s[j]
    {
      BarIsPosition(idx, total, bars, bars.seen[i]);
      BarIsPosition(idx, total, bars, bars.seen[j]);
      BarPositionGrows(idx, bars, bars.seen[i], bars.seen[j]);
      PctAtMonotone(BarPosition(idx, bars, bars.seen[i]), BarPosition(idx, bars, bars.seen[j]), total);
    }
  }

  lemma BarIsWithinRun(idx: int, total: int, bars: Bars, seen: int)
    requires 0 < idx <= total && 0 <= seen && (bars.total > 0 ==> seen <= bars.total)
    ensures PctFromRunIndex(idx - 1, total) <= PctFromRunAndBar(idx, total, seen, bars.total) <= PctFromRunIndex(idx, total)
  {
    RunIndexIsPosition(idx - 1, total);
    RunIndexIsPosition(idx, total);
    BarIsPosition(idx, total, bars, seen);
    PctAtMonotone((idx - 1) as real, BarPosition(idx, bars, seen), total);
    PctAtMonotone(BarPosition(idx, bars, seen), idx as real, total);
  }

  // Within a run the reports climb from one run boundary to the next.
  lemma RunReportsClimb(idx: int, total: int, bars: Bars)
    requires 0 < idx <= total && InFeed(bars)
    ensures NonDecreasing(RunReports(idx, total, bars))
  {
    var n := |bars.seen|;
    var lo, middle, hi := [PctFromRunIndex(idx - 1, total)], BarReports(idx, total, bars, n), [PctFromRunIndex(idx, total)];
    BarReportsClimb(idx, total, bars);
    if n > 0 {
      BarIsWithinRun(idx, total, bars, bars.seen[0]);
      BarIsWithinRun(idx, total, bars, bars.seen[n - 1]);
    } else {
      BarIsWithinRun(idx, total, bars, 0);
    }
    Joined(lo, middle);
    Joined(lo + middle, hi);
  }

  lemma Joined(a: seq<int>, b: seq<int>)
    requires a != [] && NonDecreasing(a) && NonDecreasing(b) && (b != [] ==> a[|a| - 1] <= b[0])
    ensures NonDecreasing(a + b)
  {
  }

  lemma {:induction false} ReportsClimbUpTo(runs: seq<Bars>, total: int, n: nat)
    requires n <= |runs| && n <= total && total > 0 && forall i | 0 <= i < |runs| :: InFeed(runs[i])
    ensures var s := [0] + ReportsUpTo(runs, total, n); NonDecreasing(s) && s[|s| - 1] == PctFromRunIndex(n, total)
  {
    RunIndexIsPosition(n, total);
    if n > 0 {
      ReportsClimbUpTo(runs, total, n - 1);
      RunReportsClimb(n, total, runs[n - 1]);
      var s, t := [0] + ReportsUpTo(runs, total, n - 1), RunReports(n, total, runs[n - 1]);
      Joined(s, t);
      assert s + t == [0] + ReportsUpTo(runs, total, n);
    }
  }

  // Over a whole command the requested percentage starts at 0, ends at 100 and never goes back.
  lemma ReportsNeverDecrease(runs: seq<Bars>)
    requires forall i | 0 <= i < |runs| :: InFeed(runs[i])
    ensures NonDecreasing(Reports(runs))
    ensures Reports(runs)[0] == 0 && Reports(runs)[|Reports(runs)| - 1] == TOTAL
    ensures forall i | 0 <= i < |Reports(runs)| :: 0 <= Reports(runs)[i] <= TOTAL
  {
    if runs != [] {
      ReportsClimbUpTo(runs, |runs|, |runs|);
      RunIndexIsPosition(|runs|, |runs|);
      Joined([0] + ReportsUpTo(runs, |runs|, |runs|), [TOTAL]);
    }
    var s := Reports(runs);
    forall i | 0 <= i < |s|
      ensures 0 <= s[i] <= TOTAL
    {
      assert s[0] <= s[i] <= s[|s| - 1];
    }
  }

  // The time.monotonic() readings are an arbitrary sequence.
  class ThrottledProgressWriter {
    const total: int
    const minInterval: real
    const clock: nat -> real
    var readings: nat
    var file: string
    var lastPct: Option<int>
    var lastWriteAt: real
    ghost var requested: seq<int>

    ghost predicate LastRequested(pct: int)
      reads this
    {
      requested != [] && pct == requested[|requested| - 1]
    }

    // The file shows the last percentage requested, throttled or not.
    ghost predicate Valid()
      reads this
    {
      && total == TOTAL
      && (lastPct.Some? <==> requested != [])
      && (forall pct :: LastRequested(pct) ==> lastPct == Some(pct) && file == ProgressText(pct, total))
    }

    constructor (clock: nat -> real, minInterval: real)
      ensures Valid() && requested == [] && this.clock == clock && this.minInterval == minInterval && lastWriteAt == 0.0
    {
      this.clock, this.minInterval, total := clock, minInterval, TOTAL;
      readings, file, lastPct, lastWriteAt, requested := 0, "", None, 0.0, [];
    }

    ghost predicate Throttles(pct: int, now: real)
      reads this
    {
      lastPct == Some(pct) && lastWriteAt > 0.0 && now - lastWriteAt < minInterval
    }

    method Write(pct: int)
      requires Valid()
      modifies this
      ensures Valid() && requested == old(requested) + [pct] && readings == old(readings) + 1
      ensures lastWriteAt == if old(Throttles(pct, clock(readings))) then old(lastWriteAt) else clock(old(readings))
    {
      assert requested != [] ==> LastRequested(requested[|requested| - 1]);
      var now := clock(readings);
      readings := readings + 1;
      requested := requested + [pct];
      if lastPct == Some(pct) && lastWriteAt > 0.0 && now - lastWriteAt < minInterval { return; }
      file := ProgressText(pct, total);
      lastPct := Some(pct);
      lastWriteAt := now;
    }

    method WriteImmediate(pct: int)
      requires Valid()
      modifies this
      ensures Valid() && requested == old(requested) + [pct] && readings == old(readings) + 1
      ensures lastWriteAt == clock(old(readings))
    {
      requested := requested + [pct];
      file := ProgressText(pct, total);
      lastPct := Some(pct);
      lastWriteAt := clock(readings);
      readings := readings + 1;
    }
  }

  // Whoever reads the file between two requests sees the last percentage requested.
  lemma ShowsLast(writer: ThrottledProgressWriter, pct: int)
    requires writer.Valid() && writer.LastRequested(pct) && 0 <= pct <= TOTAL
    ensures ParseProgress(writer.file) == Some((pct, TOTAL))
  {
    ParseInvertsWrite(pct, writer.total);
  }

  // One run's hooks; a failed run reports its end exactly as a completed one does.
  method ReportRun(writer: ThrottledProgressWriter, idx: int, total: int, bars: Bars)
    requires writer.Valid()
    modifies writer
    ensures writer.Valid() && writer.requested == old(writer.requested) + RunReports(idx, total, bars)
  {
    writer.WriteImmediate(PctFromRunIndex(idx - 1, total));
    ghost var started := writer.requested;
    for i := 0 to |bars.seen|
      invariant writer.Valid() && writer.requested == started + BarReports(idx, total, bars, i)
    {
      writer.Write(PctFromRunAndBar(idx, total, bars.seen[i], bars.total));
    }
    writer.WriteImmediate(PctFromRunIndex(idx, total));
  }

  method ReportRuns(writer: ThrottledProgressWriter, runs: seq<Bars>)
    requires writer.Valid()
    modifies writer
    ensures writer.Valid() && writer.requested == old(writer.requested) + ReportsUpTo(runs, |runs|, |runs|)
  {
    hide RunReports, ProgressText;
    ghost var before := writer.requested;
    var total := |runs|;
    for i := 0 to total
      invariant writer.Valid() && writer.requested == before + ReportsUpTo(runs, total, i)
    {
      ReportRun(writer, i + 1, total, runs[i]);
    }
  }

  // The hooks of the run command, in the order the run loop fires them.
  method RunCommand(writer: ThrottledProgressWriter, runs: seq<Bars>)
    requires writer.Valid()
    modifies writer
    ensures writer.Valid() && writer.requested == old(writer.requested) + Reports(runs)
    ensures writer.LastRequested(TOTAL)
  {
    writer.WriteImmediate(0);
    ReportRuns(writer, runs);
    writer.WriteImmediate(TOTAL);
  }
}
