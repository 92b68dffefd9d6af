// daily_index_forecast/features.py: session summaries and the point-in-time feature records.
// Prices and volumes are reals, timestamps are seconds, session dates are day numbers. The local
// calendar and the statistics pandas and numpy compute with square roots or logarithms are
// uninterpreted functions.
module Features {
  import opened Common
  import opened Ordering

  datatype Bar = Bar(ts: int, open: real, high: real, low: real, close: real, volume: real)

  type Frame = seq<Bar>

  // day: the local session date of an instant; decision: the instant of a decision time on a day.
  datatype Calendar = Calendar(day: int -> int, decision: (int, string) -> int, close: int -> int)

  datatype Statistics = Statistics(
    std: seq<real> -> real,
    realizedVolatility: seq<real> -> real,
    correlation: (seq<real>, seq<real>) -> real,
    pathVolatility: seq<real> -> Option<real>
  )

  // Later instants never fall on earlier dates, and a decision falls on its own date.
  ghost predicate ValidCalendar(cal: Calendar) {
    && (forall s, t | s <= t :: cal.day(s) <= cal.day(t))
    && (forall d, time :: cal.day(cal.decision(d, time)) == d)
  }

  ghost predicate InTimeOrder(f: Frame) { forall i, j | 0 <= i < j < |f| :: f[i].ts <= f[j].ts }

  // ---------- frames

  function Session(cal: Calendar, f: Frame, d: int): Frame {
    if f == [] then []
    else (if cal.day(f[0].ts) == d then [f[0]] else []) + Session(cal, f[1..], d)
  }

  function UpTo(f: Frame, ts: int): Frame {
    if f == [] then [] else (if f[0].ts <= ts then [f[0]] else []) + UpTo(f[1..], ts)
  }

  function After(f: Frame, ts: int): Frame {
    if f == [] then [] else (if f[0].ts > ts then [f[0]] else []) + After(f[1..], ts)
  }

  function DaysOf(cal: Calendar, f: Frame): (r: seq<int>)
    ensures |r| == |f|
  {
    seq(|f|, i requires 0 <= i < |f| => cal.day(f[i].ts))
  }

  // sorted({session date of ts})
  function Days(cal: Calendar, f: Frame): seq<int> { SortedDistinct(IntLe, DaysOf(cal, f)) }

  function MaxHigh(f: Frame): real
    requires f != []
  {
    if |f| == 1 then f[0].high else MaxR(f[0].high, MaxHigh(f[1..]))
  }

  function MinLow(f: Frame): real
    requires f != []
  {
    if |f| == 1 then f[0].low else MinR(f[0].low, MinLow(f[1..]))
  }

  function Volume(f: Frame): real { if f == [] then 0.0 else f[0].volume + Volume(f[1..]) }

  function DollarVolume(f: Frame): real {
    if f == [] then 0.0 else f[0].close * f[0].volume + DollarVolume(f[1..])
  }

  function Closes(f: Frame): seq<real> { seq(|f|, i requires 0 <= i < |f| => f[i].close) }

  // ---------- session summaries

  datatype Summary = Summary(
    day: int,
    open: real,
    high: real,
    low: real,
    close: real,
    volume: real,
    dollarVolume: real,
    returnPct: Option<real>,
    closeReturnPct: Option<real>,
    rangePct: Option<real>,
    realizedVolatility: real
  )

  // x / y - 1.0 if y else None
  function Change(x: real, y: real): Option<real> { if y == 0.0 then None else Some(x / y - 1.0) }

  function Summarize(st: Statistics, day: int, session: Frame): Summary
    requires session != []
  {
    var open, close := session[0].open, session[|session| - 1].close;
    var high, low := MaxHigh(session), MinLow(session);
    var previous := if |session| > 1 then session[|session| - 2].close else close;
    Summary(day, open, high, low, close, Volume(session), DollarVolume(session),
            Change(close, open), Change(close, previous),
            if open == 0.0 then None else Some((high - low) / open),
            st.realizedVolatility(Closes(session)))
  }

  function SummariesOf(cal: Calendar, st: Statistics, f: Frame, days: seq<int>): seq<Summary> {
    if days == [] then []
    else
      var session := Session(cal, f, days[0]);
      (if session == [] then [] else [Summarize(st, days[0], session)]) + SummariesOf(cal, st, f, days[1..])
  }

  function Summaries(cal: Calendar, st: Statistics, f: Frame): seq<Summary> {
    SummariesOf(cal, st, f, Days(cal, f))
  }

  // The number of leading summaries before day d: the index of d when d is listed.
  function Position(s: seq<Summary>, d: int): (n: nat)
    ensures n <= |s|
  {
    if s == [] || s[0].day >= d then 0 else 1 + Position(s[1..], d)
  }

  // ---------- return series

  type Returns = seq<(int, real)>

  // summaries.loc[:d]["session_return_pct"].dropna()
  function ReturnsThrough(s: seq<Summary>, d: int): Returns {
    if s == [] then []
    else
      (if s[0].day <= d && s[0].returnPct.Some? then [(s[0].day, s[0].returnPct.value)] else [])
      + ReturnsThrough(s[1..], d)
  }

  // xs.iloc[:-1] if len(xs) > 1 else xs
  function DropLast(xs: Returns): Returns { if |xs| > 1 then xs[..|xs| - 1] else xs }

  function ValuesOf(xs: Returns): seq<real> { seq(|xs|, i requires 0 <= i < |xs| => xs[i].1) }

  function Tail<T>(xs: seq<T>, n: nat): seq<T> { if |xs| <= n then xs else xs[|xs| - n..] }

  function Sum(xs: seq<real>): real { if xs == [] then 0.0 else xs[0] + Sum(xs[1..]) }

  function Mean(xs: seq<real>): real
    requires xs != []
  {
    Sum(xs) / |xs| as real
  }

  function Growth(xs: seq<real>): real { if xs == [] then 1.0 else (1.0 + xs[0]) * Growth(xs[1..]) }

  datatype Window = ReturnWindow | VolatilityWindow | ZScoreWindow

  // _rolling_window_value
  function Rolling(st: Statistics, values: seq<real>, window: nat, fn: Window): Option<real>
    requires window > 0
  {
    if |values| < window then None
    else
      var series := Tail(values, window);
      match fn
      case ReturnWindow => Some(Growth(series) - 1.0)
      case VolatilityWindow => Some(st.std(series))
      case ZScoreWindow =>
        if st.std(series) == 0.0 then None else Some((series[|series| - 1] - Mean(series)) / st.std(series))
  }

  function Lookup(xs: Returns, d: int): Option<real> {
    if xs == [] then None else if xs[0].0 == d then Some(xs[0].1) else Lookup(xs[1..], d)
  }

  // pd.concat([symbol, benchmark], axis=1).dropna(): the pairs of the dates both series have.
  function Aligned(symbol: Returns, benchmark: Returns): seq<(real, real)> {
    if symbol == [] then []
    else
      var other := Lookup(benchmark, symbol[0].0);
      (if other.Some? then [(symbol[0].1, other.value)] else []) + Aligned(symbol[1..], benchmark)
  }

  function CrossDeviations(pairs: seq<(real, real)>, my: real, mx: real): real {
    if pairs == [] then 0.0 else (pairs[0].0 - my) * (pairs[0].1 - mx) + CrossDeviations(pairs[1..], my, mx)
  }

  // _correlation_beta
  function CorrelationBeta(st: Statistics, symbol: Returns, benchmark: Returns): (Option<real>, Option<real>) {
    if |symbol| < 3 || |benchmark| < 3 then (None, None)
    else
      var pairs := Aligned(symbol, benchmark);
      if |pairs| < 3 then (None, None)
      else
        var y, x := seq(|pairs|, i requires 0 <= i < |pairs| => pairs[i].0), seq(|pairs|, i requires 0 <= i < |pairs| => pairs[i].1);
        var xx := seq(|pairs|, i requires 0 <= i < |pairs| => (pairs[i].1, pairs[i].1));
        var varX := CrossDeviations(xx, Mean(x), Mean(x)) / |pairs| as real;
        var cov := CrossDeviations(pairs, Mean(y), Mean(x)) / (|pairs| - 1) as real;
        (Some(st.correlation(y, x)), if varX == 0.0 then None else Some(cov / varX))
  }

  // ---------- feature records

  datatype Feature = Feature(
    symbol: string,
    sessionDate: int,
    decisionTime: string,
    decisionTs: int,
    barsSeen: nat,
    open: real,
    high: real,
    low: real,
    last: real,
    volumeSoFar: real,
    dollarVolumeSoFar: real,
    windowReturn: Option<real>,
    windowRange: Option<real>,
    closeLocation: real,
    gapReturn: Option<real>,
    priorReturn: Option<real>,
    priorRange: Option<real>,
    priorVolume: Option<real>,
    priorVolatility: Option<real>,
    rollingReturn5: Option<real>,
    rollingReturn20: Option<real>,
    rollingVolatility5: Option<real>,
    rollingVolatility20: Option<real>,
    volumeZ20: Option<real>,
    benchmark: BenchmarkFields,
    minutesSinceOpen: int,
    minutesToClose: int
  )

  datatype BenchmarkFields = BenchmarkFields(
    return5: Option<real>,
    return20: Option<real>,
    volatility20: Option<real>,
    relative20: Option<real>,
    correlation20: Option<real>,
    beta20: Option<real>
  )

  const NO_BENCHMARK := BenchmarkFields(None, None, None, None, None, None)

  function BenchmarkPart(st: Statistics, own: Returns, bench: Returns): BenchmarkFields {
    var own20 := Rolling(st, ValuesOf(own), 20, ReturnWindow);
    var bench20 := Rolling(st, ValuesOf(bench), 20, ReturnWindow);
    var (corr, beta) := CorrelationBeta(st, Tail(own, 20), Tail(bench, 20));
    BenchmarkFields(
      Rolling(st, ValuesOf(bench), 5, ReturnWindow),
      bench20,
      Rolling(st, ValuesOf(bench), 20, VolatilityWindow),
      if own20.Some? && bench20.Some? then Some(own20.value - bench20.value) else None,
      corr,
      beta)
  }

  // Everything a record is computed from: the session's bars so far, the earlier summaries, and
  // the two return histories (None: the benchmark has no session at all).
  function Record(cal: Calendar, st: Statistics, symbol: string, d: int, time: string, hist: Frame,
                  past: seq<Summary>, own: Returns, bench: Option<Returns>): Feature
    requires hist != []
  {
    var open, last := hist[0].open, hist[|hist| - 1].close;
    var high, low := MaxHigh(hist), MinLow(hist);
    var prev := if past == [] then None else Some(past[|past| - 1]);
    Feature(
      symbol, d, time, cal.decision(d, time), |hist|, open, high, low, last, Volume(hist), DollarVolume(hist),
      Change(last, open),
      if open == 0.0 then None else Some((high - low) / open),
      if high > low then (last - low) / (high - low) else 0.5,
      if prev.None? then None else Change(open, prev.value.close),
      if prev.None? then None else prev.value.returnPct,
      if prev.None? then None else prev.value.rangePct,
      if prev.None? then None else Some(prev.value.volume),
      if prev.None? then None else Some(prev.value.realizedVolatility),
      Rolling(st, ValuesOf(own), 5, ReturnWindow),
      Rolling(st, ValuesOf(own), 20, ReturnWindow),
      Rolling(st, ValuesOf(own), 5, VolatilityWindow),
      Rolling(st, ValuesOf(own), 20, VolatilityWindow),
      Rolling(st, seq(|past|, i requires 0 <= i < |past| => past[i].volume), 20, ZScoreWindow),
      if bench.None? then NO_BENCHMARK else BenchmarkPart(st, own, bench.value),
      (hist[|hist| - 1].ts - hist[0].ts) / 60,
      (cal.close(d) - hist[|hist| - 1].ts) / 60)
  }

  // The history of returns a record uses: the source drops the last one on the grounds that it
  // is the session still in progress.
  function History(cal: Calendar, st: Statistics, f: Frame, d: int): Returns {
    DropLast(ReturnsThrough(Summaries(cal, st, f), d))
  }

  function FeatureAt(cal: Calendar, st: Statistics, symbol: string, f: Frame, bench: Frame, d: int, time: string): Feature
    requires UpTo(Session(cal, f, d), cal.decision(d, time)) != []
  {
    var summaries := Summaries(cal, st, f);
    Record(cal, st, symbol, d, time, UpTo(Session(cal, f, d), cal.decision(d, time)),
           summaries[..Position(summaries, d)], History(cal, st, f, d),
           if bench == [] then None else Some(History(cal, st, bench, d)))
  }

  // A record exists when the session has a bar by the decision and a bar after it.
  predicate HasRecord(cal: Calendar, f: Frame, d: int, time: string) {
    var ts := cal.decision(d, time);
    UpTo(Session(cal, f, d), ts) != [] && After(Session(cal, f, d), ts) != []
  }

  // ---------- the record builder

  datatype Label = Label(
    symbol: string,
    sessionDate: int,
    decisionTime: string,
    exitTs: int,
    entryPrice: real,
    exitPrice: real,
    returnBps: real,
    netReturnBps: real,
    positiveAfterCost: bool,
    maxRunupBps: Option<real>,
    maxDrawdownBps: Option<real>,
    volatilityBps: Option<real>
  )

  datatype Row = Row(feature: Feature, entry: Label)

  // (x / y - 1.0) * 10000.0 if y else None
  function ChangeBps(x: real, y: real): Option<real> {
    match Change(x, y) case None => None case Some(c) => Some(c * 10000.0)
  }

  // The label of a decision: what the rest of the session brings, before and after costs in bps.
  function LabelAt(cal: Calendar, st: Statistics, symbol: string, f: Frame, d: int, time: string, cost: real): Label
    requires HasRecord(cal, f, d, time)
  {
    var ts := cal.decision(d, time);
    var hist, future := UpTo(Session(cal, f, d), ts), After(Session(cal, f, d), ts);
    LabelOf(st, symbol, d, time, hist[|hist| - 1].close, future, cost)
  }

  function LabelOf(st: Statistics, symbol: string, d: int, time: string, last: real, future: Frame, cost: real): Label
    requires future != []
  {
    var exit := future[|future| - 1];
    var toClose := ChangeBps(exit.close, last);
    var bps := if toClose.Some? then toClose.value else 0.0;
    Label(symbol, d, time, exit.ts, last, exit.close, bps, bps - cost, bps - cost > 0.0,
          ChangeBps(MaxHigh(future), last), ChangeBps(MinLow(future), last), st.pathVolatility(Closes(future)))
  }

  function RowsAt(cal: Calendar, st: Statistics, symbol: string, f: Frame, bench: Frame, d: int, times: seq<string>,
                  cost: real): seq<Row>
  {
    if times == [] then []
    else
      var init, time := times[..|times| - 1], times[|times| - 1];
      RowsAt(cal, st, symbol, f, bench, d, init, cost) +
      if HasRecord(cal, f, d, time) then
        [Row(FeatureAt(cal, st, symbol, f, bench, d, time), LabelAt(cal, st, symbol, f, d, time, cost))]
      else []
  }

  function RowsOnDays(cal: Calendar, st: Statistics, symbol: string, f: Frame, bench: Frame, days: seq<int>,
                      times: seq<string>, cost: real): seq<Row>
  {
    if days == [] then []
    else
      RowsOnDays(cal, st, symbol, f, bench, days[..|days| - 1], times, cost)
      + RowsAt(cal, st, symbol, f, bench, days[|days| - 1], times, cost)
  }

  function AllRows(cal: Calendar, st: Statistics, universe: seq<(string, Frame)>, bench: Frame, times: seq<string>,
                   cost: real): seq<Row>
  {
    if universe == [] then []
    else
      var (symbol, f) := universe[|universe| - 1];
      AllRows(cal, st, universe[..|universe| - 1], bench, times, cost)
      + RowsOnDays(cal, st, symbol, f, bench, Days(cal, f), times, cost)
  }

  lemma {:induction false} ExtremesBound(f: Frame, k: nat)
    requires k < |f|
    ensures MinLow(f) <= f[k].low && f[k].high <= MaxHigh(f)
  {
    if k > 0 {
      ExtremesBound(f[1..], k - 1);
    }
  }

  // On bars whose close lies between low and high, the way to the close stays within the label's
  // drawdown and runup.
  lemma LabelPathBounds(st: Statistics, symbol: string, d: int, time: string, last: real, future: Frame, cost: real)
    requires future != [] && last > 0.0 && forall b | b in future :: b.low <= b.close <= b.high
    ensures var entry := LabelOf(st, symbol, d, time, last, future, cost);
            && entry.maxDrawdownBps.Some? && entry.maxRunupBps.Some?
            && entry.maxDrawdownBps.value <= entry.returnBps <= entry.maxRunupBps.value
            && (entry.positiveAfterCost <==> (entry.exitPrice - last) * 10000.0 > cost * last)
  {
    var k := |future| - 1;
    var exit := future[k];
    ExtremesBound(future, k);
    assert exit in future;
    DivideLe(MinLow(future), exit.close, last);
    DivideLe(exit.close, MaxHigh(future), last);
    NetPositiveIff(exit.close, last, cost);
  }

  lemma NetPositiveIff(exit: real, last: real, cost: real)
    requires last > 0.0
    ensures (exit / last - 1.0) * 10000.0 - cost > 0.0 <==> (exit - last) * 10000.0 > cost * last
  {
    var x := exit / last;
    var net := (x - 1.0) * 10000.0 - cost;
    assert x * last == exit;
    assert net * last == (exit - last) * 10000.0 - cost * last;
    if net > 0.0 {
      assert net * last > 0.0;
    } else {
      ScaleLe(net, 0.0, last);
    }
  }

  // The manifest counters of build_feature_and_label_records.
  datatype Counters = Counters(completed: nat, droppedFeatures: nat, droppedLabels: nat)

  predicate Balanced(c: Counters, rows: nat) {
    rows + c.droppedLabels == c.completed && c.droppedFeatures <= c.droppedLabels
  }

  // How many decisions come before the first bar of their session.
  function Unseen(cal: Calendar, f: Frame, d: int, times: seq<string>): nat {
    if times == [] then 0
    else
      var n := |times| - 1;
      Unseen(cal, f, d, times[..n]) + if UpTo(Session(cal, f, d), cal.decision(d, times[n])) == [] then 1 else 0
  }

  function UnseenOnDays(cal: Calendar, f: Frame, days: seq<int>, times: seq<string>): nat {
    if days == [] then 0
    else UnseenOnDays(cal, f, days[..|days| - 1], times) + Unseen(cal, f, days[|days| - 1], times)
  }

  function AllUnseen(cal: Calendar, universe: seq<(string, Frame)>, times: seq<string>): nat {
    if universe == [] then 0
    else
      var f := universe[|universe| - 1].1;
      AllUnseen(cal, universe[..|universe| - 1], times) + UnseenOnDays(cal, f, Days(cal, f), times)
  }

  // The builder's loops, innermost first: the decision times of one session.
  method AddSession(cal: Calendar, st: Statistics, symbol: string, f: Frame, bench: Frame, d: int, times: seq<string>, cost: real,
                    before: seq<Row>, start: Counters)
    returns (rows: seq<Row>, counters: Counters)
    requires Balanced(start, |before|)
    ensures rows == before + RowsAt(cal, st, symbol, f, bench, d, times, cost)
    ensures Balanced(counters, |rows|) && counters.completed == start.completed + |times|
    ensures counters.droppedFeatures == start.droppedFeatures + Unseen(cal, f, d, times)
  {
    hide FeatureAt, LabelAt, Session, UpTo, After;
    var session := Session(cal, f, d);
    rows, counters := before, start;
    for t := 0 to |times|
      invariant rows == before + RowsAt(cal, st, symbol, f, bench, d, times[..t], cost)
      invariant Balanced(counters, |rows|) && counters.completed == start.completed + t
      invariant counters.droppedFeatures == start.droppedFeatures + Unseen(cal, f, d, times[..t])
    {
      assert times[..t + 1][..t] == times[..t];
      var ts := cal.decision(d, times[t]);
      counters := counters.(completed := counters.completed + 1);
      if UpTo(session, ts) == [] {
        counters := counters.(droppedFeatures := counters.droppedFeatures + 1, droppedLabels := counters.droppedLabels + 1);
      } else if After(session, ts) == [] {
        counters := counters.(droppedLabels := counters.droppedLabels + 1);
      } else {
        rows := rows + [Row(FeatureAt(cal, st, symbol, f, bench, d, times[t]), LabelAt(cal, st, symbol, f, d, times[t], cost))];
      }
    }
    assert times[..|times|] == times;
  }

  function Product(m: nat, n: nat): nat { if m == 0 then 0 else Product(m - 1, n) + n }

  lemma {:induction false} ProductIsTimes(m: nat, n: nat)
    ensures Product(m, n) == m * n
  {
    if m > 0 {
      ProductIsTimes(m - 1, n);
      assert (m - 1) * n + n == m * n;
    }
  }

  // The sessions of one symbol.
  method AddSymbol(cal: Calendar, st: Statistics, symbol: string, f: Frame, bench: Frame, times: seq<string>, cost: real,
                   before: seq<Row>, start: Counters)
    returns (rows: seq<Row>, counters: Counters)
    requires Balanced(start, |before|)
    ensures rows == before + RowsOnDays(cal, st, symbol, f, bench, Days(cal, f), times, cost)
    ensures Balanced(counters, |rows|) && counters.completed == start.completed + |Days(cal, f)| * |times|
    ensures counters.droppedFeatures == start.droppedFeatures + UnseenOnDays(cal, f, Days(cal, f), times)
  {
    hide RowsAt, Unseen;
    var days := Days(cal, f);
    rows, counters := before, start;
    for k := 0 to |days|
      invariant rows == before + RowsOnDays(cal, st, symbol, f, bench, days[..k], times, cost)
      invariant Balanced(counters, |rows|) && counters.completed == start.completed + Product(k, |times|)
      invariant counters.droppedFeatures == start.droppedFeatures + UnseenOnDays(cal, f, days[..k], times)
    {
      assert days[..k + 1][..k] == days[..k];
      rows, counters := AddSession(cal, st, symbol, f, bench, days[k], times, cost, rows, counters);
    }
    assert days[..|days|] == days;
    ProductIsTimes(|days|, |times|);
  }

  // Every record and every label of the universe, in order; each step is either a record or a
  // dropped label, and those before their session's first bar are dropped features too.
  method BuildFeatureAndLabelRecords(cal: Calendar, st: Statistics, universe: seq<(string, Frame)>, bench: Frame,
                                     times: seq<string>, cost: real)
    returns (features: seq<Feature>, labels: seq<Label>, counters: Counters)
    ensures |features| == |labels| == |AllRows(cal, st, universe, bench, times, cost)|
    ensures forall i | 0 <= i < |features| :: Row(features[i], labels[i]) == AllRows(cal, st, universe, bench, times, cost)[i]
    ensures counters.completed == Steps(cal, universe, times) && Balanced(counters, |labels|)
    ensures counters.droppedFeatures == AllUnseen(cal, universe, times)
  {
    hide UnseenOnDays;
    var rows: seq<Row> := [];
    counters := Counters(0, 0, 0);
    for u := 0 to |universe|
      invariant rows == AllRows(cal, st, universe[..u], bench, times, cost)
      invariant Balanced(counters, |rows|) && counters.completed == Steps(cal, universe[..u], times)
      invariant counters.droppedFeatures == AllUnseen(cal, universe[..u], times)
    {
      assert universe[..u + 1][..u] == universe[..u];
      rows, counters := AddSymbol(cal, st, universe[u].0, universe[u].1, bench, times, cost, rows, counters);
    }
    assert universe[..|universe|] == universe;
    features := seq(|rows|, i requires 0 <= i < |rows| => rows[i].feature);
    labels := seq(|rows|, i requires 0 <= i < |rows| => rows[i].entry);
  }

  // total_steps: the sessions of every symbol times the decision times.
  function Steps(cal: Calendar, universe: seq<(string, Frame)>, times: seq<string>): nat {
    if universe == [] then 0
    else Steps(cal, universe[..|universe| - 1], times) + |Days(cal, universe[|universe| - 1].1)| * |times|
  }

  // ---------- what a decision can know

  lemma {:induction false} SessionOfUpTo(cal: Calendar, f: Frame, ts: int, d: int)
    ensures Session(cal, UpTo(f, ts), d) == UpTo(Session(cal, f, d), ts)
    ensures ValidCalendar(cal) && d < cal.day(ts) ==> Session(cal, UpTo(f, ts), d) == Session(cal, f, d)
  {
    if f != [] {
      SessionOfUpTo(cal, f[1..], ts, d);
      var early := if f[0].ts <= ts then [f[0]] else [];
      var own := if cal.day(f[0].ts) == d then [f[0]] else [];
      assert UpTo(f, ts) == early + UpTo(f[1..], ts) && Session(cal, f, d) == own + Session(cal, f[1..], d);
      assert Session(cal, early, d) == UpTo(own, ts);
      hide Session, UpTo;
      SessionAppend(cal, early, UpTo(f[1..], ts), d);
      UpToAppend(own, Session(cal, f[1..], d), ts);
    }
  }

  lemma {:induction false} SessionAppend(cal: Calendar, a: Frame, b: Frame, d: int)
    ensures Session(cal, a + b, d) == Session(cal, a, d) + Session(cal, b, d)
  {
    if a == [] {
      assert a + b == b;
    } else {
      assert (a + b)[1..] == a[1..] + b;
      SessionAppend(cal, a[1..], b, d);
    }
  }

  lemma {:induction false} UpToAppend(a: Frame, b: Frame, ts: int)
    ensures UpTo(a + b, ts) == UpTo(a, ts) + UpTo(b, ts)
  {
    if a == [] {
      assert a + b == b;
    } else {
      assert (a + b)[1..] == a[1..] + b && (a + b)[0] == a[0];
      UpToAppend(a[1..], b, ts);
      assert UpTo(a + b, ts) == (if a[0].ts <= ts then [a[0]] else []) + UpTo(a[1..] + b, ts);
    }
  }

  lemma {:induction false} InSession(cal: Calendar, f: Frame, d: int)
    ensures Session(cal, f, d) != [] <==> d in DaysOf(cal, f)
  {
    if f != [] {
      InSession(cal, f[1..], d);
      assert DaysOf(cal, f) == [cal.day(f[0].ts)] + DaysOf(cal, f[1..]);
    }
  }

  lemma DaysSpec(cal: Calendar, f: Frame)
    ensures Increasing(IntLe, Days(cal, f))
    ensures forall d :: d in Days(cal, f) <==> Session(cal, f, d) != []
  {
    IntLeTotal();
    SortedDistinctSpec(IntLe, DaysOf(cal, f));
    forall d
      ensures d in Days(cal, f) <==> Session(cal, f, d) != []
    {
      InSession(cal, f, d);
    }
  }

  // The leading days before d.
  function Before(days: seq<int>, d: int): seq<int> {
    if days == [] || days[0] >= d then [] else [days[0]] + Before(days[1..], d)
  }

  lemma {:induction false} BeforeSpec(days: seq<int>, d: int)
    requires Increasing(IntLe, days)
    ensures Before(days, d) <= days && Increasing(IntLe, Before(days, d))
    ensures forall x :: x in Before(days, d) <==> x in days && x < d
    ensures forall i | |Before(days, d)| <= i < |days| :: days[i] >= d
  {
    if days != [] {
      BeforeSpec(days[1..], d);
      assert forall x :: x in days <==> x == days[0] || x in days[1..];
      if days[0] >= d {
        assert forall i | 0 <= i < |days| :: days[0] <= days[i];
      } else {
        forall i, j | 0 <= i < j < |Before(days, d)|
          ensures Before(days, d)[i] <= Before(days, d)[j] && Before(days, d)[i] != Before(days, d)[j]
        {
          assert Before(days, d)[i] == days[i] && Before(days, d)[j] == days[j];
        }
      }
    }
  }

  // The past of two frames that agree up to a decision is the same list of days.
  lemma SamePastDays(cal: Calendar, f: Frame, g: Frame, ts: int)
    requires ValidCalendar(cal) && UpTo(f, ts) == UpTo(g, ts)
    ensures Before(Days(cal, f), cal.day(ts)) == Before(Days(cal, g), cal.day(ts))
  {
    var d := cal.day(ts);
    DaysSpec(cal, f);
    DaysSpec(cal, g);
    BeforeSpec(Days(cal, f), d);
    BeforeSpec(Days(cal, g), d);
    forall x
      ensures x in Before(Days(cal, f), d) <==> x in Before(Days(cal, g), d)
    {
      SessionOfUpTo(cal, f, ts, x);
      SessionOfUpTo(cal, g, ts, x);
    }
    IntLeTotal();
    IncreasingUnique(IntLe, Before(Days(cal, f), d), Before(Days(cal, g), d));
  }

  lemma {:induction false} SamePastSummaries(cal: Calendar, st: Statistics, f: Frame, g: Frame, ts: int, days: seq<int>)
    requires ValidCalendar(cal) && UpTo(f, ts) == UpTo(g, ts)
    requires forall d | d in days :: d < cal.day(ts)
    ensures SummariesOf(cal, st, f, days) == SummariesOf(cal, st, g, days)
  {
    if days != [] {
      assert days[0] in days;
      SessionOfUpTo(cal, f, ts, days[0]);
      SessionOfUpTo(cal, g, ts, days[0]);
      assert forall d | d in days[1..] :: d in days;
      SamePastSummaries(cal, st, f, g, ts, days[1..]);
    }
  }

  lemma {:induction false} SummariesOfAppend(cal: Calendar, st: Statistics, f: Frame, a: seq<int>, b: seq<int>)
    ensures SummariesOf(cal, st, f, a + b) == SummariesOf(cal, st, f, a) + SummariesOf(cal, st, f, b)
  {
    if a == [] {
      assert a + b == b;
    } else {
      assert (a + b)[1..] == a[1..] + b;
      SummariesOfAppend(cal, st, f, a[1..], b);
    }
  }

  lemma {:induction false} SummaryDays(cal: Calendar, st: Statistics, f: Frame, days: seq<int>)
    requires forall d | d in days :: Session(cal, f, d) != []
    ensures |SummariesOf(cal, st, f, days)| == |days|
    ensures forall i | 0 <= i < |days| :: SummariesOf(cal, st, f, days)[i].day == days[i]
    ensures days != [] ==> SummariesOf(cal, st, f, days)[0] == Summarize(st, days[0], Session(cal, f, days[0]))
  {
    if days != [] {
      assert days[0] in days;
      assert forall d | d in days[1..] :: d in days;
      SummaryDays(cal, st, f, days[1..]);
      assert SummariesOf(cal, st, f, days)
             == [Summarize(st, days[0], Session(cal, f, days[0]))] + SummariesOf(cal, st, f, days[1..]);
    }
  }

  lemma SplitAt(days: seq<int>, d: int) returns (early: seq<int>, late: seq<int>)
    requires Increasing(IntLe, days)
    ensures early == Before(days, d) && days == early + late
    ensures forall x | x in early :: x < d
    ensures forall i | 0 <= i < |late| :: if i == 0 then late[0] >= d else late[i] > d
    ensures late != [] && late[0] == d <==> d in days
  {
    hide Before;
    BeforeSpec(days, d);
    IntsIncrease(days);
    var n := |Before(days, d)|;
    early, late := days[..n], days[n..];
    forall m | 0 <= m < n
      ensures days[m] < d
    {
      assert days[m] == early[m] && early[m] in Before(days, d);
    }
    forall i | 0 < i < |late|
      ensures late[i] > d
    {
      assert late[i] == days[n + i] && days[n] < days[n + i] && days[n] >= d;
    }
    AtOrAfter(days, n, d);
  }

  lemma AtOrAfter(days: seq<int>, n: nat, d: int)
    requires n <= |days| && forall m | 0 <= m < n :: days[m] < d
    requires forall m | n <= m < |days| :: if m == n then days[m] >= d else days[m] > d
    ensures n < |days| && days[n] == d <==> d in days
  {
  }

  lemma DaysSplit(cal: Calendar, f: Frame, d: int) returns (early: seq<int>, late: seq<int>)
    ensures early == Before(Days(cal, f), d) && Days(cal, f) == early + late
    ensures forall x | x in early :: x < d
    ensures forall i | 0 <= i < |late| :: if i == 0 then late[0] >= d else late[i] > d
    ensures late != [] && late[0] == d <==> d in Days(cal, f)
  {
    hide Days, Before;
    DaysSpec(cal, f);
    early, late := SplitAt(Days(cal, f), d);
  }

  // The summaries of a frame: those before day d, then that of d if it has one, then later ones.
  lemma SummariesSplit(cal: Calendar, st: Statistics, f: Frame, d: int) returns (past: seq<Summary>, rest: seq<Summary>)
    ensures past == SummariesOf(cal, st, f, Before(Days(cal, f), d))
    ensures Summaries(cal, st, f) == past + rest
    ensures forall s | s in past :: s.day < d
    ensures Session(cal, f, d) == [] ==> forall s | s in rest :: s.day > d
    ensures Session(cal, f, d) != [] ==>
              rest != [] && rest[0] == Summarize(st, d, Session(cal, f, d)) && forall s | s in rest[1..] :: s.day > d
  {
    hide Days, Before, Summarize, SummariesOf, Session;
    var early, late := DaysSplit(cal, f, d);
    SummariesOfAppend(cal, st, f, early, late);
    DaysSpec(cal, f);
    assert forall x | x in early :: x in early + late;
    assert forall x | x in late :: x in early + late;
    SummaryDays(cal, st, f, early);
    SummaryDays(cal, st, f, late);
    past, rest := SummariesOf(cal, st, f, early), SummariesOf(cal, st, f, late);
    forall s | s in past
      ensures s.day < d
    {
      var i :| 0 <= i < |past| && past[i] == s;
      assert early[i] in early;
    }
    forall i | 0 <= i < |rest|
      ensures rest[i].day >= d && (i > 0 || Session(cal, f, d) == [] ==> rest[i].day > d)
    {
      assert late[i] in late;
    }
  }

  lemma {:induction false} PositionOfSplit(past: seq<Summary>, rest: seq<Summary>, d: int)
    requires forall s | s in past :: s.day < d
    requires rest != [] ==> rest[0].day >= d
    ensures Position(past + rest, d) == |past|
  {
    if past == [] {
      assert past + rest == rest;
    } else {
      assert (past + rest)[1..] == past[1..] + rest;
      assert forall s | s in past[1..] :: s in past;
      assert past[0] in past;
      PositionOfSplit(past[1..], rest, d);
    }
  }

  lemma {:induction false} ReturnsAppend(a: seq<Summary>, b: seq<Summary>, d: int)
    ensures ReturnsThrough(a + b, d) == ReturnsThrough(a, d) + ReturnsThrough(b, d)
  {
    if a == [] {
      assert a + b == b;
    } else {
      assert (a + b)[1..] == a[1..] + b;
      ReturnsAppend(a[1..], b, d);
    }
  }

  lemma {:induction false} ReturnsAfter(s: seq<Summary>, d: int)
    requires forall x | x in s :: x.day > d
    ensures ReturnsThrough(s, d) == []
  {
    if s != [] {
      assert s[0] in s;
      assert forall x | x in s[1..] :: x in s;
      ReturnsAfter(s[1..], d);
    }
  }

  // Whether the session's own return enters the series: it has a session with a non-zero open.
  predicate HasOwnReturn(cal: Calendar, f: Frame, d: int) {
    var session := Session(cal, f, d);
    session != [] && session[0].open != 0.0
  }

  // The valid returns of the sessions before d.
  function PastReturns(cal: Calendar, st: Statistics, f: Frame, d: int): Returns {
    ReturnsThrough(SummariesOf(cal, st, f, Before(Days(cal, f), d)), d)
  }

  // The series is the past returns, plus the session's own return when it has one; so DropLast
  // drops either that return or the last past one.
  lemma HistoryCases(cal: Calendar, st: Statistics, f: Frame, d: int)
    ensures HasOwnReturn(cal, f, d) ==> History(cal, st, f, d) == PastReturns(cal, st, f, d)
                                        || (PastReturns(cal, st, f, d) == [] && |History(cal, st, f, d)| == 1)
    ensures !HasOwnReturn(cal, f, d) ==> History(cal, st, f, d) == DropLast(PastReturns(cal, st, f, d))
  {
    hide Days, Before, Session, Summarize, HasOwnReturn;
    var past, rest := SummariesSplit(cal, st, f, d);
    ReturnsAppend(past, rest, d);
    RestReturns(cal, st, f, d, rest);
    DropLastOne(PastReturns(cal, st, f, d), ReturnsThrough(rest, d));
  }

  // Of the session's own summary and the later ones, only a valid own return enters the series.
  lemma RestReturns(cal: Calendar, st: Statistics, f: Frame, d: int, rest: seq<Summary>)
    requires Session(cal, f, d) == [] ==> forall s | s in rest :: s.day > d
    requires Session(cal, f, d) != [] ==>
               rest != [] && rest[0] == Summarize(st, d, Session(cal, f, d)) && forall s | s in rest[1..] :: s.day > d
    ensures |ReturnsThrough(rest, d)| == if HasOwnReturn(cal, f, d) then 1 else 0
  {
    if Session(cal, f, d) == [] {
      ReturnsAfter(rest, d);
    } else {
      ReturnsAfter(rest[1..], d);
      assert rest == [rest[0]] + rest[1..];
      ReturnsAppend([rest[0]], rest[1..], d);
    }
  }

  lemma DropLastOne(p: Returns, own: Returns)
    requires |own| <= 1
    ensures own == [] ==> p + own == p
    ensures own != [] ==> DropLast(p + own) == if p == [] then own else p
  {
    assert own != [] ==> (p + own)[..|p + own| - 1] == p;
  }

  lemma SamePastReturns(cal: Calendar, st: Statistics, f: Frame, g: Frame, ts: int)
    requires ValidCalendar(cal) && UpTo(f, ts) == UpTo(g, ts)
    ensures SummariesOf(cal, st, f, Before(Days(cal, f), cal.day(ts))) == SummariesOf(cal, st, g, Before(Days(cal, g), cal.day(ts)))
    ensures PastReturns(cal, st, f, cal.day(ts)) == PastReturns(cal, st, g, cal.day(ts))
  {
    SamePastDays(cal, f, g, ts);
    DaysSpec(cal, f);
    BeforeSpec(Days(cal, f), cal.day(ts));
    SamePastSummaries(cal, st, f, g, ts, Before(Days(cal, f), cal.day(ts)));
  }

  // Histories of at most one return are too short for any feature.
  function Canonical(h: Returns): Returns { if |h| <= 1 then [] else h }

  lemma ShortHistoriesAreUnused(cal: Calendar, st: Statistics, symbol: string, d: int, time: string, hist: Frame,
                                past: seq<Summary>, own: Returns, bench: Option<Returns>)
    requires hist != []
    ensures Record(cal, st, symbol, d, time, hist, past, own, bench)
            == Record(cal, st, symbol, d, time, hist, past, Canonical(own),
                      Some(if bench.None? then [] else Canonical(bench.value)))
  {
  }

  // Histories that differ at most by an unusable single return.
  lemma SameHistory(cal: Calendar, st: Statistics, f: Frame, g: Frame, ts: int)
    requires ValidCalendar(cal) && UpTo(f, ts) == UpTo(g, ts)
    requires HasOwnReturn(cal, f, cal.day(ts)) == HasOwnReturn(cal, g, cal.day(ts))
             || |PastReturns(cal, st, f, cal.day(ts))| <= 1
    ensures Canonical(History(cal, st, f, cal.day(ts))) == Canonical(History(cal, st, g, cal.day(ts)))
  {
    SamePastReturns(cal, st, f, g, ts);
    HistoryCases(cal, st, f, cal.day(ts));
    HistoryCases(cal, st, g, cal.day(ts));
  }

  // In time order, a session with a bar by the decision opens the same in both worlds.
  lemma OwnReturnIsKnown(cal: Calendar, f: Frame, d: int, ts: int)
    requires InTimeOrder(f) && UpTo(Session(cal, f, d), ts) != []
    ensures HasOwnReturn(cal, f, d) <==> UpTo(Session(cal, f, d), ts)[0].open != 0.0
  {
    SessionInOrder(cal, f, d);
    FirstByDecision(Session(cal, f, d), ts);
  }

  lemma {:induction false} SessionInOrder(cal: Calendar, f: Frame, d: int)
    requires InTimeOrder(f)
    ensures InTimeOrder(Session(cal, f, d)) && forall b | b in Session(cal, f, d) :: b in f
  {
    if f != [] {
      SessionInOrder(cal, f[1..], d);
      var rest := Session(cal, f[1..], d);
      forall j | 0 <= j < |rest|
        ensures f[0].ts <= rest[j].ts
      {
        assert rest[j] in f[1..];
      }
    }
  }

  lemma {:induction false} FirstByDecision(f: Frame, ts: int)
    requires InTimeOrder(f) && UpTo(f, ts) != []
    ensures f != [] && UpTo(f, ts)[0] == f[0]
  {
    if f[0].ts > ts {
      NothingBy(f, ts);
      assert false;
    }
  }

  lemma {:induction false} NothingBy(f: Frame, ts: int)
    requires forall b | b in f :: b.ts > ts
    ensures UpTo(f, ts) == []
  {
    if f != [] {
      assert f[0] in f;
      assert forall b | b in f[1..] :: b in f;
      NothingBy(f[1..], ts);
    }
  }

  // ---------- no look-ahead

  // Two worlds that agree on every bar, of the symbol and of the benchmark, up to a decision.
  ghost predicate AgreeUpTo(f: Frame, g: Frame, bf: Frame, bg: Frame, ts: int) {
    UpTo(f, ts) == UpTo(g, ts) && UpTo(bf, ts) == UpTo(bg, ts)
  }

  lemma PastIsPosition(cal: Calendar, st: Statistics, f: Frame, d: int)
    ensures Summaries(cal, st, f)[..Position(Summaries(cal, st, f), d)] == SummariesOf(cal, st, f, Before(Days(cal, f), d))
  {
    var past, rest := SummariesSplit(cal, st, f, d);
    PositionOfSplit(past, rest, d);
  }

  // A record is computed from the bars so far, the past summaries and the usable histories.
  lemma FeatureFromKnown(cal: Calendar, st: Statistics, symbol: string, f: Frame, bench: Frame, d: int, time: string)
    requires UpTo(Session(cal, f, d), cal.decision(d, time)) != []
    ensures FeatureAt(cal, st, symbol, f, bench, d, time)
            == Record(cal, st, symbol, d, time, UpTo(Session(cal, f, d), cal.decision(d, time)),
                      SummariesOf(cal, st, f, Before(Days(cal, f), d)), Canonical(History(cal, st, f, d)),
                      Some(Canonical(History(cal, st, bench, d))))
  {
    PastIsPosition(cal, st, f, d);
    var past := SummariesOf(cal, st, f, Before(Days(cal, f), d));
    var b := if bench == [] then None else Some(History(cal, st, bench, d));
    ShortHistoriesAreUnused(cal, st, symbol, d, time, UpTo(Session(cal, f, d), cal.decision(d, time)), past,
                            History(cal, st, f, d), b);
    if bench == [] {
      assert Summaries(cal, st, bench) == [];
    }
  }

  // The records of the two worlds are equal when they agree on whether the benchmark's session
  // has a usable return, although the summaries are built from whole sessions.
  lemma NoLookAhead(cal: Calendar, st: Statistics, symbol: string, f: Frame, g: Frame, bf: Frame, bg: Frame,
                    d: int, time: string)
    requires ValidCalendar(cal) && InTimeOrder(f) && InTimeOrder(g)
    requires HasRecord(cal, f, d, time) && HasRecord(cal, g, d, time)
    requires AgreeUpTo(f, g, bf, bg, cal.decision(d, time))
    requires HasOwnReturn(cal, bf, d) == HasOwnReturn(cal, bg, d) || |PastReturns(cal, st, bf, d)| <= 1
    ensures FeatureAt(cal, st, symbol, f, bf, d, time) == FeatureAt(cal, st, symbol, g, bg, d, time)
    ensures forall cost ::
              RowsAt(cal, st, symbol, f, bf, d, [time], cost)[0].feature == RowsAt(cal, st, symbol, g, bg, d, [time], cost)[0].feature
  {
    var ts := cal.decision(d, time);
    SessionOfUpTo(cal, f, ts, d);
    SessionOfUpTo(cal, g, ts, d);
    OwnReturnIsKnown(cal, f, d, ts);
    OwnReturnIsKnown(cal, g, d, ts);
    SamePastReturns(cal, st, f, g, ts);
    SameHistory(cal, st, f, g, ts);
    SameHistory(cal, st, bf, bg, ts);
    FeatureFromKnown(cal, st, symbol, f, bf, d, time);
    FeatureFromKnown(cal, st, symbol, g, bg, d, time);
    assert [time][..0] == [];
  }

  // The guard is exact: the benchmark history the features use is the same in both worlds if and
  // only if they agree on the benchmark's own return, or there is at most one past return.
  lemma BenchmarkHistoryIff(cal: Calendar, st: Statistics, bf: Frame, bg: Frame, ts: int)
    requires ValidCalendar(cal) && UpTo(bf, ts) == UpTo(bg, ts)
    ensures Canonical(History(cal, st, bf, cal.day(ts))) == Canonical(History(cal, st, bg, cal.day(ts)))
            <==> (HasOwnReturn(cal, bf, cal.day(ts)) == HasOwnReturn(cal, bg, cal.day(ts))
                  || |PastReturns(cal, st, bf, cal.day(ts))| <= 1)
  {
    var d := cal.day(ts);
    if HasOwnReturn(cal, bf, d) == HasOwnReturn(cal, bg, d) || |PastReturns(cal, st, bf, d)| <= 1 {
      SameHistory(cal, st, bf, bg, ts);
    } else {
      SamePastReturns(cal, st, bf, bg, ts);
      HistoryCases(cal, st, bf, d);
      HistoryCases(cal, st, bg, d);
    }
  }

  // With exactly 5 or 20 past benchmark returns the record itself shows the difference: equality
  // of the two records is then equivalent to agreement on the benchmark's own return.
  lemma LookAheadThroughBenchmark(cal: Calendar, st: Statistics, symbol: string, f: Frame, g: Frame, bf: Frame, bg: Frame,
                                  d: int, time: string)
    requires ValidCalendar(cal) && InTimeOrder(f) && InTimeOrder(g)
    requires HasRecord(cal, f, d, time) && HasRecord(cal, g, d, time)
    requires AgreeUpTo(f, g, bf, bg, cal.decision(d, time))
    requires |PastReturns(cal, st, bf, d)| in {5, 20}
    ensures FeatureAt(cal, st, symbol, f, bf, d, time) == FeatureAt(cal, st, symbol, g, bg, d, time)
            <==> HasOwnReturn(cal, bf, d) == HasOwnReturn(cal, bg, d)
  {
    hide Days, Session, UpTo, Before, ReturnsThrough;
    if HasOwnReturn(cal, bf, d) == HasOwnReturn(cal, bg, d) {
      NoLookAhead(cal, st, symbol, f, g, bf, bg, d, time);
    } else {
      SamePastReturns(cal, st, bf, bg, cal.decision(d, time));
      HistoryCases(cal, st, bf, d);
      HistoryCases(cal, st, bg, d);
      FeatureFromKnown(cal, st, symbol, f, bf, d, time);
      FeatureFromKnown(cal, st, symbol, g, bg, d, time);
      var n := |PastReturns(cal, st, bf, d)|;
      assert Rolling(st, ValuesOf(History(cal, st, bf, d)), n, ReturnWindow)
             != Rolling(st, ValuesOf(History(cal, st, bg, d)), n, ReturnWindow);
    }
  }

  // With non-zero benchmark prices it is enough to agree on whether the benchmark has the session.
  lemma NoLookAheadWithPrices(cal: Calendar, st: Statistics, symbol: string, f: Frame, g: Frame, bf: Frame, bg: Frame,
                              d: int, time: string)
    requires ValidCalendar(cal) && InTimeOrder(f) && InTimeOrder(g) && InTimeOrder(bf) && InTimeOrder(bg)
    requires HasRecord(cal, f, d, time) && HasRecord(cal, g, d, time)
    requires AgreeUpTo(f, g, bf, bg, cal.decision(d, time))
    requires forall b | b in bf + bg :: b.open != 0.0
    requires Session(cal, bf, d) == [] <==> Session(cal, bg, d) == []
    ensures FeatureAt(cal, st, symbol, f, bf, d, time) == FeatureAt(cal, st, symbol, g, bg, d, time)
  {
    SessionInOrder(cal, bf, d);
    SessionInOrder(cal, bg, d);
    if Session(cal, bf, d) != [] {
      assert Session(cal, bf, d)[0] in bf + bg && Session(cal, bg, d)[0] in bf + bg;
    }
    NoLookAhead(cal, st, symbol, f, g, bf, bg, d, time);
  }

  // A benchmark session that first trades after the decision shows in the record, whatever its
  // prices: the record with it differs from the record without it.
  lemma LateSessionShows(cal: Calendar, st: Statistics, symbol: string, f: Frame, bf: Frame, late: Frame, d: int, time: string)
    requires ValidCalendar(cal) && InTimeOrder(f) && HasRecord(cal, f, d, time)
    requires Session(cal, bf, d) == []
    requires forall b | b in late :: b.ts > cal.decision(d, time)
    requires Session(cal, late, d) != [] && Session(cal, late, d)[0].open != 0.0
    requires |PastReturns(cal, st, bf, d)| in {5, 20}
    ensures UpTo(bf + late, cal.decision(d, time)) == UpTo(bf, cal.decision(d, time))
    ensures FeatureAt(cal, st, symbol, f, bf + late, d, time) != FeatureAt(cal, st, symbol, f, bf, d, time)
  {
    var ts := cal.decision(d, time);
    UpToAppend(bf, late, ts);
    NothingBy(late, ts);
    assert UpTo(bf, ts) + [] == UpTo(bf, ts);
    SessionAppend(cal, bf, late, d);
    assert [] + Session(cal, late, d) == Session(cal, late, d);
    LookAheadThroughBenchmark(cal, st, symbol, f, f, bf, bf + late, d, time);
  }

  // ---------- a concrete look-ahead

  lemma {:induction false} ReturnsOfAll(cal: Calendar, st: Statistics, f: Frame, days: seq<int>, d: int)
    requires forall x | x in days :: x <= d && HasOwnReturn(cal, f, x)
    ensures |ReturnsThrough(SummariesOf(cal, st, f, days), d)| == |days|
  {
    if days != [] {
      assert days[0] in days;
      assert forall x | x in days[1..] :: x in days;
      ReturnsOfAll(cal, st, f, days[1..], d);
      var head := [Summarize(st, days[0], Session(cal, f, days[0]))];
      ReturnsAppend(head, SummariesOf(cal, st, f, days[1..]), d);
    }
  }

  // Six daily benchmark bars; only the opening price of the last, which trades after the decision,
  // differs between the worlds, and it decides whether benchmark_return_5 exists.
  function WitnessBar(k: int, open: real): Bar { Bar(10 * k + 8, open, 1.0, 1.0, 1.0, 1.0) }

  function WitnessBenchmark(open: real): Frame {
    [WitnessBar(0, 1.0), WitnessBar(1, 1.0), WitnessBar(2, 1.0), WitnessBar(3, 1.0), WitnessBar(4, 1.0), WitnessBar(5, open)]
  }

  function WitnessSymbol(price: real): Frame {
    [Bar(54, price, price, price, price, 1.0), Bar(56, price, price, price, price, 1.0)]
  }

  lemma {:induction false} WitnessSession(cal: Calendar, k: nat, f: Frame, days: nat)
    requires forall i | 0 <= i < |f| :: cal.day(f[i].ts) == days + i
    ensures Session(cal, f, days + k) == if k < |f| then [f[k]] else []
    decreases |f|
  {
    if f != [] {
      if k == 0 {
        WitnessNone(cal, f[1..], days);
      } else {
        WitnessSession(cal, k - 1, f[1..], days + 1);
      }
    }
  }

  lemma {:induction false} WitnessNone(cal: Calendar, f: Frame, d: int)
    requires forall i | 0 <= i < |f| :: cal.day(f[i].ts) > d
    ensures Session(cal, f, d) == []
  {
    if f != [] {
      WitnessNone(cal, f[1..], d);
    }
  }

  function WitnessCalendar(): Calendar { Calendar(ts => ts / 10, (d, time) => 10 * d + 5, d => 10 * d + 9) }

  lemma WitnessSessions(open: real, k: nat)
    requires k < 6
    ensures Session(WitnessCalendar(), WitnessBenchmark(open), k) == [WitnessBenchmark(open)[k]]
  {
    WitnessSession(WitnessCalendar(), k, WitnessBenchmark(open), 0);
  }

  lemma WitnessDays(open: real)
    ensures Before(Days(WitnessCalendar(), WitnessBenchmark(open)), 5) == [0, 1, 2, 3, 4]
  {
    hide Days, Before, Session;
    var cal, f := WitnessCalendar(), WitnessBenchmark(open);
    DaysSpec(cal, f);
    BeforeSpec(Days(cal, f), 5);
    assert DaysOf(cal, f) == [0, 1, 2, 3, 4, 5];
    forall x
      ensures x in Before(Days(cal, f), 5) <==> x in [0, 1, 2, 3, 4]
    {
      InSession(cal, f, x);
    }
    IntLeTotal();
    IncreasingUnique(IntLe, Before(Days(cal, f), 5), [0, 1, 2, 3, 4]);
  }

  lemma WitnessPast(st: Statistics, open: real)
    ensures |PastReturns(WitnessCalendar(), st, WitnessBenchmark(open), 5)| == 5
    ensures HasOwnReturn(WitnessCalendar(), WitnessBenchmark(open), 5) <==> open != 0.0
  {
    WitnessDays(open);
    WitnessSessions(open, 5);
    forall k | k in [0, 1, 2, 3, 4]
      ensures k <= 5 && HasOwnReturn(WitnessCalendar(), WitnessBenchmark(open), k)
    {
      WitnessSessions(open, k);
    }
    ReturnsOfAll(WitnessCalendar(), st, WitnessBenchmark(open), [0, 1, 2, 3, 4], 5);
  }

  lemma WitnessWorlds(price: real, p: real, q: real)
    ensures ValidCalendar(WitnessCalendar()) && WitnessCalendar().decision(5, "t") == 55
    ensures AgreeUpTo(WitnessSymbol(price), WitnessSymbol(price), WitnessBenchmark(p), WitnessBenchmark(q), 55)
    ensures InTimeOrder(WitnessSymbol(price)) && HasRecord(WitnessCalendar(), WitnessSymbol(price), 5, "t")
  {
    var a, b := WitnessBenchmark(p), WitnessBenchmark(q);
    assert a[..5] == b[..5] && a == a[..5] + [a[5]] && b == b[..5] + [b[5]];
    UpToAppend(a[..5], [a[5]], 55);
    UpToAppend(b[..5], [b[5]], 55);
    var s := WitnessSymbol(price);
    SessionAppend(WitnessCalendar(), [s[0]], [s[1]], 5);
    assert s == [s[0]] + [s[1]];
    assert Session(WitnessCalendar(), [s[0]], 5) == [s[0]] && Session(WitnessCalendar(), [s[1]], 5) == [s[1]];
    UpToAppend([s[0]], [s[1]], 55);
    assert After(s, 55) == After([s[1]], 55) == [s[1]] by {
      assert s[1..] == [s[1]];
    }
  }

  // The record of a decision at second 55 changes with the benchmark open at second 58 exactly
  // when one of the two opens is zero and the other is not.
  lemma LookAheadExists(st: Statistics, price: real, p: real, q: real)
    ensures ValidCalendar(WitnessCalendar()) && HasRecord(WitnessCalendar(), WitnessSymbol(price), 5, "t")
    ensures AgreeUpTo(WitnessSymbol(price), WitnessSymbol(price), WitnessBenchmark(p), WitnessBenchmark(q), 55)
    ensures FeatureAt(WitnessCalendar(), st, "S", WitnessSymbol(price), WitnessBenchmark(p), 5, "t")
            == FeatureAt(WitnessCalendar(), st, "S", WitnessSymbol(price), WitnessBenchmark(q), 5, "t")
            <==> (p == 0.0 <==> q == 0.0)
  {
    hide FeatureAt, PastReturns, HasOwnReturn, HasRecord, AgreeUpTo, WitnessCalendar, WitnessBenchmark, WitnessSymbol;
    WitnessWorlds(price, p, q);
    WitnessPast(st, p);
    WitnessPast(st, q);
    LookAheadThroughBenchmark(WitnessCalendar(), st, "S", WitnessSymbol(price), WitnessSymbol(price),
                              WitnessBenchmark(p), WitnessBenchmark(q), 5, "t");
  }
}
