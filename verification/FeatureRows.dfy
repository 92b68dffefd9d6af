// Every row of the feature builder means what its fields say, and there is one for each decision
// with bars on both sides.
module FeatureRows {
  import opened Common
  import opened Ordering
  import opened Features
  import opened FeatureMeaning
  import opened FeatureHistories

  // ---------- a whole record

  ghost predicate RecordMeans(r: Feature, cal: Calendar, st: Statistics, symbol: string, f: Frame, bench: Frame,
                              d: int, time: string, a: nat, b: nat, c: nat)
    requires a < b < c <= |f|
  {
    && r.symbol == symbol && r.sessionDate == d && r.decisionTime == time && r.decisionTs == cal.decision(d, time)
    && WindowFields(r, cal, f, a, b, c)
    && PriorMeans(r, cal, st, f, a)
    && HistoriesMean(r, cal, st, f, bench, d)
    && exists days, vs :: AreVolumes(cal, f, d, days, vs) && IsZScore(r.volumeZ20, st, vs, 20)
  }

  ghost predicate PriorMeans(r: Feature, cal: Calendar, st: Statistics, f: Frame, a: nat)
    requires a < |f|
  {
    if a == 0 then r.gapReturn == r.priorReturn == r.priorRange == r.priorVolume == r.priorVolatility == None
    else exists p: nat :: p < a && SessionAt(cal, f, cal.day(f[a - 1].ts), p, a) && PriorFields(r, st, f, p, a)
  }

  ghost predicate HistoriesMean(r: Feature, cal: Calendar, st: Statistics, f: Frame, bench: Frame, d: int) {
    exists own, other ::
      && AreReturns(cal, f, d, own) && AreReturns(cal, bench, d, other)
      && HistoryFields(r, st, Usable(own))
      && BenchmarkMeans(r.benchmark, st, r.rollingReturn20, Usable(own), Usable(other))
  }

  lemma BenchmarkMeaning(st: Statistics, own: Returns, bench: Returns)
    requires ByDay(own) && ByDay(bench)
    ensures BenchmarkMeans(BenchmarkPart(st, own, bench), st, Rolling(st, ValuesOf(own), 20, ReturnWindow), own, bench)
  {
    hide Rolling, CorrelationBeta, AreCorrelated, IsGrowth, IsVolatility;
    RollingMeaning(st, bench, 5);
    RollingMeaning(st, bench, 20);
    BetaMeaning(st, LastUpTo(own, 20), LastUpTo(bench, 20));
    assert Tail(own, 20) == LastUpTo(own, 20) && Tail(bench, 20) == LastUpTo(bench, 20);
  }

  lemma HistoriesMeaning(cal: Calendar, st: Statistics, symbol: string, f: Frame, bench: Frame, d: int, time: string)
    requires ValidCalendar(cal) && InTimeOrder(f) && InTimeOrder(bench) && HasRecord(cal, f, d, time)
    ensures HistoriesMean(FeatureAt(cal, st, symbol, f, bench, d, time), cal, st, f, bench, d)
  {
    hide Session, UpTo, After, Summaries, Position, Rolling, BenchmarkPart, BenchmarkMeans, AreReturns;
    var own, other := ReturnsThrough(Summaries(cal, st, f), d), ReturnsThrough(Summaries(cal, st, bench), d);
    ReturnsAreReturns(cal, st, f, d);
    ReturnsAreReturns(cal, st, bench, d);
    UsableByDay(cal, f, d, own);
    UsableByDay(cal, bench, d, other);
    assert History(cal, st, f, d) == Usable(own) && History(cal, st, bench, d) == Usable(other);
    RollingMeaning(st, Usable(own), 5);
    RollingMeaning(st, Usable(own), 20);
    BenchmarkMeaning(st, Usable(own), Usable(other));
    if bench == [] {
      NoBenchmark(cal, st, Usable(own), d);
    }
  }

  lemma UsableByDay(cal: Calendar, f: Frame, d: int, rs: Returns)
    requires AreReturns(cal, f, d, rs)
    ensures ByDay(Usable(rs))
  {
  }

  // Without a benchmark frame the fields are those of an empty history.
  lemma NoBenchmark(cal: Calendar, st: Statistics, own: Returns, d: int)
    ensures Usable(ReturnsThrough(Summaries(cal, st, []), d)) == []
    ensures BenchmarkPart(st, own, []) == NO_BENCHMARK
  {
    assert Summaries(cal, st, []) == [];
  }

  lemma PriorExists(cal: Calendar, st: Statistics, symbol: string, f: Frame, bench: Frame, d: int, time: string,
                    a: nat, b: nat, c: nat)
    requires ValidCalendar(cal) && InTimeOrder(f) && DecisionAt(cal, f, d, cal.decision(d, time), a, b, c)
    ensures HasRecord(cal, f, d, time)
    ensures PriorMeans(FeatureAt(cal, st, symbol, f, bench, d, time), cal, st, f, a)
  {
    hide HasRecord, FeatureAt, SessionAt;
    var p := PriorMeaning(cal, st, symbol, f, bench, d, time, a, b, c);
  }

  // Every field of the record of a decision, from the positions of the bars.
  lemma RecordMeaning(cal: Calendar, st: Statistics, symbol: string, f: Frame, bench: Frame, d: int, time: string,
                      a: nat, b: nat, c: nat)
    requires ValidCalendar(cal) && InTimeOrder(f) && InTimeOrder(bench)
    requires DecisionAt(cal, f, d, cal.decision(d, time), a, b, c)
    ensures HasRecord(cal, f, d, time)
    ensures RecordMeans(FeatureAt(cal, st, symbol, f, bench, d, time), cal, st, symbol, f, bench, d, time, a, b, c)
  {
    hide Session, UpTo, After, Summaries, Position, SummariesOf, Rolling, WindowFields, PriorMeans, HistoriesMean, AreVolumes;
    WindowMeaning(cal, st, symbol, f, bench, d, time, a, b, c);
    PriorExists(cal, st, symbol, f, bench, d, time, a, b, c);
    HistoriesMeaning(cal, st, symbol, f, bench, d, time);
    PastIsPosition(cal, st, f, d);
    VolumesMeaning(cal, st, f, d);
    ZScoreMeaning(st, PastVolumes(SummariesOf(cal, st, f, Before(Days(cal, f), d))), 20);
  }

  // ---------- which rows are built, and in which order

  datatype Inputs = Inputs(cal: Calendar, st: Statistics, universe: seq<(string, Frame)>, bench: Frame, times: seq<string>,
                           cost: real)

  // A decision: a symbol of the universe, a day, a decision time.
  datatype Key = Key(symbol: nat, day: int, time: nat)

  predicate Less(x: Key, y: Key) {
    || x.symbol < y.symbol
    || (x.symbol == y.symbol && (x.day < y.day || (x.day == y.day && x.time < y.time)))
  }

  predicate Recorded(w: Inputs, k: Key) {
    k.symbol < |w.universe| && k.time < |w.times| && HasRecord(w.cal, w.universe[k.symbol].1, k.day, w.times[k.time])
  }

  function RowOf(w: Inputs, k: Key): Row
    requires Recorded(w, k)
  {
    var (symbol, f) := w.universe[k.symbol];
    Row(FeatureAt(w.cal, w.st, symbol, f, w.bench, k.day, w.times[k.time]),
        LabelAt(w.cal, w.st, symbol, f, k.day, w.times[k.time], w.cost))
  }

  ghost predicate Lists(w: Inputs, rows: seq<Row>, keys: seq<Key>) {
    && |rows| == |keys|
    && (forall i, j | 0 <= i < j < |keys| :: Less(keys[i], keys[j]))
    && forall i | 0 <= i < |keys| :: Recorded(w, keys[i]) && rows[i] == RowOf(w, keys[i])
  }

  lemma ListsAppend(w: Inputs, rows: seq<Row>, keys: seq<Key>, rows': seq<Row>, keys': seq<Key>)
    requires Lists(w, rows, keys) && Lists(w, rows', keys')
    requires forall x, y | x in keys && y in keys' :: Less(x, y)
    ensures Lists(w, rows + rows', keys + keys')
  {
    hide Recorded, RowOf, Less;
    var n := |keys|;
    forall i, j | 0 <= i < j < |keys + keys'|
      ensures Less((keys + keys')[i], (keys + keys')[j])
    {
      if i < n <= j {
        assert keys[i] in keys && keys'[j - n] in keys';
      }
    }
  }

  function RowIfAny(w: Inputs, k: Key): seq<Row> { if Recorded(w, k) then [RowOf(w, k)] else [] }

  function RowsBy(w: Inputs, u: nat, d: int, n: nat): seq<Row>
    requires u < |w.universe| && n <= |w.times|
  {
    RowsAt(w.cal, w.st, w.universe[u].0, w.universe[u].1, w.bench, d, w.times[..n], w.cost)
  }

  lemma OneTimeMore(w: Inputs, u: nat, d: int, n: nat)
    requires u < |w.universe| && 0 < n <= |w.times|
    ensures RowsBy(w, u, d, n) == RowsBy(w, u, d, n - 1) + RowIfAny(w, Key(u, d, n - 1))
  {
    hide HasRecord, FeatureAt, LabelAt;
    var times := w.times[..n];
    assert times[..n - 1] == w.times[..n - 1] && times[n - 1] == w.times[n - 1];
  }

  lemma {:induction false} TimesListed(w: Inputs, u: nat, d: int, n: nat) returns (keys: seq<Key>)
    requires u < |w.universe| && n <= |w.times|
    ensures Lists(w, RowsBy(w, u, d, n), keys)
    ensures forall k :: k in keys <==> k.symbol == u && k.day == d && k.time < n && Recorded(w, k)
  {
    if n == 0 {
      keys := [];
    } else {
      keys := TimesListed(w, u, d, n - 1);
      OneTimeMore(w, u, d, n);
      var k := Key(u, d, n - 1);
      assert Recorded(w, k) ==> Lists(w, RowIfAny(w, k), [k]);
      hide RowsBy, RowOf, Recorded, Lists;
      var before := keys;
      if Recorded(w, k) {
        ListsAppend(w, RowsBy(w, u, d, n - 1), before, RowIfAny(w, k), [k]);
        keys := before + [k];
      } else {
        assert RowsBy(w, u, d, n - 1) + [] == RowsBy(w, u, d, n - 1);
      }
      forall q
        ensures q in keys <==> q.symbol == u && q.day == d && q.time < n && Recorded(w, q)
      {
        assert q in before <==> q.symbol == u && q.day == d && q.time < n - 1 && Recorded(w, q);
      }
    }
  }

  lemma {:induction false} DaysListed(w: Inputs, u: nat, days: seq<int>) returns (keys: seq<Key>)
    requires u < |w.universe| && Increasing(IntLe, days)
    ensures Lists(w, RowsOnDays(w.cal, w.st, w.universe[u].0, w.universe[u].1, w.bench, days, w.times, w.cost), keys)
    ensures forall k :: k in keys <==> k.symbol == u && k.day in days && Recorded(w, k)
  {
    if days == [] {
      keys := [];
    } else {
      var n := |days| - 1;
      hide HasRecord, FeatureAt, LabelAt, RowsAt;
      var before := DaysListed(w, u, days[..n]);
      assert w.times[..|w.times|] == w.times;
      var today := TimesListed(w, u, days[n], |w.times|);
      assert days == days[..n] + [days[n]];
      IntsIncrease(days);
      hide Lists;
      ListsAppend(w, RowsOnDays(w.cal, w.st, w.universe[u].0, w.universe[u].1, w.bench, days[..n], w.times, w.cost), before,
                  RowsAt(w.cal, w.st, w.universe[u].0, w.universe[u].1, w.bench, days[n], w.times, w.cost), today);
      keys := before + today;
    }
  }

  lemma SymbolListed(w: Inputs, u: nat) returns (keys: seq<Key>)
    requires u < |w.universe|
    ensures var (symbol, f) := w.universe[u];
            Lists(w, RowsOnDays(w.cal, w.st, symbol, f, w.bench, Days(w.cal, f), w.times, w.cost), keys)
    ensures forall k :: k in keys <==> k.symbol == u && Recorded(w, k)
  {
    hide HasRecord, Lists, Days;
    var f := w.universe[u].1;
    DaysSpec(w.cal, f);
    keys := DaysListed(w, u, Days(w.cal, f));
    forall k: Key | k.symbol == u && Recorded(w, k)
      ensures k.day in Days(w.cal, f)
    {
      RecordHasDay(w.cal, f, k.day, w.times[k.time]);
    }
  }

  lemma {:induction false} SymbolsListed(w: Inputs, n: nat) returns (keys: seq<Key>)
    requires n <= |w.universe|
    ensures Lists(w, AllRows(w.cal, w.st, w.universe[..n], w.bench, w.times, w.cost), keys)
    ensures forall k :: k in keys <==> k.symbol < n && Recorded(w, k)
  {
    if n == 0 {
      keys := [];
    } else {
      hide Recorded, RowOf, RowsOnDays, Lists, Days;
      var some := w.universe[..n];
      assert some[..n - 1] == w.universe[..n - 1] && some[n - 1] == w.universe[n - 1];
      var (symbol, f) := some[n - 1];
      var before := SymbolsListed(w, n - 1);
      var own := SymbolListed(w, n - 1);
      ListsAppend(w, AllRows(w.cal, w.st, w.universe[..n - 1], w.bench, w.times, w.cost), before,
                  RowsOnDays(w.cal, w.st, symbol, f, w.bench, Days(w.cal, f), w.times, w.cost), own);
      keys := before + own;
    }
  }

  lemma RecordHasDay(cal: Calendar, f: Frame, d: int, time: string)
    requires HasRecord(cal, f, d, time)
    ensures Session(cal, f, d) != []
  {
  }

  // The rows of the builder are those of exactly the decisions with bars on both sides, ordered
  // by symbol, day and decision time; and each one means what it says.
  lemma RowsMean(w: Inputs) returns (keys: seq<Key>)
    requires ValidCalendar(w.cal) && InTimeOrder(w.bench) && forall u | 0 <= u < |w.universe| :: InTimeOrder(w.universe[u].1)
    ensures |AllRows(w.cal, w.st, w.universe, w.bench, w.times, w.cost)| == |keys|
    ensures forall i, j | 0 <= i < j < |keys| :: Less(keys[i], keys[j])
    ensures forall k :: k in keys <==> k.symbol < |w.universe| && k.time < |w.times| && Decides(w, k)
    ensures forall i | 0 <= i < |keys| ::
              RowMeans(AllRows(w.cal, w.st, w.universe, w.bench, w.times, w.cost)[i], w, keys[i])
  {
    assert w.universe[..|w.universe|] == w.universe;
    keys := SymbolsListed(w, |w.universe|);
    hide AllRows;
    forall k: Key | k.symbol < |w.universe| && k.time < |w.times|
      ensures Recorded(w, k) <==> Decides(w, k)
    {
      HasRecordIff(w.cal, w.universe[k.symbol].1, k.day, w.times[k.time]);
    }
    forall i | 0 <= i < |keys|
      ensures RowMeans(AllRows(w.cal, w.st, w.universe, w.bench, w.times, w.cost)[i], w, keys[i])
    {
      assert keys[i] in keys;
      RowMeaning(w, keys[i]);
    }
  }

  // The decision has bars of its session on both sides.
  ghost predicate Decides(w: Inputs, k: Key)
    requires k.symbol < |w.universe| && k.time < |w.times|
  {
    exists a, b, c :: DecisionAt(w.cal, w.universe[k.symbol].1, k.day, w.cal.decision(k.day, w.times[k.time]), a, b, c)
  }

  ghost predicate RowMeans(row: Row, w: Inputs, k: Key) {
    && k.symbol < |w.universe| && k.time < |w.times|
    && var (symbol, f) := w.universe[k.symbol];
       var time := w.times[k.time];
       exists a, b, c ::
         && DecisionAt(w.cal, f, k.day, w.cal.decision(k.day, time), a, b, c)
         && RecordMeans(row.feature, w.cal, w.st, symbol, f, w.bench, k.day, time, a, b, c)
         && LabelMeans(row.entry, w.st, symbol, k.day, time, f, b, c, w.cost)
  }

  lemma RowMeaning(w: Inputs, k: Key)
    requires ValidCalendar(w.cal) && InTimeOrder(w.bench) && Recorded(w, k) && InTimeOrder(w.universe[k.symbol].1)
    ensures RowMeans(RowOf(w, k), w, k)
  {
    var (symbol, f) := w.universe[k.symbol];
    var time := w.times[k.time];
    HasRecordIff(w.cal, f, k.day, time);
    var a, b, c :| DecisionAt(w.cal, f, k.day, w.cal.decision(k.day, time), a, b, c);
    hide HasRecord, FeatureAt, LabelAt, RecordMeans, LabelMeans;
    RecordMeaning(w.cal, w.st, symbol, f, w.bench, k.day, time, a, b, c);
    LabelMeaning(w.cal, w.st, symbol, f, k.day, time, w.cost, a, b, c);
  }
}
