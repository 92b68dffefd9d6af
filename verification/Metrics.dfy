// engine/metrics.py and the diagnostics of engine/aggregates.py: histograms that partition their
// input, and per-reason totals that add up over runs.
module Metrics {
  import opened Common

  // ---------- histograms

  // A half-open interval of values; no end means unbounded.
  datatype Edge = Edge(start: real, end: Option<real>)

  // An unbounded bin reports its start as its end.
  datatype HistogramBin = HistogramBin(start: real, end: real, count: int)

  // The dynamic bins add one rule to the fixed ones: a bin without width holds its one value.
  datatype Rule = Fixed | Dynamic

  predicate InBin(rule: Rule, e: Edge, v: real) {
    if e.end.None? then v >= e.start
    else if rule == Dynamic && e.start == e.end.value then v == e.start
    else e.start <= v < e.end.value
  }

  function Count(rule: Rule, e: Edge, values: seq<real>): nat {
    if values == [] then 0
    else Count(rule, e, values[..|values| - 1]) + if InBin(rule, e, values[|values| - 1]) then 1 else 0
  }

  function BinOf(rule: Rule, e: Edge, values: seq<real>): HistogramBin {
    HistogramBin(e.start, if e.end.Some? then e.end.value else e.start, Count(rule, e, values))
  }

  function Bins(rule: Rule, edges: seq<Edge>, values: seq<real>): (r: seq<HistogramBin>)
    ensures |r| == |edges|
  {
    seq(|edges|, i requires 0 <= i < |edges| => BinOf(rule, edges[i], values))
  }

  function TotalCount(bins: seq<HistogramBin>): int {
    if bins == [] then 0 else TotalCount(bins[..|bins| - 1]) + bins[|bins| - 1].count
  }

  // Count counts the values in the interval.
  lemma {:induction false} CountOfParts(rule: Rule, e: Edge, a: seq<real>, b: seq<real>)
    ensures Count(rule, e, a + b) == Count(rule, e, a) + Count(rule, e, b)
    ensures forall v :: Count(rule, e, [v]) == 1
              <==> e.start <= v && (e.end.Some? ==> v < e.end.value || (rule == Dynamic && v == e.start == e.end.value))
    ensures forall v :: Count(rule, e, [v]) <= 1
  {
    if b == [] {
      assert a + b == a;
    } else {
      var n := |b| - 1;
      assert (a + b)[..|a + b| - 1] == a + b[..n];
      CountOfParts(rule, e, a, b[..n]);
    }
    forall v
      ensures Count(rule, e, [v]) == if InBin(rule, e, v) then 1 else 0
    {
      assert [v][..0] == [];
    }
  }

  // _count_values_in_bins and the loop of _count_values_in_dynamic_bins.
  method CountValues(rule: Rule, values: seq<real>, edges: seq<Edge>) returns (bins: seq<HistogramBin>)
    ensures bins == Bins(rule, edges, values)
  {
    bins := [];
    for i := 0 to |edges|
      invariant |bins| == i && forall j | 0 <= j < i :: bins[j] == BinOf(rule, edges[j], values)
    {
      var e, count := edges[i], 0;
      for k := 0 to |values|
        invariant count == Count(rule, e, values[..k])
      {
        assert values[..k + 1][..k] == values[..k];
        if InBin(rule, e, values[k]) { count := count + 1; }
      }
      assert values[..|values|] == values;
      bins := bins + [HistogramBin(e.start, if e.end.Some? then e.end.value else e.start, count)];
    }
  }

  // Edges that follow one another upwards and leave the last one open.
  predicate Chained(edges: seq<Edge>) {
    && edges != []
    && edges[|edges| - 1].end.None?
    && forall i | 0 < i < |edges| :: edges[i - 1].end == Some(edges[i].start) && edges[i - 1].start < edges[i].start
  }

  lemma {:induction false} CountSplits(rule: Rule, a: real, b: real, values: seq<real>)
    requires a < b
    ensures Count(rule, Edge(a, Some(b)), values) + Count(rule, Edge(b, None), values) == Count(rule, Edge(a, None), values)
  {
    if values != [] {
      CountSplits(rule, a, b, values[..|values| - 1]);
    }
  }

  // Chained bins count every value from the first start on exactly once.
  lemma {:induction false} ChainCounts(rule: Rule, edges: seq<Edge>, values: seq<real>, bins: seq<HistogramBin>, n: nat)
    requires Chained(edges) && n < |edges| && bins == Bins(rule, edges, values)
    ensures TotalCount(bins[..n]) + Count(rule, Edge(edges[n].start, None), values) == Count(rule, Edge(edges[0].start, None), values)
  {
    if n > 0 {
      ChainCounts(rule, edges, values, bins, n - 1);
      assert bins[..n][..n - 1] == bins[..n - 1];
      CountSplits(rule, edges[n - 1].start, edges[n].start, values);
      assert edges[n - 1] == Edge(edges[n - 1].start, Some(edges[n].start));
    }
  }

  lemma ChainTotal(rule: Rule, edges: seq<Edge>, values: seq<real>)
    requires Chained(edges)
    ensures TotalCount(Bins(rule, edges, values)) == Count(rule, Edge(edges[0].start, None), values)
  {
    var n, bins := |edges| - 1, Bins(rule, edges, values);
    ChainCounts(rule, edges, values, bins, n);
    assert bins[..|bins| - 1] == bins[..n] && edges[n] == Edge(edges[n].start, None);
  }

  predicate AllAtLeast(low: real, values: seq<real>) { forall i | 0 <= i < |values| :: values[i] >= low }

  lemma {:induction false} CountAll(rule: Rule, low: real, values: seq<real>)
    ensures Count(rule, Edge(low, None), values) <= |values|
    ensures Count(rule, Edge(low, None), values) == |values| <==> AllAtLeast(low, values)
  {
    if values != [] {
      var init := values[..|values| - 1];
      CountAll(rule, low, init);
      assert AllAtLeast(low, values) <==> AllAtLeast(low, init) && values[|values| - 1] >= low by {
        assert forall i | 0 <= i < |init| :: init[i] == values[i];
      }
    }
  }

  // HOLD_TIME_MINUTE_BINS.
  function HoldTimeEdges(): seq<Edge> {
    [Edge(0.0, Some(5.0)), Edge(5.0, Some(15.0)), Edge(15.0, Some(30.0)), Edge(30.0, Some(60.0)), Edge(60.0, None)]
  }

  // The hold-time histogram counts the non-negative durations once each, and so all of them
  // exactly when none is negative.
  lemma HoldTimesPartition(minutes: seq<real>)
    ensures TotalCount(Bins(Fixed, HoldTimeEdges(), minutes)) == Count(Fixed, Edge(0.0, None), minutes)
    ensures TotalCount(Bins(Fixed, HoldTimeEdges(), minutes)) == |minutes| <==> AllAtLeast(0.0, minutes)
    ensures forall i | 0 <= i < 5 :: Bins(Fixed, HoldTimeEdges(), minutes)[i].start == [0.0, 5.0, 15.0, 30.0, 60.0][i]
  {
    ChainTotal(Fixed, HoldTimeEdges(), minutes);
    CountAll(Fixed, 0.0, minutes);
  }

  // ---------- dynamic bins

  const MAX_BINS := 6

  predicate IsLeast(m: real, values: seq<real>) { m in values && forall v | v in values :: m <= v }

  predicate IsGreatest(m: real, values: seq<real>) { m in values && forall v | v in values :: v <= m }

  method MinMax(values: seq<real>) returns (minimum: real, maximum: real)
    requires values != []
    ensures IsLeast(minimum, values) && IsGreatest(maximum, values)
  {
    minimum, maximum := values[0], values[0];
    for i := 1 to |values|
      invariant IsLeast(minimum, values[..i]) && IsGreatest(maximum, values[..i])
    {
      assert values[..i + 1] == values[..i] + [values[i]];
      minimum, maximum := MinR(minimum, values[i]), MaxR(maximum, values[i]);
    }
    assert values[..|values|] == values;
  }

  function Distinct(values: seq<real>): set<real> { set v | v in values }

  lemma DistinctSpread(values: seq<real>, minimum: real, maximum: real)
    requires values != [] && IsLeast(minimum, values) && IsGreatest(maximum, values)
    ensures minimum == maximum <==> |Distinct(values)| == 1
  {
    var unique := Distinct(values);
    assert minimum in unique && maximum in unique;
    if minimum == maximum {
      forall v | v in unique
        ensures v == minimum
      {
        assert v in values;
      }
      assert unique == {minimum};
    } else {
      assert {minimum, maximum} <= unique && |{minimum, maximum}| == 2;
      Subset({minimum, maximum}, unique);
    }
  }

  lemma {:induction false} Subset<T>(a: set<T>, b: set<T>)
    requires a <= b
    ensures |a| <= |b|
    decreases a
  {
    if a != {} {
      var x :| x in a;
      Subset(a - {x}, b - {x});
    }
  }

  function EvenEdge(lo: real, width: real, n: int, i: int): Edge {
    Edge(lo + i as real * width, if i < n - 1 then Some(lo + (i + 1) as real * width) else None)
  }

  // n bins of equal width from lo to hi, the last of them open.
  predicate EvenEdges(edges: seq<Edge>, lo: real, hi: real, n: int) {
    && |edges| == n && n > 0
    && forall i | 0 <= i < n :: edges[i] == EvenEdge(lo, (hi - lo) / n as real, n, i)
  }

  lemma NextStep(k: real, width: real)
    requires width > 0.0
    ensures (k + 1.0) * width > k * width
  {
  }

  lemma EdgeStep(lo: real, width: real, n: int, i: int)
    requires width > 0.0
    ensures EvenEdge(lo, width, n, i - 1).start < EvenEdge(lo, width, n, i).start
  {
    var k := (i - 1) as real;
    assert i as real == k + 1.0;
    NextStep(k, width);
    assert i as real * width == (k + 1.0) * width;
    assert EvenEdge(lo, width, n, i - 1).start == lo + k * width;
  }

  lemma WidthOf(lo: real, hi: real, n: int)
    requires n >= 2 && lo < hi
    ensures var width := (hi - lo) / n as real; width > 0.0 && lo + (n - 1) as real * width == hi - width
  {
    var m := n as real;
    var width := (hi - lo) / m;
    assert width * m == hi - lo;
    assert (m - 1.0) * width == width * m - width;
  }

  // Even bins chain from the least value, and the last of them starts below the greatest.
  lemma EvenEdgesChain(edges: seq<Edge>, lo: real, hi: real, n: int)
    requires EvenEdges(edges, lo, hi, n) && n >= 2 && lo < hi
    ensures Chained(edges) && edges[0].start == lo && edges[n - 1].start < hi
  {
    var width := (hi - lo) / n as real;
    WidthOf(lo, hi, n);
    forall i | 0 < i < n
      ensures edges[i - 1].end == Some(edges[i].start) && edges[i - 1].start < edges[i].start
    {
      EdgeStep(lo, width, n, i);
    }
    assert edges[n - 1] == EvenEdge(lo, width, n, n - 1) && edges[0] == EvenEdge(lo, width, n, 0);
  }

  ghost predicate Spread(values: seq<real>, edges: seq<Edge>) {
    exists lo, hi ::
      && IsLeast(lo, values) && IsGreatest(hi, values) && lo < hi
      && EvenEdges(edges, lo, hi, Min(MAX_BINS, |Distinct(values)|))
  }

  // _size_bin_edges: one bin for a single value, else between two and six bins of equal width.
  method SizeBinEdges(values: seq<real>) returns (edges: seq<Edge>)
    ensures values == [] ==> edges == []
    ensures |Distinct(values)| == 1 ==> edges == [Edge(values[0], Some(values[0]))]
    ensures |Distinct(values)| > 1 ==> Spread(values, edges)
  {
    edges := [];
    if values == [] { return; }
    var unique := Distinct(values);
    var minimum, maximum := MinMax(values);
    DistinctSpread(values, minimum, maximum);
    assert values[0] in unique;
    if |unique| == 1 {
      assert minimum in values && values[0] in values;
      return [Edge(minimum, Some(minimum))];
    }
    var binCount := Min(MAX_BINS, Max(2, |unique|));
    var width := (maximum - minimum) / binCount as real;
    for i := 0 to binCount
      invariant |edges| == i
      invariant forall j | 0 <= j < i :: edges[j] == EvenEdge(minimum, width, binCount, j)
    {
      var start := minimum + i as real * width;
      edges := edges + [Edge(start, if i < binCount - 1 then Some(minimum + (i + 1) as real * width) else None)];
    }
    assert EvenEdges(edges, minimum, maximum, binCount);
  }

  lemma SpreadCounts(values: seq<real>, edges: seq<Edge>)
    requires |Distinct(values)| > 1 && Spread(values, edges)
    ensures TotalCount(Bins(Dynamic, edges, values)) == |values| && |edges| == Min(MAX_BINS, |Distinct(values)|)
  {
    var n := Min(MAX_BINS, |Distinct(values)|);
    var lo, hi :| IsLeast(lo, values) && IsGreatest(hi, values) && lo < hi && EvenEdges(edges, lo, hi, n);
    EvenEdgesChain(edges, lo, hi, n);
    ChainTotal(Dynamic, edges, values);
    CountAll(Dynamic, lo, values);
    assert forall i | 0 <= i < |values| :: values[i] in values;
  }

  lemma SingleBin(values: seq<real>, edges: seq<Edge>)
    requires |Distinct(values)| == 1 && values != [] && edges == [Edge(values[0], Some(values[0]))]
    ensures TotalCount(Bins(Dynamic, edges, values)) == |values|
  {
    SingleCount(values[0], values);
    var bins := Bins(Dynamic, edges, values);
    assert bins[0] == BinOf(Dynamic, edges[0], values) && bins[0].count == |values|;
    assert bins[..|bins| - 1] == [] && TotalCount(bins[..|bins| - 1]) == 0;
  }

  // _count_values_in_dynamic_bins: every list of values is partitioned, so the counts add up to
  // its length.
  method DynamicBins(values: seq<real>) returns (bins: seq<HistogramBin>)
    ensures TotalCount(bins) == |values| && |bins| == Min(MAX_BINS, |Distinct(values)|)
    ensures exists edges :: bins == Bins(Dynamic, edges, values)
  {
    var edges := SizeBinEdges(values);
    bins := CountValues(Dynamic, values, edges);
    if values == [] {
      assert Distinct(values) == {} && bins == [];
      return;
    }
    assert values[0] in Distinct(values);
    if |Distinct(values)| == 1 {
      SingleBin(values, edges);
    } else {
      SpreadCounts(values, edges);
    }
  }

  lemma SingleCount(value: real, values: seq<real>)
    requires values != [] && |Distinct(values)| == 1 && value == values[0]
    ensures Count(Dynamic, Edge(value, Some(value)), values) == |values|
  {
    forall i | 0 <= i < |values|
      ensures values[i] == value
    {
      SingletonMembers(Distinct(values), values[i], value);
    }
    CountSame(value, values);
  }

  lemma SingletonMembers<T>(s: set<T>, x: T, y: T)
    requires |s| == 1 && x in s && y in s
    ensures x == y
  {
    assert |s - {x}| == 0;
    assert y !in s - {x};
  }

  lemma {:induction false} CountSame(value: real, values: seq<real>)
    requires forall i | 0 <= i < |values| :: values[i] == value
    ensures Count(Dynamic, Edge(value, Some(value)), values) == |values|
  {
    if values != [] {
      CountSame(value, values[..|values| - 1]);
    }
  }
}
