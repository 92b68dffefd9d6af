// engine/aggregates.py: the forward-fill merge of equity curves and the one-pass drawdown.
module EquityCurves {
  import opened Common
  import opened Ordering

  datatype Point = Point(ts: int, value: real)

  type Curve = seq<Point>

  // ---------- meaning of the merge

  // How many leading points are at or before ts: where the moving pointer stands.
  function Reached(curve: Curve, ts: int): (n: nat)
    ensures n <= |curve|
  {
    if curve == [] || curve[0].ts > ts then 0 else 1 + Reached(curve[1..], ts)
  }

  function ValueAt(curve: Curve, ts: int): real
    requires curve != []
  {
    var n := Reached(curve, ts);
    if n == 0 then curve[0].value else curve[n - 1].value
  }

  ghost predicate NoneEmpty(curves: seq<Curve>) { forall c | 0 <= c < |curves| :: curves[c] != [] }

  ghost function SumAt(curves: seq<Curve>, ts: int): real
    requires NoneEmpty(curves)
  {
    if curves == [] then 0.0 else SumAt(curves[..|curves| - 1], ts) + ValueAt(curves[|curves| - 1], ts)
  }

  function Stamps(curve: Curve): (r: seq<int>)
    ensures |r| == |curve|
  {
    seq(|curve|, i requires 0 <= i < |curve| => curve[i].ts)
  }

  function AllStamps(curves: seq<Curve>): seq<int> {
    if curves == [] then [] else AllStamps(curves[..|curves| - 1]) + Stamps(curves[|curves| - 1])
  }

  // The sorted distinct union of the curves' timestamps.
  function Axis(curves: seq<Curve>): seq<int> { SortedDistinct(IntLe, AllStamps(curves)) }

  ghost function Merged(curves: seq<Curve>): Curve {
    var kept := NonEmpty(curves);
    if kept == [] then []
    else if |kept| == 1 then kept[0]
    else seq(|Axis(kept)|, i requires 0 <= i < |Axis(kept)| => Point(Axis(kept)[i], SumAt(kept, Axis(kept)[i])))
  }

  // SumAt adds the curves' values.
  lemma {:induction false} SumOfCurves(curves: seq<Curve>, more: seq<Curve>, ts: int)
    requires NoneEmpty(curves) && NoneEmpty(more)
    ensures NoneEmpty(curves + more) && SumAt(curves + more, ts) == SumAt(curves, ts) + SumAt(more, ts)
    ensures forall c: Curve | c != [] :: NoneEmpty([c]) && SumAt([c], ts) == ValueAt(c, ts)
  {
    hide ValueAt;
    if more == [] {
      assert curves + more == curves;
    } else {
      var n := |more| - 1;
      assert (curves + more)[..|curves + more| - 1] == curves + more[..n];
      SumOfCurves(curves, more[..n], ts);
    }
    forall c: Curve | c != []
      ensures NoneEmpty([c]) && SumAt([c], ts) == ValueAt(c, ts)
    {
      assert [c][..0] == [];
    }
  }

  lemma {:induction false} ReachedSpec(curve: Curve, ts: int, n: nat)
    requires n <= |curve| && forall i | 0 <= i < n :: curve[i].ts <= ts
    requires n < |curve| ==> curve[n].ts > ts
    ensures Reached(curve, ts) == n
  {
    if n > 0 {
      ReachedSpec(curve[1..], ts, n - 1);
    }
  }

  lemma {:induction false} ReachedPrefix(curve: Curve, ts: int)
    ensures forall i | 0 <= i < Reached(curve, ts) :: curve[i].ts <= ts
    ensures Reached(curve, ts) < |curve| ==> curve[Reached(curve, ts)].ts > ts
  {
    if curve != [] && curve[0].ts <= ts {
      ReachedPrefix(curve[1..], ts);
      forall i | 0 <= i < Reached(curve, ts)
        ensures curve[i].ts <= ts
      {
        if i > 0 { assert curve[1..][i - 1] == curve[i]; }
      }
    }
  }

  // ---------- the merge

  method MergeEquityCurves(curves: seq<Curve>) returns (merged: Curve)
    ensures merged == Merged(curves)
  {
    var kept: seq<Curve> := [];
    for i := 0 to |curves|
      invariant kept == NonEmpty(curves[..i])
    {
      assert curves[..i + 1][..i] == curves[..i];
      if curves[i] != [] { kept := kept + [curves[i]]; }
    }
    assert curves[..|curves|] == curves;
    if kept == [] {
      return [];
    }
    if |kept| == 1 {
      return kept[0];
    }
    merged := FillForward(kept);
  }

  // The pointers have passed exactly the points at or before the last timestamp handled.
  ghost predicate Caught(curves: seq<Curve>, pointers: seq<nat>, last: seq<real>, k: nat, now: int, before: Option<int>)
    requires k <= |curves| == |pointers| == |last| && NoneEmpty(curves)
  {
    forall c | 0 <= c < |curves| ::
      if c < k then pointers[c] == Reached(curves[c], now) && last[c] == ValueAt(curves[c], now)
      else if before.Some? then pointers[c] == Reached(curves[c], before.value) && last[c] == ValueAt(curves[c], before.value)
      else pointers[c] == 0 && last[c] == curves[c][0].value
  }

  lemma AxisIncreases(curves: seq<Curve>)
    ensures forall i, j | 0 <= i < j < |Axis(curves)| :: Axis(curves)[i] < Axis(curves)[j]
  {
    IntLeTotal();
    SortedDistinctSpec(IntLe, AllStamps(curves));
    var axis := Axis(curves);
    assert forall i, j | 0 <= i < j < |axis| :: IntLe(axis[i], axis[j]) && axis[i] != axis[j];
  }

  method FillForward(curves: seq<Curve>) returns (merged: Curve)
    requires NoneEmpty(curves)
    ensures merged == seq(|Axis(curves)|, i requires 0 <= i < |Axis(curves)| => Point(Axis(curves)[i], SumAt(curves, Axis(curves)[i])))
  {
    hide Reached, ValueAt, Axis, SumAt;
    var ordered := Axis(curves);
    AxisIncreases(curves);
    var pointers := new nat[|curves|](_ => 0);
    var last := new real[|curves|](c requires 0 <= c < |curves| => curves[c][0].value);
    merged := [];
    for i := 0 to |ordered|
      invariant |merged| == i
      invariant forall j | 0 <= j < i :: merged[j] == Point(ordered[j], SumAt(curves, ordered[j]))
      invariant Caught(curves, pointers[..], last[..], 0, 0, if i == 0 then None else Some(ordered[i - 1]))
    {
      var combined := SumRow(curves, pointers, last, ordered[i], if i == 0 then None else Some(ordered[i - 1]));
      merged := merged + [Point(ordered[i], combined)];
    }
  }

  // One timestamp: every curve's pointer moves up to `now`, and their values are added.
  method SumRow(curves: seq<Curve>, pointers: array<nat>, last: array<real>, now: int, ghost before: Option<int>)
    returns (combined: real)
    requires NoneEmpty(curves) && pointers.Length == last.Length == |curves|
    requires Caught(curves, pointers[..], last[..], 0, 0, before) && (before.Some? ==> before.value <= now)
    modifies pointers, last
    ensures Caught(curves, pointers[..], last[..], 0, 0, Some(now)) && combined == SumAt(curves, now)
  {
    hide Reached, ValueAt;
    combined := 0.0;
    for c := 0 to |curves|
      invariant Caught(curves, pointers[..], last[..], c, now, before)
      invariant combined == SumAt(curves[..c], now)
    {
      assert curves[..c + 1][..c] == curves[..c];
      Advance(curves[c], pointers, last, c, now, before);
      combined := combined + last[c];
    }
    assert curves[..|curves|] == curves;
  }

  // The inner loop: move one curve's pointer up to `now`. Pointers only move forward.
  method Advance(curve: Curve, pointers: array<nat>, last: array<real>, c: nat, now: int, ghost before: Option<int>)
    requires curve != [] && c < pointers.Length == last.Length
    requires before.Some? ==> before.value <= now
    requires if before.Some? then pointers[c] == Reached(curve, before.value) && last[c] == ValueAt(curve, before.value)
             else pointers[c] == 0 && last[c] == curve[0].value
    modifies pointers, last
    ensures pointers[c] == Reached(curve, now) && last[c] == ValueAt(curve, now)
    ensures pointers[c] >= old(pointers[c])
    ensures forall j | 0 <= j < pointers.Length && j != c :: pointers[j] == old(pointers[j]) && last[j] == old(last[j])
  {
    if before.Some? { ReachedPrefix(curve, before.value); }
    while pointers[c] < |curve| && curve[pointers[c]].ts <= now
      invariant old(pointers[c]) <= pointers[c] <= |curve|
      invariant forall k | 0 <= k < pointers[c] :: curve[k].ts <= now
      invariant last[c] == if pointers[c] == 0 then curve[0].value else curve[pointers[c] - 1].value
      invariant forall j | 0 <= j < pointers.Length && j != c :: pointers[j] == old(pointers[j]) && last[j] == old(last[j])
      decreases |curve| - pointers[c]
    {
      last[c] := curve[pointers[c]].value;
      pointers[c] := pointers[c] + 1;
    }
    ReachedSpec(curve, now, pointers[c]);
  }

  // ---------- what the merge means on time-sorted curves

  ghost predicate StampsAscend(curve: Curve) { forall i, j | 0 <= i < j < |curve| :: curve[i].ts <= curve[j].ts }

  // The value of a curve at ts is that of its last point at or before ts, if it has one.
  lemma ForwardFill(curve: Curve, ts: int)
    requires curve != [] && StampsAscend(curve)
    ensures curve[0].ts > ts ==> ValueAt(curve, ts) == curve[0].value
    ensures forall k | 0 <= k < |curve| && curve[k].ts <= ts && (k + 1 < |curve| ==> curve[k + 1].ts > ts) ::
              ValueAt(curve, ts) == curve[k].value
    ensures curve[0].ts <= ts ==>
              exists k :: 0 <= k < |curve| && curve[k].ts <= ts && (forall m | k < m < |curve| :: curve[m].ts > ts)
                          && ValueAt(curve, ts) == curve[k].value
  {
    ReachedPrefix(curve, ts);
    var n := Reached(curve, ts);
    forall k | 0 <= k < |curve| && curve[k].ts <= ts && (k + 1 < |curve| ==> curve[k + 1].ts > ts)
      ensures n == k + 1
    {
      ReachedSpec(curve, ts, k + 1);
    }
    if curve[0].ts <= ts {
      assert forall m | n - 1 < m < |curve| :: curve[n].ts <= curve[m].ts;
      assert curve[n - 1].ts <= ts && ValueAt(curve, ts) == curve[n - 1].value;
    }
  }

  ghost predicate HasStamp(curve: Curve, ts: int) { exists k :: 0 <= k < |curve| && curve[k].ts == ts }

  ghost predicate AnyStamp(curves: seq<Curve>, ts: int) { exists c :: 0 <= c < |curves| && HasStamp(curves[c], ts) }

  lemma {:induction false} AllStampsSpec(curves: seq<Curve>, ts: int)
    ensures ts in AllStamps(curves) <==> AnyStamp(curves, ts)
  {
    if curves != [] {
      var init, last := curves[..|curves| - 1], curves[|curves| - 1];
      AllStampsSpec(init, ts);
      if ts in Stamps(last) {
        var k :| 0 <= k < |last| && Stamps(last)[k] == ts;
        assert last[k].ts == ts;
        assert HasStamp(curves[|curves| - 1], ts);
      }
      if AnyStamp(init, ts) {
        var c :| 0 <= c < |init| && HasStamp(init[c], ts);
        assert HasStamp(curves[c], ts);
      }
      if c :| 0 <= c < |curves| && HasStamp(curves[c], ts) {
        var k :| 0 <= k < |curves[c]| && curves[c][k].ts == ts;
        if c < |init| {
          assert HasStamp(init[c], ts);
        } else {
          assert Stamps(last)[k] == ts;
        }
      }
    }
  }

  // With two or more non-empty curves, the merged timestamps are the sorted distinct union.
  lemma MergedAxis(curves: seq<Curve>)
    requires |NonEmpty(curves)| >= 2
    ensures var m, kept := Merged(curves), NonEmpty(curves);
            && (forall i, j | 0 <= i < j < |m| :: m[i].ts < m[j].ts)
            && (forall ts :: HasStamp(m, ts) <==> AnyStamp(kept, ts))
  {
    var m, kept := Merged(curves), NonEmpty(curves);
    IntLeTotal();
    SortedDistinctSpec(IntLe, AllStamps(kept));
    forall i, j | 0 <= i < j < |m|
      ensures m[i].ts < m[j].ts
    {
      assert IntLe(Axis(kept)[i], Axis(kept)[j]) && Axis(kept)[i] != Axis(kept)[j];
    }
    forall ts
      ensures HasStamp(m, ts) <==> AnyStamp(kept, ts)
    {
      AllStampsSpec(kept, ts);
      if i :| 0 <= i < |m| && m[i].ts == ts {
        assert Axis(kept)[i] in Axis(kept);
      }
      if ts in AllStamps(kept) {
        assert ts in Axis(kept);
        var i :| 0 <= i < |Axis(kept)| && Axis(kept)[i] == ts;
        assert m[i].ts == ts;
      }
    }
  }

  // ---------- drawdown

  // The drop from v[i] to v[j], in percent of v[i].
  function Drop(v: seq<real>, i: nat, j: nat): real
    requires i < |v| && j < |v| && v[i] > 0.0
  {
    (v[i] - v[j]) / v[i] * 100.0
  }

  function Peak(v: seq<real>, n: nat): real
    requires 0 < n <= |v|
  {
    if n == 1 then v[0] else MaxR(Peak(v, n - 1), v[n - 1])
  }

  // What one pass computes: the largest drop from the running peak, and at least zero.
  function PeakDrawdown(v: seq<real>, n: nat): real
    requires n <= |v|
  {
    if n == 0 then 0.0
    else
      var peak, before := Peak(v, n), PeakDrawdown(v, n - 1);
      if peak > 0.0 then MaxR(before, (peak - v[n - 1]) / peak * 100.0) else before
  }

  method MaxDrawdownPct(values: seq<real>) returns (r: Option<real>)
    ensures r == if |values| < 2 then None else Some(PeakDrawdown(values, |values|))
  {
    if |values| < 2 {
      return None;
    }
    var peak, maxDrawdown := values[0], 0.0;
    for i := 0 to |values|
      invariant peak == if i == 0 then values[0] else Peak(values, i)
      invariant maxDrawdown == PeakDrawdown(values, i) && maxDrawdown >= 0.0
    {
      var value := values[i];
      if value > peak { peak := value; }
      if peak > 0.0 {
        var drawdown := (peak - value) / peak * 100.0;
        if drawdown > maxDrawdown { maxDrawdown := drawdown; }
      }
    }
    r := Some(if maxDrawdown > 0.0 then maxDrawdown else 0.0);
  }

  lemma {:induction false} PeakSpec(v: seq<real>, n: nat) returns (i: nat)
    requires 0 < n <= |v|
    ensures i < n && v[i] == Peak(v, n) && forall k | 0 <= k < n :: v[k] <= Peak(v, n)
  {
    if n == 1 {
      i := 0;
    } else {
      i := PeakSpec(v, n - 1);
      if v[n - 1] >= Peak(v, n - 1) { i := n - 1; }
    }
  }

  // For a non-negative end value, a higher start makes a larger drop.
  lemma DropGrows(low: real, high: real, end: real)
    requires 0.0 < low <= high && end >= 0.0
    ensures (low - end) / low * 100.0 <= (high - end) / high * 100.0 <= 100.0
  {
    Complement(low, end);
    Complement(high, end);
    DivideAnti(end, low, high);
  }

  lemma Complement(a: real, b: real)
    requires a > 0.0
    ensures (a - b) / a == 1.0 - b / a
  {
    var x, y := (a - b) / a, b / a;
    assert x * a == a - b && y * a == b;
    assert (x + y) * a == x * a + y * a;
    ZeroFactor(x + y - 1.0, a);
  }

  lemma ZeroFactor(z: real, a: real)
    requires a > 0.0 && z * a == 0.0
    ensures z == 0.0
  {
  }

  // On non-negative values, one pass finds the largest drop over all ordered pairs of points.
  lemma {:induction false} DrawdownIsMaximal(v: seq<real>, n: nat)
    requires n <= |v| && forall k | 0 <= k < |v| :: v[k] >= 0.0
    ensures 0.0 <= PeakDrawdown(v, n) <= 100.0
    ensures forall i, j | 0 <= i <= j < n && v[i] > 0.0 :: Drop(v, i, j) <= PeakDrawdown(v, n)
    ensures PeakDrawdown(v, n) == 0.0 || exists i, j :: 0 <= i <= j < n && v[i] > 0.0 && Drop(v, i, j) == PeakDrawdown(v, n)
  {
    if n > 0 {
      DrawdownIsMaximal(v, n - 1);
      var p := PeakSpec(v, n);
      forall i, j | 0 <= i <= j < n && v[i] > 0.0
        ensures Drop(v, i, j) <= PeakDrawdown(v, n)
      {
        if j == n - 1 { DropGrows(v[i], v[p], v[j]); }
      }
      if v[p] > 0.0 {
        DropGrows(v[p], v[p], v[n - 1]);
        assert Drop(v, p, n - 1) == (Peak(v, n) - v[n - 1]) / Peak(v, n) * 100.0;
      }
    }
  }

  // A start below the peak falls further than the peak, in percent, exactly when the end is
  // below zero.
  lemma LowerStartFallsFurther(low: real, high: real, end: real)
    requires 0.0 < low < high
    ensures (low - end) / low * 100.0 > (high - end) / high * 100.0 <==> end < 0.0
  {
    if end >= 0.0 {
      DropGrows(low, high, end);
    } else {
      Complement(low, end);
      Complement(high, end);
      var x, y := -end / low, -end / high;
      assert x * low == -end && y * high == -end;
      assert y * high > y * low;
      assert (x - y) * low > 0.0;
    }
  }

  // The drop from the running peak is the largest drop that ends at j, if and only if the value
  // at j is not negative or every positive value so far is the peak.
  lemma PeakDropIsLargestIff(v: seq<real>, j: nat)
    requires j < |v| && Peak(v, j + 1) > 0.0
    ensures var peak := Peak(v, j + 1);
            (forall i | 0 <= i <= j && v[i] > 0.0 :: Drop(v, i, j) <= (peak - v[j]) / peak * 100.0)
            <==> v[j] >= 0.0 || forall i | 0 <= i <= j && v[i] > 0.0 :: v[i] == peak
  {
    var p := PeakSpec(v, j + 1);
    hide Peak;
    var peak := Peak(v, j + 1);
    forall i | 0 <= i <= j && v[i] > 0.0
      ensures Drop(v, i, j) <= (peak - v[j]) / peak * 100.0 <==> v[j] >= 0.0 || v[i] == peak
    {
      if v[i] < peak { LowerStartFallsFurther(v[i], peak, v[j]); }
    }
  }

  // The result exceeds 100 exactly when some value is negative after a positive one.
  lemma {:induction false} ExceedsHundredIff(v: seq<real>, n: nat)
    requires n <= |v|
    ensures PeakDrawdown(v, n) > 100.0 <==> exists i, j :: 0 <= i < j < n && v[i] > 0.0 && v[j] < 0.0
  {
    if n > 0 {
      ExceedsHundredIff(v, n - 1);
      var p := PeakSpec(v, n);
      hide Peak;
      if Peak(v, n) > 0.0 {
        FallsBelowZero(Peak(v, n), v[n - 1]);
      }
    }
  }

  lemma FallsBelowZero(peak: real, last: real)
    requires peak > 0.0
    ensures (peak - last) / peak * 100.0 > 100.0 <==> last < 0.0
  {
    Complement(peak, last);
    var x := last / peak;
    assert x * peak == last;
  }

  // The bound needs non-negative values: below zero a lower start can fall further, in percent.
  lemma NegativeValuesEscape()
    ensures PeakDrawdown([1.0, 2.0, -1.0], 3) == 150.0 && Drop([1.0, 2.0, -1.0], 0, 2) == 200.0
  {
  }
}
