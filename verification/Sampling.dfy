// The two down-samplers: DatasetArtifactReader.downsample (datasets/reader.py) and
// downsample_equity_curve (engine/aggregates.py).
module Sampling {
  import opened Common
  import opened Rounding

  // ---------- evenly spaced rows

  function EvenPosition(index: nat, n: nat, maxRows: nat): real
    requires maxRows > 1
  {
    (index * (n - 1)) as real / (maxRows - 1) as real
  }

  function EvenIndices(n: nat, maxRows: nat): (r: seq<int>)
    requires maxRows > 1
    ensures |r| == maxRows
  {
    seq(maxRows, i requires 0 <= i < maxRows => Round(EvenPosition(i, n, maxRows)))
  }

  // The row positions DatasetArtifactReader.downsample keeps; None models its ValueError.
  function ReaderIndices(n: nat, maxRows: int): Option<seq<int>> {
    if maxRows < 1 then None
    else if n <= maxRows then Some(seq(n, i => i))
    else if maxRows == 1 then Some([0])
    else if maxRows == 2 then Some([0, n - 1])
    else Some(EvenIndices(n, maxRows))
  }

  lemma EvenStep(i: nat, n: nat, maxRows: nat)
    requires 2 < maxRows < n
    ensures EvenPosition(i + 1, n, maxRows) > EvenPosition(i, n, maxRows) + 1.0
  {
    var d := (maxRows - 1) as real;
    assert ((i + 1) * (n - 1)) as real == (i * (n - 1)) as real + (n - 1) as real;
    Quotients((i * (n - 1)) as real, (n - 1) as real, d);
  }

  lemma Quotients(a: real, b: real, d: real)
    requires d > 0.0 && b > d
    ensures (a + b) / d > a / d + 1.0
  {
    assert (a + b) / d == a / d + b / d;
    assert b / d > 1.0;
  }

  lemma {:induction false} EvenIncreasing(n: nat, maxRows: nat, i: nat, j: nat)
    requires 2 < maxRows < n && i < j < maxRows
    ensures EvenIndices(n, maxRows)[i] < EvenIndices(n, maxRows)[j]
    decreases j
  {
    EvenStep(j - 1, n, maxRows);
    RoundStep(EvenPosition(j - 1, n, maxRows), EvenPosition(j, n, maxRows));
    if i < j - 1 {
      EvenIncreasing(n, maxRows, i, j - 1);
    }
  }

  // Position i of m lies nearest to the i-th of m evenly spaced points from 0 to n - 1, on the even
  // side of a tie.
  predicate EvenlySpaced(position: int, i: nat, n: nat, m: nat) {
    var off := 2 * (position * (m - 1) - i * (n - 1));
    -(m - 1) <= off <= m - 1 && (off == m - 1 || off == -(m - 1) ==> position % 2 == 0)
  }

  lemma EvenIsSpaced(i: nat, n: nat, m: nat)
    requires m > 1
    ensures EvenlySpaced(Round(EvenPosition(i, n, m)), i, n, m)
  {
    var x := EvenPosition(i, n, m);
    RoundNearest(x);
    TimesDivisor((i * (n - 1)) as real, (m - 1) as real);
    hide Round, EvenPosition;
    Spaced(Round(x), x, i * (n - 1), m - 1);
  }

  lemma TimesDivisor(a: real, d: real)
    requires d > 0.0
    ensures a / d * d == a
  {
  }

  lemma Spaced(r: int, x: real, p: int, d: int)
    requires d > 0 && x * d as real == p as real && -0.5 <= r as real - x <= 0.5
    requires r as real - x == 0.5 || r as real - x == -0.5 ==> r % 2 == 0
    ensures var off := 2 * (r * d - p); -d <= off <= d && (off == d || off == -d ==> r % 2 == 0)
  {
    var rd, z := r * d, (r as real - x) * d as real;
    ProductAsReal(r, d);
    assert z == rd as real - p as real;
    Scale(r as real - x, d as real, z);
    Doubled(rd, p, d, z);
  }

  lemma Doubled(rd: int, p: int, d: int, z: real)
    requires z == rd as real - p as real && -(d as real) <= 2.0 * z <= d as real
    ensures var off := 2 * (rd - p); -d <= off <= d && (off == d ==> 2.0 * z == d as real) && (off == -d ==> 2.0 * z == -(d as real))
  {
    assert (2 * (rd - p)) as real == 2.0 * z;
  }

  lemma ProductAsReal(r: int, d: int)
    ensures r as real * d as real == (r * d) as real
  {
  }

  lemma Scale(y: real, d: real, z: real)
    requires -0.5 <= y <= 0.5 && d > 0.0 && z == y * d
    ensures -d <= 2.0 * z <= d && (2.0 * z == d ==> y == 0.5) && (2.0 * z == -d ==> y == -0.5)
  {
    assert d - 2.0 * z == (1.0 - 2.0 * y) * d && d + 2.0 * z == (1.0 + 2.0 * y) * d;
  }

  // For every request the rows kept are distinct, in order, within the data, evenly spaced, and as
  // many as asked for; from two rows up both ends are kept.
  lemma ReaderSamplesFaithfully(n: nat, maxRows: int)
    requires maxRows >= 1
    ensures ReaderIndices(n, maxRows).Some?
    ensures var ix := ReaderIndices(n, maxRows).value;
            && |ix| == Min(n, maxRows)
            && (forall i, j | 0 <= i < j < |ix| :: ix[i] < ix[j])
            && (forall i | 0 <= i < |ix| :: 0 <= ix[i] < n)
            && (n > 0 ==> ix[0] == 0)
            && (n > 0 && maxRows > 1 ==> ix[|ix| - 1] == n - 1)
            && (n > maxRows > 1 ==> forall i | 0 <= i < |ix| :: EvenlySpaced(ix[i], i, n, maxRows))
  {
    if n > maxRows > 1 {
      forall i: nat | i < maxRows
        ensures EvenlySpaced(ReaderIndices(n, maxRows).value[i], i, n, maxRows)
      {
        if maxRows > 2 { EvenIsSpaced(i, n, maxRows); }
      }
    }
    if n > maxRows >= 3 {
      var ix := EvenIndices(n, maxRows);
      RoundInt(0);
      assert EvenPosition(0, n, maxRows) == 0.0;
      RoundInt(n - 1);
      LastPosition(n, maxRows);
      forall i, j | 0 <= i < j < |ix|
        ensures ix[i] < ix[j]
      {
        EvenIncreasing(n, maxRows, i, j);
      }
      assert forall i | 0 < i < |ix| :: ix[0] < ix[i];
      assert forall i | 0 <= i < |ix| - 1 :: ix[i] < ix[|ix| - 1];
    }
  }

  lemma LastPosition(n: nat, maxRows: nat)
    requires 2 < maxRows && n > 0
    ensures EvenPosition(maxRows - 1, n, maxRows) == (n - 1) as real
  {
  }

  // ---------- strided curve points

  datatype SampleError = ZeroDivision

  // Points 0, stride, 2 * stride, ... before the last, then the last.
  function StridedIndices(n: nat, stride: nat): (r: seq<nat>)
    requires n > 2 && stride > 0
  {
    seq((n - 2) / stride + 1, i requires 0 <= i => i * stride) + [n - 1]
  }

  function Pick<T>(curve: seq<T>, ix: seq<nat>): (r: seq<T>)
    requires forall i | 0 <= i < |ix| :: ix[i] < |curve|
    ensures |r| == |ix|
  {
    seq(|ix|, i requires 0 <= i < |ix| => curve[ix[i]])
  }

  function Stride(n: nat, maxPoints: int): nat
    requires maxPoints > 2
  {
    Max(1, CeilDiv(n - 2, maxPoints - 2))
  }

  // Every multiple of the stride before the last point, and that point. The stride is the least at
  // which the points inside fit into maxPoints - 2 steps.
  ghost predicate EvenSample(ix: seq<nat>, n: nat, maxPoints: int) {
    && |ix| > 1 && ix[|ix| - 1] == n - 1
    && exists stride: nat :: LeastStride(stride, n, maxPoints) && Multiples(ix, stride, n)
  }

  predicate Multiples(ix: seq<nat>, stride: nat, n: nat)
    requires |ix| > 1
  {
    (forall i | 0 <= i < |ix| - 1 :: ix[i] == i * stride) && (|ix| - 2) * stride < n - 1 <= (|ix| - 1) * stride
  }

  predicate LeastStride(stride: nat, n: nat, maxPoints: int) {
    stride > 0 && (stride - 1) * (maxPoints - 2) < n - 2 <= stride * (maxPoints - 2)
  }

  lemma StrideIsLeast(n: nat, maxPoints: int)
    requires n > maxPoints > 2
    ensures LeastStride(Stride(n, maxPoints), n, maxPoints)
  {
    var stride := Stride(n, maxPoints);
    CeilDivLeast(n - 2, maxPoints - 2, 0);
    CeilDivLeast(n - 2, maxPoints - 2, stride);
    CeilDivLeast(n - 2, maxPoints - 2, stride - 1);
  }

  // downsample_equity_curve. It divides by zero for two points of a longer curve; from three
  // points up it keeps an ordered subsequence of at most maxPoints points with both ends.
  method DownsampleEquityCurve<T>(curve: seq<T>, maxPoints: int) returns (r: Result<seq<T>, SampleError>)
    ensures r.Err? <==> maxPoints == 2 && |curve| > 2
    ensures |curve| <= maxPoints ==> r == Ok(curve)
    ensures maxPoints < 2 && |curve| > maxPoints ==> r == Ok(if curve == [] then [] else [curve[0]])
    ensures maxPoints > 2 && |curve| > maxPoints ==>
              var ix := StridedIndices(|curve|, Stride(|curve|, maxPoints));
              && (forall i | 0 <= i < |ix| :: ix[i] < |curve|) && (forall i, j | 0 <= i < j < |ix| :: ix[i] < ix[j])
              && ix[0] == 0 && ix[|ix| - 1] == |curve| - 1
              && |ix| <= maxPoints && r == Ok(Pick(curve, ix)) && EvenSample(ix, |curve|, maxPoints)
  {
    if |curve| <= maxPoints {
      return Ok(curve);
    }
    if maxPoints < 2 {
      assert curve != [] ==> curve[..1] == [curve[0]];
      return Ok(if curve == [] then [] else curve[..1]);
    }
    if maxPoints == 2 {
      return Err(ZeroDivision);
    }
    StridedSpec(|curve|, maxPoints);
    var sampled := TakeStrided(curve, Stride(|curve|, maxPoints));
    r := Ok(sampled);
  }

  // The sampling loop.
  method TakeStrided<T>(curve: seq<T>, stride: nat) returns (sampled: seq<T>)
    requires |curve| > 2 && stride > 0
    ensures forall i | 0 <= i < |StridedIndices(|curve|, stride)| :: StridedIndices(|curve|, stride)[i] < |curve|
    ensures sampled == Pick(curve, StridedIndices(|curve|, stride))
  {
    ghost var ix := StridedIndices(|curve|, stride);
    StridedOrdered(|curve|, stride);
    sampled := [curve[0]];
    var index := stride;
    while index < |curve| - 1
      invariant 0 < |sampled| < |ix|
      invariant index == |sampled| * stride
      invariant forall j | 0 <= j < |sampled| :: sampled[j] == curve[ix[j]]
    {
      IndexBelow(|curve|, stride, |sampled|);
      assert (|sampled| + 1) * stride == |sampled| * stride + stride;
      sampled := sampled + [curve[index]];
      index := index + stride;
    }
    IndexBelow(|curve|, stride, |sampled|);
    sampled := sampled + [curve[|curve| - 1]];
    assert sampled == Pick(curve, ix);
  }

  // k * stride is an inner sample position exactly when k is at most (n - 2) / stride.
  lemma IndexBelow(n: nat, stride: nat, k: nat)
    requires n > 2 && stride > 0
    ensures k * stride < n - 1 <==> k <= (n - 2) / stride
  {
    var q := (n - 2) / stride;
    assert n - 2 == q * stride + (n - 2) % stride;
    if k <= q {
      assert k * stride <= q * stride;
    } else {
      assert (q + 1) * stride <= k * stride;
    }
  }

  lemma StridedOrdered(n: nat, stride: nat)
    requires n > 2 && stride > 0
    ensures var ix := StridedIndices(n, stride);
            && (forall i | 0 <= i < |ix| :: ix[i] < n) && (forall i, j | 0 <= i < j < |ix| :: ix[i] < ix[j])
            && ix[0] == 0 && ix[|ix| - 1] == n - 1
            && (forall i | 0 <= i < |ix| - 1 :: ix[i] == i * stride) && (|ix| - 1) * stride >= n - 1
  {
    var ix := StridedIndices(n, stride);
    IndexBelow(n, stride, |ix| - 1);
    forall i | 0 <= i < |ix| - 1
      ensures ix[i] == i * stride < n - 1
    {
      IndexBelow(n, stride, i);
    }
    forall i, j | 0 <= i < j < |ix| - 1
      ensures ix[i] < ix[j]
    {
      Scaled(i, j, stride);
    }
  }

  // The stride is large enough to fit the inner samples.
  lemma StridedCount(n: nat, maxPoints: int)
    requires n > maxPoints > 2
    ensures (n - 2) / Stride(n, maxPoints) <= maxPoints - 2
  {
    var stride := Stride(n, maxPoints);
    CeilDivLeast(n - 2, maxPoints - 2, stride);
    var q := (n - 2) / stride;
    IndexBelow(n, stride, q);
    IndexBelow(n, stride, maxPoints - 1);
    assert (maxPoints - 1) * stride == (maxPoints - 2) * stride + stride;
  }

  lemma StridedSpec(n: nat, maxPoints: int)
    requires n > maxPoints > 2
    ensures var ix := StridedIndices(n, Stride(n, maxPoints));
            && (forall i | 0 <= i < |ix| :: ix[i] < n) && (forall i, j | 0 <= i < j < |ix| :: ix[i] < ix[j])
            && ix[0] == 0 && ix[|ix| - 1] == n - 1 && |ix| <= maxPoints && EvenSample(ix, n, maxPoints)
  {
    StridedOrdered(n, Stride(n, maxPoints));
    StridedCount(n, maxPoints);
    StrideIsLeast(n, maxPoints);
  }

  lemma Scaled(i: nat, j: nat, stride: nat)
    requires i < j && stride > 0
    ensures i * stride < j * stride
  {
  }
}
