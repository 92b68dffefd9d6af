// Option and Result: the source's `None` and its raised exceptions as values.
module Common {

  datatype Option<+T> = None | Some(value: T)

  datatype Result<+T, +E> = Ok(value: T) | Err(error: E)

  function Max(a: int, b: int): int { if a >= b then a else b }

  function Min(a: int, b: int): int { if a <= b then a else b }

  // Python's max/min of two floats.
  function MaxR(a: real, b: real): real { if a >= b then a else b }

  function MinR(a: real, b: real): real { if a <= b then a else b }

  function AbsR(a: real): real { if a >= 0.0 then a else -a }

  // math.ceil(a / b) for a positive divisor, in exact arithmetic.
  function CeilDiv(a: int, b: int): int
    requires b > 0
  {
    (a + b - 1) / b
  }

  // What makes CeilDiv a ceiling: it is the least k with k * b >= a.
  lemma CeilDivLeast(a: int, b: int, k: int)
    requires b > 0
    ensures CeilDiv(a, b) <= k <==> a <= k * b
  {
    var q := CeilDiv(a, b);
    var r := (a + b - 1) % b;
    assert a + b - 1 == q * b + r;
    if q <= k {
      assert q * b <= k * b;
    } else {
      assert (k + 1) * b <= q * b;
    }
  }

  // [x for x in xss if x]
  function NonEmpty<T(==)>(xss: seq<seq<T>>): (r: seq<seq<T>>)
    ensures forall i | 0 <= i < |r| :: r[i] != []
  {
    if xss == [] then []
    else NonEmpty(xss[..|xss| - 1]) + if xss[|xss| - 1] != [] then [xss[|xss| - 1]] else []
  }

  lemma {:induction false} NonEmptyParts<T>(xss: seq<seq<T>>, more: seq<seq<T>>)
    ensures NonEmpty(xss + more) == NonEmpty(xss) + NonEmpty(more)
    ensures forall xs: seq<T> :: NonEmpty([xs]) == if xs == [] then [] else [xs]
  {
    if more == [] {
      assert xss + more == xss;
    } else {
      var n := |more| - 1;
      assert (xss + more)[..|xss + more| - 1] == xss + more[..n];
      NonEmptyParts(xss, more[..n]);
    }
    forall xs: seq<T>
      ensures NonEmpty([xs]) == if xs == [] then [] else [xs]
    {
      assert [xs][..0] == [];
    }
  }

  // How many of the rows lie in a half-open range.
  function CountIn(rows: seq<int>, from: int, to: int): nat {
    if rows == [] then 0 else CountIn(rows[1..], from, to) + if from <= rows[0] < to then 1 else 0
  }

  lemma {:induction false} CountInParts(rows: seq<int>, more: seq<int>, from: int, to: int)
    ensures CountIn(rows + more, from, to) == CountIn(rows, from, to) + CountIn(more, from, to)
    ensures CountIn([], from, to) == 0 && forall x :: CountIn([x], from, to) == if from <= x < to then 1 else 0
  {
    if rows == [] {
      assert rows + more == more;
    } else {
      assert (rows + more)[1..] == rows[1..] + more;
      CountInParts(rows[1..], more, from, to);
    }
  }

  // ---------- order facts about reals

  lemma ScaleLe(a: real, b: real, c: real)
    requires a <= b && c >= 0.0
    ensures a * c <= b * c
  {
  }

  lemma DivideLe(a: real, b: real, d: real)
    requires d > 0.0 && a <= b
    ensures a / d <= b / d
  {
  }

  lemma DivideAnti(a: real, d: real, e: real)
    requires a >= 0.0 && 0.0 < d <= e
    ensures 0.0 <= a / e <= a / d
  {
  }
}
