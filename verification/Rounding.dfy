// Python's round() on exact reals: to the nearest integer, ties to the even one.
module Rounding {

  function Round(x: real): int {
    var f := x.Floor;
    if x - f as real < 0.5 then f
    else if x - f as real > 0.5 then f + 1
    else if f % 2 == 0 then f
    else f + 1
  }

  // The result is a nearest integer, and the even one of two.
  lemma RoundNearest(x: real)
    ensures -0.5 <= Round(x) as real - x <= 0.5
    ensures Round(x) as real - x == 0.5 || Round(x) as real - x == -0.5 ==> Round(x) % 2 == 0
  {
  }

  lemma RoundMonotone(x: real, y: real)
    requires x <= y
    ensures Round(x) <= Round(y)
  {
  }

  lemma RoundInt(n: int)
    ensures Round(n as real) == n
  {
  }

  // A step of more than one always reaches a later integer, ties included.
  lemma RoundStep(x: real, y: real)
    requires y > x + 1.0
    ensures Round(x) < Round(y)
  {
  }
}
