// Python's sorted(set(xs)): strictly increasing listings under a total order.
module Ordering {

  ghost predicate TotalOrder<T(!new)>(le: (T, T) -> bool) {
    && (forall x :: le(x, x))
    && (forall x, y :: le(x, y) || le(y, x))
    && (forall x, y :: le(x, y) && le(y, x) ==> x == y)
    && (forall x, y, z :: le(x, y) && le(y, z) ==> le(x, z))
  }

  predicate IntLe(a: int, b: int) { a <= b }

  predicate Increasing<T(==)>(le: (T, T) -> bool, xs: seq<T>) {
    forall i, j | 0 <= i < j < |xs| :: le(xs[i], xs[j]) && xs[i] != xs[j]
  }

  function Insert<T(==)>(le: (T, T) -> bool, x: T, xs: seq<T>): seq<T> {
    if xs == [] then [x]
    else if x == xs[0] then xs
    else if le(x, xs[0]) then [x] + xs
    else [xs[0]] + Insert(le, x, xs[1..])
  }

  function SortedDistinct<T(==)>(le: (T, T) -> bool, xs: seq<T>): seq<T> {
    if xs == [] then [] else Insert(le, xs[0], SortedDistinct(le, xs[1..]))
  }

  lemma {:induction false} InsertSpec<T(!new)>(le: (T, T) -> bool, x: T, xs: seq<T>)
    requires TotalOrder(le) && Increasing(le, xs)
    ensures Increasing(le, Insert(le, x, xs))
    ensures forall y :: y in Insert(le, x, xs) <==> y == x || y in xs
  {
    if xs != [] && x != xs[0] {
      if le(x, xs[0]) {
        forall j | 0 < j < |[x] + xs|
          ensures le(x, ([x] + xs)[j]) && x != ([x] + xs)[j]
        {
          assert ([x] + xs)[j] == xs[j - 1];
          assert le(xs[0], xs[j - 1]);
        }
      } else {
        InsertSpec(le, x, xs[1..]);
        var rest := Insert(le, x, xs[1..]);
        forall j | 0 < j < |[xs[0]] + rest|
          ensures le(xs[0], ([xs[0]] + rest)[j]) && xs[0] != ([xs[0]] + rest)[j]
        {
          assert ([xs[0]] + rest)[j] == rest[j - 1];
          assert rest[j - 1] in rest;
          if rest[j - 1] != x {
            var k :| 0 <= k < |xs[1..]| && xs[1..][k] == rest[j - 1];
            assert xs[k + 1] == rest[j - 1];
          }
        }
        assert xs == [xs[0]] + xs[1..];
      }
    }
  }

  lemma {:induction false} SortedDistinctSpec<T(!new)>(le: (T, T) -> bool, xs: seq<T>)
    requires TotalOrder(le)
    ensures Increasing(le, SortedDistinct(le, xs))
    ensures forall x :: x in SortedDistinct(le, xs) <==> x in xs
  {
    if xs != [] {
      SortedDistinctSpec(le, xs[1..]);
      InsertSpec(le, xs[0], SortedDistinct(le, xs[1..]));
      assert xs == [xs[0]] + xs[1..];
    }
  }

  lemma {:induction false} InsertLength<T(!new)>(le: (T, T) -> bool, x: T, xs: seq<T>)
    requires TotalOrder(le) && Increasing(le, xs)
    ensures |Insert(le, x, xs)| == |xs| + if x in xs then 0 else 1
  {
    if xs != [] && x != xs[0] {
      if le(x, xs[0]) {
        forall i | 0 < i < |xs|
          ensures x != xs[i]
        {
          assert le(xs[0], xs[i]) && xs[0] != xs[i];
        }
      } else {
        InsertLength(le, x, xs[1..]);
        assert xs == [xs[0]] + xs[1..];
      }
    }
  }

  lemma {:induction false} SortedDistinctLength<T(!new)>(le: (T, T) -> bool, xs: seq<T>)
    requires TotalOrder(le) && forall i, j | 0 <= i < j < |xs| :: xs[i] != xs[j]
    ensures |SortedDistinct(le, xs)| == |xs|
  {
    if xs != [] {
      SortedDistinctLength(le, xs[1..]);
      SortedDistinctSpec(le, xs[1..]);
      assert xs[0] !in xs[1..];
      InsertLength(le, xs[0], SortedDistinct(le, xs[1..]));
    }
  }

  // A strictly increasing sequence is determined by its elements.
  lemma {:induction false} IncreasingUnique<T(!new)>(le: (T, T) -> bool, a: seq<T>, b: seq<T>)
    requires TotalOrder(le) && Increasing(le, a) && Increasing(le, b)
    requires forall x :: x in a <==> x in b
    ensures a == b
  {
    if a == [] {
      assert forall i | 0 <= i < |b| :: b[i] in b;
    } else {
      assert a[0] in a;
      assert b != [];
      assert b[0] in b;
      var i :| 0 <= i < |b| && b[i] == a[0];
      var j :| 0 <= j < |a| && a[j] == b[0];
      assert le(b[0], b[i]) && le(a[0], a[j]);
      assert a[0] == b[0];
      forall x
        ensures x in a[1..] <==> x in b[1..]
      {
        if x in a[1..] {
          var k :| 0 <= k < |a[1..]| && a[1..][k] == x;
          assert a[k + 1] == x && x != a[0];
          assert x in b;
          var m :| 0 <= m < |b| && b[m] == x;
          assert b[1..][m - 1] == x;
        }
        if x in b[1..] {
          var k :| 0 <= k < |b[1..]| && b[1..][k] == x;
          assert b[k + 1] == x && x != b[0];
          assert x in a;
          var m :| 0 <= m < |a| && a[m] == x;
          assert a[1..][m - 1] == x;
        }
      }
      IncreasingUnique(le, a[1..], b[1..]);
      assert a == [a[0]] + a[1..];
      assert b == [b[0]] + b[1..];
    }
  }

  // ---------- sorted(xs), which keeps duplicates

  predicate Ascending<T>(le: (T, T) -> bool, xs: seq<T>) {
    forall i, j | 0 <= i < j < |xs| :: le(xs[i], xs[j])
  }

  function Place<T>(le: (T, T) -> bool, x: T, xs: seq<T>): seq<T> {
    if xs == [] || le(x, xs[0]) then [x] + xs else [xs[0]] + Place(le, x, xs[1..])
  }

  function Sorted<T>(le: (T, T) -> bool, xs: seq<T>): seq<T> {
    if xs == [] then [] else Place(le, xs[0], Sorted(le, xs[1..]))
  }

  lemma {:induction false} PlaceSpec<T(!new)>(le: (T, T) -> bool, x: T, xs: seq<T>)
    requires TotalOrder(le) && Ascending(le, xs)
    ensures Ascending(le, Place(le, x, xs))
    ensures multiset(Place(le, x, xs)) == multiset{x} + multiset(xs)
  {
    if xs == [] {
    } else if le(x, xs[0]) {
      forall j | 0 <= j < |xs|
        ensures le(x, xs[j])
      {
        assert j > 0 ==> le(xs[0], xs[j]);
      }
    } else {
      assert Ascending(le, xs[1..]);
      PlaceSpec(le, x, xs[1..]);
      var rest := Place(le, x, xs[1..]);
      assert xs == [xs[0]] + xs[1..];
      forall j | 0 <= j < |rest|
        ensures le(xs[0], rest[j])
      {
        assert rest[j] in multiset(rest);
        if rest[j] != x {
          assert rest[j] in multiset(xs[1..]);
          assert rest[j] in xs[1..];
        }
      }
    }
  }

  lemma {:induction false} SortedSpec<T(!new)>(le: (T, T) -> bool, xs: seq<T>)
    requires TotalOrder(le)
    ensures Ascending(le, Sorted(le, xs)) && multiset(Sorted(le, xs)) == multiset(xs)
  {
    if xs != [] {
      SortedSpec(le, xs[1..]);
      PlaceSpec(le, xs[0], Sorted(le, xs[1..]));
      assert xs == [xs[0]] + xs[1..];
    }
  }

  lemma SortedMembers<T(!new)>(le: (T, T) -> bool, xs: seq<T>)
    requires TotalOrder(le)
    ensures Ascending(le, Sorted(le, xs))
    ensures forall x :: x in Sorted(le, xs) <==> x in xs
  {
    SortedSpec(le, xs);
    forall x
      ensures x in Sorted(le, xs) <==> x in xs
    {
      assert x in Sorted(le, xs) <==> x in multiset(Sorted(le, xs));
      assert x in xs <==> x in multiset(xs);
    }
  }

  lemma WithoutOne<T>(b: seq<T>, i: nat)
    requires i < |b|
    ensures b == b[..i] + ([b[i]] + b[i + 1..])
    ensures multiset(b[..i] + b[i + 1..]) == multiset(b) - multiset{b[i]}
  {
    assert b == b[..i] + ([b[i]] + b[i + 1..]);
    assert multiset(b) == multiset(b[..i]) + (multiset{b[i]} + multiset(b[i + 1..]));
  }

  // In a permutation b of a, the place of a's first element, and what is left without it.
  lemma FirstInPermutation<T>(a: seq<T>, b: seq<T>) returns (i: nat)
    requires a != [] && multiset(a) == multiset(b)
    ensures i < |b| && b[i] == a[0] && b == b[..i] + ([b[i]] + b[i + 1..]) && a == [a[0]] + a[1..]
    ensures multiset(a[1..]) == multiset(b[..i] + b[i + 1..])
  {
    assert a[0] in multiset(b);
    i :| 0 <= i < |b| && b[i] == a[0];
    WithoutOne(b, i);
    WithoutOne(a, 0);
    assert a[..0] + a[1..] == a[1..] && a[..0] + ([a[0]] + a[1..]) == [a[0]] + a[1..];
  }

  lemma IntLeTotal()
    ensures TotalOrder(IntLe)
  {
  }

  lemma IntsIncrease(xs: seq<int>)
    requires Increasing(IntLe, xs)
    ensures forall i, j | 0 <= i < j < |xs| :: xs[i] < xs[j]
  {
  }

  // ---------- lists without repeats

  predicate NoRepeats<T(==)>(xs: seq<T>) { forall i, j | 0 <= i < j < |xs| :: xs[i] != xs[j] }

  lemma NoRepeatsFrom<T>(x: T, xs: seq<T>)
    ensures NoRepeats([x] + xs) <==> x !in xs && NoRepeats(xs)
  {
    var long := [x] + xs;
    assert forall i | 0 <= i < |xs| :: long[i + 1] == xs[i];
    if NoRepeats(long) {
      forall i, j | 0 <= i < j < |xs|
        ensures xs[i] != xs[j]
      {
        assert long[i + 1] != long[j + 1];
      }
      forall k | 0 <= k < |xs|
        ensures xs[k] != x
      {
        assert long[0] != long[k + 1];
      }
    }
  }

  lemma NoRepeatsUpTo<T>(xs: seq<T>, x: T)
    ensures x in xs + [x] && forall y | y in xs :: y in xs + [x]
    ensures NoRepeats(xs + [x]) <==> NoRepeats(xs) && x !in xs
  {
    var long := xs + [x];
    assert long[|xs|] == x && forall i | 0 <= i < |xs| :: long[i] == xs[i];
    if NoRepeats(long) {
      forall i | 0 <= i < |xs|
        ensures xs[i] != x
      {
        assert long[i] != long[|xs|];
      }
      forall i, j | 0 <= i < j < |xs|
        ensures xs[i] != xs[j]
      {
        assert long[i] != long[j];
      }
    }
  }

  lemma {:induction false} NoRepeatsCount<T>(xs: seq<T>)
    ensures NoRepeats(xs) <==> forall x | x in multiset(xs) :: multiset(xs)[x] == 1
  {
    if xs != [] {
      var init, last := xs[..|xs| - 1], xs[|xs| - 1];
      assert xs == init + [last];
      NoRepeatsCount(init);
      NoRepeatsUpTo(init, last);
      assert last in init <==> last in multiset(init);
      assert forall x :: multiset(xs)[x] == multiset(init)[x] + if x == last then 1 else 0;
      assert last in multiset(xs);
      assert forall x | x in multiset(init) :: x in multiset(xs);
    }
  }

  // Sorting a list without repeats is sorted(set(xs)).
  lemma SortedIncreases<T(!new)>(le: (T, T) -> bool, xs: seq<T>)
    requires TotalOrder(le) && NoRepeats(xs)
    ensures Increasing(le, Sorted(le, xs))
  {
    SortedSpec(le, xs);
    NoRepeatsCount(xs);
    NoRepeatsCount(Sorted(le, xs));
  }
}
