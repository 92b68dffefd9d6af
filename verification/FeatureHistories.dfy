// What the return histories, the volume score and the benchmark fields of a feature record are.
module FeatureHistories {
  import opened Common
  import opened Ordering
  import opened Features
  import opened FeatureMeaning

  // ---------- the return histories

  // Day e has a session, its first bar has a non-zero open, and x is its return.
  ghost predicate SessionReturn(cal: Calendar, f: Frame, e: int, x: real) {
    exists a: nat, c: nat ::
      SessionAt(cal, f, e, a, c) && a < c && f[a].open != 0.0 && (1.0 + x) * f[a].open == f[c - 1].close
  }

  // The returns up to day d, by day.
  ghost predicate AreReturns(cal: Calendar, f: Frame, d: int, rs: Returns) {
    && ByDay(rs)
    && forall e, x :: Gives(rs, e, x) <==> e <= d && SessionReturn(cal, f, e, x)
  }

  predicate Gives(rs: Returns, e: int, x: real) { (e, x) in rs }

  predicate ByDay(rs: Returns) { forall i, j | 0 <= i < j < |rs| :: rs[i].0 < rs[j].0 }

  lemma GivesFirst(rs: Returns, e: int, x: real)
    ensures forall f, z :: Gives([(e, x)] + rs, f, z) <==> (f == e && z == x) || Gives(rs, f, z)
  {
    forall f, z
      ensures Gives([(e, x)] + rs, f, z) <==> (f == e && z == x) || Gives(rs, f, z)
    {
      assert (f, z) in [(e, x)] + rs <==> (f, z) == (e, x) || (f, z) in rs;
    }
  }

  lemma GivesLater(rs: Returns, e: int)
    requires forall i | 0 <= i < |rs| :: e < rs[i].0
    ensures forall f, z | Gives(rs, f, z) :: e < f
  {
    forall f, z | Gives(rs, f, z)
      ensures e < f
    {
      var i :| 0 <= i < |rs| && rs[i] == (f, z);
    }
  }

  // All but the last one, which is taken for today's; a single one is kept.
  function Usable(rs: Returns): Returns { if |rs| <= 1 then rs else rs[..|rs| - 1] }

  function ReturnOn(cal: Calendar, st: Statistics, f: Frame, e: int): Option<real> {
    if Session(cal, f, e) == [] then None else Summarize(st, e, Session(cal, f, e)).returnPct
  }

  lemma ReturnOfSession(cal: Calendar, st: Statistics, f: Frame, e: int, x: real)
    requires ValidCalendar(cal) && InTimeOrder(f)
    ensures SessionReturn(cal, f, e, x) <==> ReturnOn(cal, st, f, e) == Some(x)
  {
    var a, c := SessionIsRange(cal, f, e);
    forall a': nat, c': nat | a' < c' && SessionAt(cal, f, e, a', c')
      ensures a == a' && c == c'
    {
      RangeIsUnique(cal, f, e, a', c', a, c);
    }
    hide Session, MaxHigh, MinLow, Volume, DollarVolume, SessionAt, Change;
    if a < c {
      assert f[a..c][0] == f[a] && f[a..c][c - a - 1] == f[c - 1];
      ChangeExactly(x, f[c - 1].close, f[a].open);
      assert ReturnOn(cal, st, f, e) == Change(f[c - 1].close, f[a].open);
    }
  }

  lemma CancelFactor(a: real, b: real, y: real)
    requires y != 0.0 && a * y == b * y
    ensures a == b
  {
    assert (a - b) * y == 0.0;
  }

  lemma ChangeExactly(r: real, x: real, y: real)
    ensures Change(x, y) == Some(r) <==> y != 0.0 && (1.0 + r) * y == x
  {
    if y != 0.0 {
      QuotientTimes(x, y);
      if (1.0 + r) * y == x {
        CancelFactor(1.0 + r, x / y, y);
      }
    }
  }

  function ReturnsOf(cal: Calendar, st: Statistics, f: Frame, days: seq<int>, d: int): Returns {
    ReturnsThrough(SummariesOf(cal, st, f, days), d)
  }

  lemma ReturnsFirst(cal: Calendar, st: Statistics, f: Frame, days: seq<int>, d: int)
    requires days != [] && Session(cal, f, days[0]) != []
    ensures ReturnsOf(cal, st, f, days, d)
            == (if days[0] <= d && ReturnOn(cal, st, f, days[0]).Some? then [(days[0], ReturnOn(cal, st, f, days[0]).value)] else [])
               + ReturnsOf(cal, st, f, days[1..], d)
  {
    ReturnsAppend([Summarize(st, days[0], Session(cal, f, days[0]))], SummariesOf(cal, st, f, days[1..]), d);
  }

  lemma {:induction false} ReturnsOfDays(cal: Calendar, st: Statistics, f: Frame, days: seq<int>, d: int)
    requires Increasing(IntLe, days) && forall e | e in days :: Session(cal, f, e) != []
    ensures var rs := ReturnsOf(cal, st, f, days, d);
            && ByDay(rs) && (forall i | 0 <= i < |rs| :: rs[i].0 in days)
            && forall e, x :: Gives(rs, e, x) <==> e in days && e <= d && ReturnOn(cal, st, f, e) == Some(x)
  {
    if days == [] {
      assert ReturnsOf(cal, st, f, days, d) == [];
    } else {
      hide Session, ReturnOn, ReturnsOf, Gives;
      var e0 := days[0];
      assert e0 in days && forall e | e in days[1..] :: e in days;
      ReturnsOfDays(cal, st, f, days[1..], d);
      IntsIncrease(days);
      ReturnsFirst(cal, st, f, days, d);
      var x0 := if e0 <= d then ReturnOn(cal, st, f, e0) else None;
      var rest := ReturnsOf(cal, st, f, days[1..], d);
      PrependReturn(e0, x0, rest, days[1..]);
      assert forall e :: e in days <==> e == e0 || e in days[1..];
      forall e, x
        ensures Gives(ReturnsOf(cal, st, f, days, d), e, x) <==> e in days && e <= d && ReturnOn(cal, st, f, e) == Some(x)
      {
        assert Gives(rest, e, x) <==> e in days[1..] && e <= d && ReturnOn(cal, st, f, e) == Some(x);
      }
    }
  }

  lemma PrependReturn(e0: int, x0: Option<real>, rest: Returns, days: seq<int>)
    requires ByDay(rest) && forall i | 0 <= i < |rest| :: rest[i].0 in days
    requires forall i | 0 <= i < |days| :: e0 < days[i]
    ensures var rs := (if x0.Some? then [(e0, x0.value)] else []) + rest;
            && ByDay(rs) && (forall i | 0 <= i < |rs| :: rs[i].0 == e0 || rs[i].0 in days)
            && forall e, x :: Gives(rs, e, x) <==> (e == e0 && x0 == Some(x)) || Gives(rest, e, x)
  {
    forall j | 0 <= j < |rest|
      ensures e0 < rest[j].0
    {
      var i :| 0 <= i < |days| && days[i] == rest[j].0;
    }
    if x0.Some? {
      GivesFirst(rest, e0, x0.value);
      var rs := [(e0, x0.value)] + rest;
      assert forall i | 0 <= i < |rest| :: rs[i + 1] == rest[i];
    } else {
      assert [] + rest == rest;
    }
    hide Gives;
  }

  lemma ReturnsAreReturns(cal: Calendar, st: Statistics, f: Frame, d: int)
    requires ValidCalendar(cal) && InTimeOrder(f)
    ensures AreReturns(cal, f, d, ReturnsThrough(Summaries(cal, st, f), d))
  {
    hide Days, Session, Summarize, SessionReturn;
    DaysSpec(cal, f);
    assert forall e, x | ReturnOn(cal, st, f, e) == Some(x) :: e in Days(cal, f);
    ReturnsOfDays(cal, st, f, Days(cal, f), d);
    assert ReturnsThrough(Summaries(cal, st, f), d) == ReturnsOf(cal, st, f, Days(cal, f), d);
    hide Gives;
    forall e, x
      ensures Gives(ReturnsThrough(Summaries(cal, st, f), d), e, x) <==> e <= d && SessionReturn(cal, f, e, x)
    {
      ReturnOfSession(cal, st, f, e, x);
    }
  }

  // The last n values of a history.
  function LastValues(u: Returns, n: nat): seq<real>
    requires n <= |u|
  {
    seq(n, i requires 0 <= i < n => u[|u| - n + i].1)
  }

  // One unit of wealth, compounded return by return.
  ghost predicate Compounds(xs: seq<real>, wealth: seq<real>) {
    |wealth| == |xs| + 1 && wealth[0] == 1.0 && forall i | 0 <= i < |xs| :: wealth[i + 1] == Times(wealth[i], 1.0 + xs[i])
  }

  function Times(a: real, b: real): real { a * b }

  ghost predicate IsGrowth(r: Option<real>, u: Returns, n: nat) {
    if |u| < n then r.None?
    else r.Some? && exists wealth :: Compounds(LastValues(u, n), wealth) && 1.0 + r.value == wealth[n]
  }

  ghost predicate IsVolatility(r: Option<real>, st: Statistics, u: Returns, n: nat) {
    r == if |u| < n then None else Some(st.std(LastValues(u, n)))
  }

  lemma {:induction false} GrowthCompounds(xs: seq<real>) returns (wealth: seq<real>)
    ensures Compounds(xs, wealth) && wealth[|xs|] == Growth(xs)
  {
    if xs == [] {
      wealth := [1.0];
    } else {
      var n := |xs| - 1;
      var before := GrowthCompounds(xs[..n]);
      assert xs == xs[..n] + [xs[n]];
      GrowthOfParts(xs[..n], [xs[n]]);
      var last := Times(before[n], 1.0 + xs[n]);
      hide Times, Growth;
      wealth := before + [last];
      forall i | 0 <= i < |xs|
        ensures wealth[i + 1] == Times(wealth[i], 1.0 + xs[i])
      {
        assert i < n ==> xs[..n][i] == xs[i] && wealth[i + 1] == before[i + 1];
      }
    }
  }

  lemma {:induction false} GrowthOfParts(xs: seq<real>, ys: seq<real>)
    ensures Growth(xs + ys) == Growth(xs) * Growth(ys)
    ensures Growth([]) == 1.0 && forall x :: Growth([x]) == 1.0 + x
  {
    if xs == [] {
      assert xs + ys == ys;
    } else {
      assert (xs + ys)[1..] == xs[1..] + ys;
      GrowthOfParts(xs[1..], ys);
    }
  }

  lemma CompoundsLength(xs: seq<real>, wealth: seq<real>)
    requires Compounds(xs, wealth)
    ensures |wealth| == |xs| + 1
  {
  }

  lemma RollingMeaning(st: Statistics, u: Returns, n: nat)
    requires n > 0
    ensures IsGrowth(Rolling(st, ValuesOf(u), n, ReturnWindow), u, n)
    ensures IsVolatility(Rolling(st, ValuesOf(u), n, VolatilityWindow), st, u, n)
  {
    hide Growth, Compounds;
    if |u| >= n {
      assert Tail(ValuesOf(u), n) == LastValues(u, n);
      hide Tail, ValuesOf, LastValues;
      var wealth := GrowthCompounds(LastValues(u, n));
      CompoundsLength(LastValues(u, n), wealth);
    }
  }

  ghost predicate HistoryFields(r: Feature, st: Statistics, u: Returns) {
    && IsGrowth(r.rollingReturn5, u, 5) && IsGrowth(r.rollingReturn20, u, 20)
    && IsVolatility(r.rollingVolatility5, st, u, 5) && IsVolatility(r.rollingVolatility20, st, u, 20)
  }

  // ---------- the volumes of the earlier sessions

  ghost predicate AreVolumes(cal: Calendar, f: Frame, d: int, days: seq<int>, vs: seq<real>) {
    && |vs| == |days| && Increasing(IntLe, days)
    && (forall e :: e in days <==> e < d && exists i :: 0 <= i < |f| && cal.day(f[i].ts) == e)
    && forall i | 0 <= i < |days| :: SessionVolume(cal, f, days[i], vs[i])
  }

  ghost predicate SessionVolume(cal: Calendar, f: Frame, e: int, v: real) {
    exists a: nat, c: nat :: SessionAt(cal, f, e, a, c) && v == Sum(Volumes(f[a..c]))
  }

  // How many deviations the last of the n last values lies from their mean.
  ghost predicate IsZScore(z: Option<real>, st: Statistics, vs: seq<real>, n: nat)
    requires n > 0
  {
    if |vs| < n || st.std(vs[|vs| - n..]) == 0.0 then z.None?
    else z.Some? && (vs[|vs| - 1] - z.value * st.std(vs[|vs| - n..])) * n as real == Sum(vs[|vs| - n..])
  }

  lemma ZScoreMeaning(st: Statistics, vs: seq<real>, n: nat)
    requires n > 0
    ensures IsZScore(Rolling(st, vs, n, ZScoreWindow), st, vs, n)
  {
    if |vs| >= n {
      var w := vs[|vs| - n..];
      assert Tail(vs, n) == w;
      var s := st.std(w);
      if s != 0.0 {
        QuotientTimes(w[n - 1] - Mean(w), s);
        QuotientTimes(Sum(w), n as real);
      }
    }
  }

  function PastVolumes(past: seq<Summary>): seq<real> { seq(|past|, i requires 0 <= i < |past| => past[i].volume) }

  lemma VolumesMeaning(cal: Calendar, st: Statistics, f: Frame, d: int)
    requires ValidCalendar(cal) && InTimeOrder(f)
    ensures AreVolumes(cal, f, d, Before(Days(cal, f), d), PastVolumes(SummariesOf(cal, st, f, Before(Days(cal, f), d))))
  {
    hide Days, Before, Session, Sum;
    var days := Before(Days(cal, f), d);
    var past := SummariesOf(cal, st, f, days);
    DaysSpec(cal, f);
    BeforeSpec(Days(cal, f), d);
    SummaryDays(cal, st, f, days);
    forall e
      ensures e in days <==> e < d && exists i :: 0 <= i < |f| && cal.day(f[i].ts) == e
    {
      DayHasBar(cal, f, e);
    }
    forall i | 0 <= i < |days|
      ensures SessionVolume(cal, f, days[i], past[i].volume)
    {
      SummaryAt(cal, st, f, days, i);
      var a, c := SessionIsRange(cal, f, days[i]);
      VolumesAreSums(f[a..c]);
    }
  }

  lemma DayHasBar(cal: Calendar, f: Frame, e: int)
    ensures Session(cal, f, e) != [] <==> exists i :: 0 <= i < |f| && cal.day(f[i].ts) == e
  {
    InSession(cal, f, e);
    if i :| 0 <= i < |f| && cal.day(f[i].ts) == e {
      assert DaysOf(cal, f)[i] == e;
    }
  }

  // ---------- the benchmark

  // The values of two histories on the days both have, by day.
  ghost predicate ArePairs(own: Returns, bench: Returns, days: seq<int>, ys: seq<real>, xs: seq<real>) {
    && |ys| == |xs| == |days| && Increasing(IntLe, days)
    && OnDays(own, days, ys) && OnDays(bench, days, xs) && HasCommon(own, bench, days)
  }

  ghost predicate OnDays(rs: Returns, days: seq<int>, values: seq<real>)
    requires |days| == |values|
  {
    forall i | 0 <= i < |days| :: Gives(rs, days[i], values[i])
  }

  ghost predicate HasCommon(own: Returns, bench: Returns, days: seq<int>) {
    forall e, y, x | Gives(own, e, y) && Gives(bench, e, x) :: e in days
  }

  function Products(ys: seq<real>, xs: seq<real>): seq<real>
    requires |ys| == |xs|
  {
    seq(|ys|, i requires 0 <= i < |ys| => Times(ys[i], xs[i]))
  }

  // n * (sum of squares) - (square of the sum): n * n times the variance.
  function Spread(ys: seq<real>, xs: seq<real>): real
    requires |ys| == |xs|
  {
    |ys| as real * Sum(Products(ys, xs)) - Sum(ys) * Sum(xs)
  }

  // The sample covariance over the population variance, when there is any variance.
  ghost predicate IsBeta(beta: Option<real>, ys: seq<real>, xs: seq<real>)
    requires |ys| == |xs|
  {
    var n := |ys| as real;
    if |ys| < 3 || Spread(xs, xs) == 0.0 then beta.None?
    else beta.Some? && beta.value * (n - 1.0) * Spread(xs, xs) == n * Spread(ys, xs)
  }

  function LastUpTo(u: Returns, n: nat): Returns { if |u| <= n then u else u[|u| - n..] }

  ghost predicate BenchmarkMeans(b: BenchmarkFields, st: Statistics, own20: Option<real>, u: Returns, v: Returns) {
    && IsGrowth(b.return5, v, 5) && IsGrowth(b.return20, v, 20) && IsVolatility(b.volatility20, st, v, 20)
    && (b.relative20.Some? <==> own20.Some? && b.return20.Some?)
    && (b.relative20.Some? ==> b.relative20.value + b.return20.value == own20.value)
    && AreCorrelated(b.correlation20, b.beta20, st, LastUpTo(u, 20), LastUpTo(v, 20))
  }

  // Correlation and beta are those of the values on common days, from three of them up.
  ghost predicate AreCorrelated(correlation: Option<real>, beta: Option<real>, st: Statistics, u: Returns, v: Returns) {
    exists days, ys, xs ::
      && ArePairs(u, v, days, ys, xs)
      && correlation == (if |days| < 3 then None else Some(st.correlation(ys, xs)))
      && IsBeta(beta, ys, xs)
  }

  lemma {:induction false} LookupMeaning(rs: Returns, e: int)
    ensures if Lookup(rs, e).Some? then Gives(rs, e, Lookup(rs, e).value) else forall x :: !Gives(rs, e, x)
  {
    if rs != [] {
      LookupMeaning(rs[1..], e);
      assert rs == [(rs[0].0, rs[0].1)] + rs[1..];
      GivesFirst(rs[1..], rs[0].0, rs[0].1);
      hide Gives;
    }
  }

  function Zip(ys: seq<real>, xs: seq<real>): seq<(real, real)>
    requires |ys| == |xs|
  {
    seq(|ys|, i requires 0 <= i < |ys| => (ys[i], xs[i]))
  }

  lemma OnDaysFirst(rs: Returns, days: seq<int>, values: seq<real>, e: int, x: real)
    requires |days| == |values| && OnDays(rs, days, values) && Gives(rs, e, x)
    ensures OnDays(rs, [e] + days, [x] + values)
  {
    hide Gives;
    var days', values' := [e] + days, [x] + values;
    forall i | 0 <= i < |days'|
      ensures Gives(rs, days'[i], values'[i])
    {
      if i > 0 { assert days'[i] == days[i - 1] && values'[i] == values[i - 1]; }
    }
  }

  lemma OnDaysWiden(rs: Returns, days: seq<int>, values: seq<real>, e: int, x: real)
    requires |days| == |values| && OnDays(rs, days, values)
    ensures OnDays([(e, x)] + rs, days, values) && Gives([(e, x)] + rs, e, x)
  {
    GivesFirst(rs, e, x);
    hide Gives;
  }

  lemma PrependDay(rs: Returns, days: seq<int>, values: seq<real>, e: int)
    requires |days| == |values| && OnDays(rs, days, values) && Increasing(IntLe, days)
    requires forall i | 0 <= i < |rs| :: e < rs[i].0
    ensures Increasing(IntLe, [e] + days)
  {
    GivesLater(rs, e);
    hide Gives;
    forall j | 0 <= j < |days|
      ensures e < days[j]
    {
      assert Gives(rs, days[j], values[j]);
    }
  }

  lemma PrependCommon(own: Returns, bench: Returns, e: int, y: real, x: Option<real>, days: seq<int>)
    requires HasCommon(own, bench, days)
    requires x.None? ==> forall z :: !Gives(bench, e, z)
    ensures HasCommon([(e, y)] + own, bench, if x.Some? then [e] + days else days)
  {
    GivesFirst(own, e, y);
    hide Gives;
    assert forall f | f in days :: f in [e] + days;
    assert ([e] + days)[0] == e;
  }

  lemma PrependPair(own: Returns, bench: Returns, e: int, y: real, x: Option<real>,
                    days: seq<int>, ys: seq<real>, xs: seq<real>)
    requires ArePairs(own, bench, days, ys, xs) && forall i | 0 <= i < |own| :: e < own[i].0
    requires if x.Some? then Gives(bench, e, x.value) else forall z :: !Gives(bench, e, z)
    ensures var all := [(e, y)] + own;
            if x.None? then ArePairs(all, bench, days, ys, xs) else ArePairs(all, bench, [e] + days, [y] + ys, [x.value] + xs)
  {
    hide Gives, OnDays, HasCommon, Increasing;
    OnDaysWiden(own, days, ys, e, y);
    PrependCommon(own, bench, e, y, x, days);
    if x.Some? {
      OnDaysFirst([(e, y)] + own, days, ys, e, y);
      OnDaysFirst(bench, days, xs, e, x.value);
      PrependDay(own, days, ys, e);
    }
  }

  lemma ByDayFirst(rs: Returns)
    requires ByDay(rs) && rs != []
    ensures ByDay(rs[1..]) && forall i | 0 <= i < |rs[1..]| :: rs[0].0 < rs[1..][i].0
  {
  }

  lemma ZipFirst(y: real, ys: seq<real>, x: real, xs: seq<real>)
    requires |ys| == |xs|
    ensures Zip([y] + ys, [x] + xs) == [(y, x)] + Zip(ys, xs)
  {
  }

  lemma {:induction false} AlignedMeaning(own: Returns, bench: Returns) returns (days: seq<int>, ys: seq<real>, xs: seq<real>)
    requires ByDay(own) && ByDay(bench)
    ensures |days| == |ys| == |xs| && ArePairs(own, bench, days, ys, xs) && Aligned(own, bench) == Zip(ys, xs)
    decreases |own|
  {
    if own == [] {
      days, ys, xs := [], [], [];
    } else {
      hide ArePairs, ByDay, Lookup, Zip, Gives;
      ByDayFirst(own);
      days, ys, xs := AlignedMeaning(own[1..], bench);
      var (e, y) := own[0];
      var x := Lookup(bench, e);
      LookupMeaning(bench, e);
      assert own == [(e, y)] + own[1..];
      PrependPair(own[1..], bench, e, y, x, days, ys, xs);
      if x.Some? {
        ZipFirst(y, ys, x.value, xs);
        days, ys, xs := [e] + days, [y] + ys, [x.value] + xs;
      } else {
        assert [] + Zip(ys, xs) == Zip(ys, xs);
      }
    }
  }

  // ---------- correlation and beta

  lemma FirstPair(ys: seq<real>, xs: seq<real>, my: real, mx: real)
    requires |ys| == |xs| > 0
    ensures CrossDeviations(Zip(ys, xs), my, mx)
            == Times(ys[0] - my, xs[0] - mx) + CrossDeviations(Zip(ys[1..], xs[1..]), my, mx)
    ensures Sum(Products(ys, xs)) == Times(ys[0], xs[0]) + Sum(Products(ys[1..], xs[1..]))
  {
    assert Zip(ys, xs)[1..] == Zip(ys[1..], xs[1..]);
    assert Products(ys, xs)[1..] == Products(ys[1..], xs[1..]) by {
      hide Times;
    }
  }

  // The sum of products p, with both factors taken relative to my and mx.
  function Centred(p: real, sy: real, sx: real, n: real, my: real, mx: real): real { p - mx * sy - my * sx + n * my * mx }

  // The products of the deviations add up to Spread / n.
  lemma {:induction false} DeviationsAddUp(ys: seq<real>, xs: seq<real>, my: real, mx: real)
    requires |ys| == |xs|
    ensures CrossDeviations(Zip(ys, xs), my, mx) == Centred(Sum(Products(ys, xs)), Sum(ys), Sum(xs), |ys| as real, my, mx)
  {
    hide Centred, Times;
    if ys == [] {
      assert CrossDeviations(Zip(ys, xs), my, mx) == 0.0 && Sum(Products(ys, xs)) == 0.0 && |ys| as real == 0.0;
      assert Centred(0.0, 0.0, 0.0, 0.0, my, mx) == 0.0 by { NothingCentred(my, mx); }
    } else {
      DeviationsAddUp(ys[1..], xs[1..], my, mx);
      FirstPair(ys, xs, my, mx);
      var rest, p := CrossDeviations(Zip(ys[1..], xs[1..]), my, mx), Sum(Products(ys[1..], xs[1..]));
      assert Sum(ys) == ys[0] + Sum(ys[1..]) && Sum(xs) == xs[0] + Sum(xs[1..]);
      hide CrossDeviations, Sum, Products, Zip;
      OneDeviation(ys[0], xs[0], my, mx, Sum(ys[1..]), Sum(ys), Sum(xs[1..]), Sum(xs), |ys[1..]| as real, |ys| as real, rest, p,
                   CrossDeviations(Zip(ys, xs), my, mx), Sum(Products(ys, xs)));
    }
  }

  lemma NothingCentred(my: real, mx: real)
    ensures Centred(0.0, 0.0, 0.0, 0.0, my, mx) == 0.0
  {
  }

  lemma OneDeviation(y: real, x: real, my: real, mx: real, sy: real, sy': real, sx: real, sx': real, n: real, n': real,
                     rest: real, p: real, all: real, p': real)
    requires rest == Centred(p, sy, sx, n, my, mx)
    requires sy' == y + sy && sx' == x + sx && n' == n + 1.0 && p' == Times(y, x) + p && all == Times(y - my, x - mx) + rest
    ensures all == Centred(p', sy', sx', n', my, mx)
  {
    assert (y - my) * (x - mx) == y * x - mx * y - my * x + my * mx;
    assert mx * sy' == mx * y + mx * sy && my * sx' == my * x + my * sx;
    assert n' * my * mx == n * my * mx + my * mx;
  }

  lemma MeanTimes(xs: seq<real>)
    requires xs != []
    ensures Mean(xs) * |xs| as real == Sum(xs)
  {
  }

  lemma SpreadIsDeviation(ys: seq<real>, xs: seq<real>)
    requires |ys| == |xs| > 0
    ensures |ys| as real * CrossDeviations(Zip(ys, xs), Mean(ys), Mean(xs)) == Spread(ys, xs)
  {
    hide Centred, CrossDeviations, Sum, Products, Zip, Mean;
    var n := |ys| as real;
    MeanTimes(ys);
    MeanTimes(xs);
    DeviationsAddUp(ys, xs, Mean(ys), Mean(xs));
    var p, cd := Sum(Products(ys, xs)), CrossDeviations(Zip(ys, xs), Mean(ys), Mean(xs));
    CentredSum(n, Mean(ys), Mean(xs), Sum(ys), Sum(xs), p, cd);
  }

  lemma CentredSum(n: real, my: real, mx: real, sy: real, sx: real, p: real, cd: real)
    requires my * n == sy && mx * n == sx && cd == Centred(p, sy, sx, n, my, mx)
    ensures n * cd == n * p - sy * sx
  {
    assert n * my * mx == sy * mx;
    assert cd == p - my * sx;
    assert n * (my * sx) == sy * sx;
  }

  // Covariance over variance, from the deviations.
  function BetaOf(ys: seq<real>, xs: seq<real>): Option<real>
    requires |ys| == |xs| > 1
  {
    var varX := CrossDeviations(Zip(xs, xs), Mean(xs), Mean(xs)) / |xs| as real;
    var cov := CrossDeviations(Zip(ys, xs), Mean(ys), Mean(xs)) / (|xs| - 1) as real;
    if varX == 0.0 then None else Some(cov / varX)
  }

  lemma BetaOfPairs(st: Statistics, u: Returns, v: Returns, ys: seq<real>, xs: seq<real>)
    requires |ys| == |xs| >= 3 && |u| >= 3 && |v| >= 3 && Aligned(u, v) == Zip(ys, xs)
    ensures CorrelationBeta(st, u, v) == (Some(st.correlation(ys, xs)), BetaOf(ys, xs))
  {
    hide Aligned, Mean, CrossDeviations;
    var pairs := Aligned(u, v);
    assert ys == seq(|pairs|, i requires 0 <= i < |pairs| => pairs[i].0);
    assert xs == seq(|pairs|, i requires 0 <= i < |pairs| => pairs[i].1);
    assert Zip(xs, xs) == seq(|pairs|, i requires 0 <= i < |pairs| => (pairs[i].1, pairs[i].1));
  }

  lemma BetaIsBeta(ys: seq<real>, xs: seq<real>)
    requires |ys| == |xs| >= 3
    ensures IsBeta(BetaOf(ys, xs), ys, xs)
  {
    SpreadIsDeviation(xs, xs);
    SpreadIsDeviation(ys, xs);
    hide Spread, Mean, CrossDeviations;
    assert (|xs| - 1) as real == |xs| as real - 1.0;
    BetaQuotient(|ys| as real, CrossDeviations(Zip(xs, xs), Mean(xs), Mean(xs)), CrossDeviations(Zip(ys, xs), Mean(ys), Mean(xs)));
  }

  lemma BetaMeaning(st: Statistics, u: Returns, v: Returns)
    requires ByDay(u) && ByDay(v)
    ensures AreCorrelated(CorrelationBeta(st, u, v).0, CorrelationBeta(st, u, v).1, st, u, v)
  {
    var days, ys, xs := AlignedMeaning(u, v);
    PairsAreFew(u, v, days, ys, xs);
    if |days| >= 3 {
      BetaOfPairs(st, u, v, ys, xs);
      BetaIsBeta(ys, xs);
    }
    assert IsBeta(CorrelationBeta(st, u, v).1, ys, xs);
  }

  lemma BetaQuotient(n: real, dx: real, dyx: real)
    requires n > 1.0
    ensures dx / n == 0.0 <==> n * dx == 0.0
    ensures dx != 0.0 ==> dyx / (n - 1.0) / (dx / n) * (n - 1.0) * (n * dx) == n * (n * dyx)
  {
    if dx != 0.0 {
      var beta := dyx / (n - 1.0) / (dx / n);
      QuotientTimes(dx, n);
      QuotientTimes(dyx, n - 1.0);
      QuotientTimes(dyx / (n - 1.0), dx / n);
      assert beta * (dx / n) == dyx / (n - 1.0);
      assert beta * (dx / n) * (n - 1.0) == dyx;
    }
  }

  // No more pairs than returns on either side.
  lemma PairsAreFew(u: Returns, v: Returns, days: seq<int>, ys: seq<real>, xs: seq<real>)
    requires ByDay(u) && ByDay(v) && ArePairs(u, v, days, ys, xs)
    ensures |days| <= |u| && |days| <= |v|
  {
    IntsIncrease(days);
    forall i | 0 <= i < |days|
      ensures HasDay(u, days[i]) && HasDay(v, days[i])
    {
      var k :| 0 <= k < |u| && u[k] == (days[i], ys[i]);
      var m :| 0 <= m < |v| && v[m] == (days[i], xs[i]);
      assert u[k].0 == days[i] && v[m].0 == days[i];
    }
    DaysWithin(days, u);
    DaysWithin(days, v);
  }

  ghost predicate HasDay(u: Returns, e: int) { exists k :: 0 <= k < |u| && u[k].0 == e }

  lemma {:induction false} DaysWithin(days: seq<int>, u: Returns)
    requires ByDay(u) && forall i, j | 0 <= i < j < |days| :: days[i] < days[j]
    requires forall i | 0 <= i < |days| :: HasDay(u, days[i])
    ensures |days| <= |u|
    decreases |days|
  {
    if days != [] {
      var n := |days| - 1;
      var k :| 0 <= k < |u| && u[k].0 == days[n];
      forall i | 0 <= i < n
        ensures HasDay(u[..k], days[..n][i])
      {
        var m :| 0 <= m < |u| && u[m].0 == days[i];
        assert days[i] < days[n] && m < k;
        assert u[..k][m].0 == days[..n][i];
      }
      DaysWithin(days[..n], u[..k]);
    }
  }
}
