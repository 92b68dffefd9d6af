// intraday/pipeline.py: the position sizing rule and the profit of a batch of sized rows, over
// exact reals.
module Sizing {
  import opened Common

  // IntradaySizingConfig; the model's field constraints are all positive.
  datatype Settings = Settings(
    accountEquity: real,
    maxParticipation: real,
    maxNotional: real,
    targetVolBps: real,
    floorVolBps: real,
    stopVolMultiplier: real,
    minStopBps: real
  )

  predicate Valid(s: Settings) {
    s.accountEquity > 0.0 && s.maxParticipation > 0.0 && s.maxNotional > 0.0 && s.targetVolBps > 0.0
    && s.floorVolBps > 0.0 && s.stopVolMultiplier > 0.0 && s.minStopBps > 0.0
  }

  datatype Row = Row(price: real, volume: real, dollarVolume: real, predictedReturn: real, targetReturn: real)

  datatype Direction = Long | Short | Flat

  datatype Reason = BelowThreshold | BadPriceOrStop | ActiveSignal

  datatype Decision = Decision(
    direction: Direction,
    qualityScale: real,
    volScale: real,
    riskShares: real,
    liquidityCap: real,
    shares: real,
    notional: real,
    stopBps: real,
    reason: Reason
  )

  function Clip(x: real, lo: real, hi: real): real { MinR(MaxR(x, lo), hi) }

  function Signal(edge: real): Direction { if edge > 0.0 then Long else if edge < 0.0 then Short else Flat }

  function StopBps(s: Settings, risk: real): real { MaxR(s.minStopBps, risk * s.stopVolMultiplier) }

  function RiskShares(s: Settings, row: Row, risk: real, riskFraction: real): real
    requires Valid(s) && row.price > 0.0
  {
    riskFraction * s.accountEquity / (row.price * (StopBps(s, risk) / 10000.0))
  }

  function QualityScale(edge: real, threshold: real, target: real): real {
    Clip((AbsR(edge) - threshold) / MaxR(target, 0.000000001), 0.0, 1.0)
  }

  function VolScale(s: Settings, risk: real): real
    requires Valid(s)
  {
    Clip(s.targetVolBps / MaxR(risk, s.floorVolBps), 0.0, 5.0)
  }

  function LiquidityCap(s: Settings, row: Row): real
    requires row.price > 0.0
  {
    var byVolume := s.maxParticipation * row.volume;
    var byNotional := if row.dollarVolume > 0.0 then s.maxNotional * row.dollarVolume / row.price else byVolume;
    MaxR(0.0, MinR(byVolume, byNotional))
  }

  function Capped(riskShares: real, quality: real, vol: real, cap: real): real {
    MaxR(0.0, MinR(riskShares * quality * vol, cap))
  }

  function Active(direction: Direction, riskShares: real, quality: real, vol: real, cap: real, price: real, stop: real): Decision {
    var size := Capped(riskShares, quality, vol, cap);
    var shares := if direction == Long then size else -size;
    Decision(direction, quality, vol, riskShares, cap, shares, AbsR(shares) * price, stop, ActiveSignal)
  }

  // _size_position
  function SizePosition(s: Settings, row: Row, edge: real, risk: real, threshold: real, target: real,
                        riskFraction: real, allowShort: bool): Decision
    requires Valid(s)
  {
    var signal := Signal(edge);
    var direction := if signal == Short && !allowShort then Flat else signal;
    var stop := StopBps(s, risk);
    if direction == Flat || AbsR(edge) <= threshold then
      Decision(Flat, 0.0, 0.0, 0.0, 0.0, 0.0, 0.0, stop, BelowThreshold)
    else if row.price <= 0.0 || stop / 10000.0 <= 0.0 then
      Decision(direction, 0.0, 0.0, 0.0, 0.0, 0.0, 0.0, stop, BadPriceOrStop)
    else
      Active(direction, RiskShares(s, row, risk, riskFraction), QualityScale(edge, threshold, target), VolScale(s, risk),
             LiquidityCap(s, row), row.price, stop)
  }

  lemma StopPositive(s: Settings, row: Row, risk: real)
    requires Valid(s) && row.price > 0.0
    ensures StopBps(s, risk) / 10000.0 > 0.0 && row.price * (StopBps(s, risk) / 10000.0) > 0.0
  {
  }

  lemma ProductMonotone(x: real, x': real, y: real, y': real)
    requires 0.0 <= x <= x' && 0.0 <= y <= y'
    ensures 0.0 <= x * y <= x' * y'
  {
  }

  // The size of an active position grows with each of its three factors.
  lemma CappedMonotone(r: real, r': real, q: real, q': real, v: real, v': real, cap: real)
    requires 0.0 <= r <= r' && 0.0 <= q <= q' && 0.0 <= v <= v'
    ensures 0.0 <= Capped(r, q, v, cap) <= Capped(r', q', v', cap) && 0.0 <= r * q * v <= r' * q' * v'
  {
    ProductMonotone(r, r', q, q');
    ProductMonotone(r * q, r' * q', v, v');
  }

  predicate Opens(edge: real, threshold: real, allowShort: bool) {
    Signal(edge) != Flat && (Signal(edge) == Short ==> allowShort) && AbsR(edge) > threshold
  }

  lemma ActiveSize(s: Settings, row: Row, edge: real, risk: real, threshold: real, target: real,
                   riskFraction: real, allowShort: bool, d: Decision)
    requires Valid(s) && row.price > 0.0
    requires d == SizePosition(s, row, edge, risk, threshold, target, riskFraction, allowShort)
    ensures d.reason == ActiveSignal <==> Opens(edge, threshold, allowShort)
    ensures d.reason != ActiveSignal ==> d.shares == 0.0 && d.notional == 0.0
    ensures d.reason == ActiveSignal ==>
              d == Active(Signal(edge), RiskShares(s, row, risk, riskFraction), QualityScale(edge, threshold, target),
                          VolScale(s, risk), LiquidityCap(s, row), row.price, StopBps(s, risk))
  {
  }

  lemma QualityGrows(small: real, large: real, threshold: real, target: real)
    requires AbsR(small) <= AbsR(large)
    ensures 0.0 <= QualityScale(small, threshold, target) <= QualityScale(large, threshold, target) <= 1.0
  {
    DivideLe(AbsR(small) - threshold, AbsR(large) - threshold, MaxR(target, 0.000000001));
  }

  // More edge in the same direction never means a smaller position.
  lemma GrowsWithEdge(s: Settings, row: Row, small: real, large: real, risk: real, threshold: real, target: real,
                      riskFraction: real, allowShort: bool, d: Decision, d': Decision)
    requires Valid(s) && row.price > 0.0 && riskFraction >= 0.0
    requires AbsR(small) <= AbsR(large) && Signal(small) == Signal(large)
    requires d == SizePosition(s, row, small, risk, threshold, target, riskFraction, allowShort)
    requires d' == SizePosition(s, row, large, risk, threshold, target, riskFraction, allowShort)
    ensures AbsR(d.shares) <= AbsR(d'.shares)
  {
    ActiveSize(s, row, small, risk, threshold, target, riskFraction, allowShort, d);
    ActiveSize(s, row, large, risk, threshold, target, riskFraction, allowShort, d');
    if d.reason == ActiveSignal {
      QualityGrows(small, large, threshold, target);
      RiskSharesSign(s, row, risk, riskFraction);
      CappedMonotone(d.riskShares, d'.riskShares, d.qualityScale, d'.qualityScale, d.volScale, d'.volScale, d.liquidityCap);
    }
  }

  lemma RiskSharesSign(s: Settings, row: Row, risk: real, riskFraction: real)
    requires Valid(s) && row.price > 0.0 && riskFraction >= 0.0
    ensures RiskShares(s, row, risk, riskFraction) >= 0.0 && 0.0 <= VolScale(s, risk) <= 5.0
    ensures RiskShares(s, row, risk, riskFraction) * (row.price * (StopBps(s, risk) / 10000.0)) == riskFraction * s.accountEquity
  {
  }

  lemma StopGrowsWithRisk(s: Settings, low: real, high: real)
    requires Valid(s) && low <= high
    ensures 0.0 < StopBps(s, low) <= StopBps(s, high)
  {
  }

  lemma BudgetShrinks(budget: real, price: real, near: real, far: real)
    requires budget >= 0.0 && price > 0.0 && 0.0 < near <= far
    ensures 0.0 < price * near <= price * far && 0.0 <= budget / (price * far) <= budget / (price * near)
  {
  }

  lemma FactorsShrink(s: Settings, row: Row, low: real, high: real, riskFraction: real)
    requires Valid(s) && row.price > 0.0 && riskFraction >= 0.0 && low <= high
    ensures 0.0 <= RiskShares(s, row, high, riskFraction) <= RiskShares(s, row, low, riskFraction)
    ensures 0.0 <= VolScale(s, high) <= VolScale(s, low)
  {
    StopGrowsWithRisk(s, low, high);
    ScaleLe(0.0, riskFraction, s.accountEquity);
    BudgetShrinks(riskFraction * s.accountEquity, row.price, StopBps(s, low) / 10000.0, StopBps(s, high) / 10000.0);
    DivideAnti(s.targetVolBps, MaxR(low, s.floorVolBps), MaxR(high, s.floorVolBps));
  }

  // More forecast risk never means a larger position.
  lemma ShrinksWithRisk(s: Settings, row: Row, edge: real, low: real, high: real, threshold: real, target: real,
                        riskFraction: real, allowShort: bool, d: Decision, d': Decision)
    requires Valid(s) && row.price > 0.0 && riskFraction >= 0.0 && low <= high
    requires d == SizePosition(s, row, edge, low, threshold, target, riskFraction, allowShort)
    requires d' == SizePosition(s, row, edge, high, threshold, target, riskFraction, allowShort)
    ensures AbsR(d'.shares) <= AbsR(d.shares)
  {
    ActiveSize(s, row, edge, low, threshold, target, riskFraction, allowShort, d);
    ActiveSize(s, row, edge, high, threshold, target, riskFraction, allowShort, d');
    if d.reason == ActiveSignal {
      FactorsShrink(s, row, low, high, riskFraction);
      CappedMonotone(d'.riskShares, d.riskShares, d'.qualityScale, d.qualityScale, d'.volScale, d.volScale, d.liquidityCap);
    }
  }

  lemma CapBounds(s: Settings, row: Row, d: Decision)
    ensures row.price > 0.0 ==> LiquidityCap(s, row) >= 0.0
    ensures Capped(d.riskShares, d.qualityScale, d.volScale, d.liquidityCap) >= 0.0
    ensures d.liquidityCap >= 0.0 ==> Capped(d.riskShares, d.qualityScale, d.volScale, d.liquidityCap) <= d.liquidityCap
  {
  }

  // A position never exceeds the liquidity cap, never shorts when that is disallowed, and has the
  // sign of its edge.
  lemma PositionIsBounded(s: Settings, row: Row, edge: real, risk: real, threshold: real, target: real,
                          riskFraction: real, allowShort: bool, d: Decision)
    requires Valid(s)
    requires d == SizePosition(s, row, edge, risk, threshold, target, riskFraction, allowShort)
    ensures row.price > 0.0 ==> AbsR(d.shares) <= LiquidityCap(s, row)
    ensures !allowShort ==> d.shares >= 0.0 && d.direction != Short
    ensures (d.shares > 0.0 ==> edge > 0.0) && (d.shares < 0.0 ==> edge < 0.0)
    ensures d.notional == AbsR(d.shares) * row.price
  {
    hide RiskShares, QualityScale, VolScale, LiquidityCap, StopBps, Capped;
    CapBounds(s, row, d);
  }

  // A position stopped out loses at most five times the risk budget, and a position at full
  // quality and neutral volatility that no cap touches loses exactly the budget.
  lemma LossAtStopIsBounded(s: Settings, row: Row, edge: real, risk: real, threshold: real, target: real,
                            riskFraction: real, allowShort: bool, d: Decision)
    requires Valid(s) && row.price > 0.0 && riskFraction >= 0.0
    requires d == SizePosition(s, row, edge, risk, threshold, target, riskFraction, allowShort)
    ensures 0.0 <= d.notional * (d.stopBps / 10000.0) <= 5.0 * (riskFraction * s.accountEquity)
    ensures d.reason == ActiveSignal && d.qualityScale == 1.0 && d.volScale == 1.0 && d.riskShares <= d.liquidityCap
            ==> d.notional * (d.stopBps / 10000.0) == riskFraction * s.accountEquity
  {
    hide SizePosition, RiskShares, QualityScale, VolScale, LiquidityCap, StopBps;
    ScaleLe(0.0, riskFraction, s.accountEquity);
    QualityGrows(edge, edge, threshold, target);
    ActiveSize(s, row, edge, risk, threshold, target, riskFraction, allowShort, d);
    if d.reason == ActiveSignal {
      RiskSharesSign(s, row, risk, riskFraction);
      StopPositive(s, row, risk);
      StopLoss(d, row.price, riskFraction * s.accountEquity);
    }
  }

  lemma StopLoss(d: Decision, price: real, budget: real)
    requires d == Active(d.direction, d.riskShares, d.qualityScale, d.volScale, d.liquidityCap, price, d.stopBps)
    requires price > 0.0 && d.stopBps / 10000.0 > 0.0
    requires d.riskShares >= 0.0 && 0.0 <= d.qualityScale <= 1.0 && 0.0 <= d.volScale <= 5.0
    requires d.riskShares * (price * (d.stopBps / 10000.0)) == budget
    ensures 0.0 <= d.notional * (d.stopBps / 10000.0) <= 5.0 * budget
    ensures d.qualityScale == 1.0 && d.volScale == 1.0 && d.riskShares <= d.liquidityCap ==> d.notional * (d.stopBps / 10000.0) == budget
  {
    ActiveValue(d, price);
    CappedWithin(d.riskShares, d.qualityScale, d.volScale, d.liquidityCap);
    hide Active, Capped;
    LossOf(AbsR(d.shares), d.riskShares, price, d.stopBps / 10000.0, d.notional, budget);
  }

  lemma ActiveValue(d: Decision, price: real)
    requires d == Active(d.direction, d.riskShares, d.qualityScale, d.volScale, d.liquidityCap, price, d.stopBps)
    requires Capped(d.riskShares, d.qualityScale, d.volScale, d.liquidityCap) >= 0.0
    ensures AbsR(d.shares) == Capped(d.riskShares, d.qualityScale, d.volScale, d.liquidityCap)
    ensures d.notional == AbsR(d.shares) * price
  {
    hide Capped;
  }

  lemma CappedWithin(r: real, q: real, v: real, cap: real)
    requires r >= 0.0 && 0.0 <= q <= 1.0 && 0.0 <= v <= 5.0
    ensures 0.0 <= Capped(r, q, v, cap) <= 5.0 * r
    ensures q == 1.0 && v == 1.0 && r <= cap ==> Capped(r, q, v, cap) == r
  {
    CappedMonotone(r, r, q, 1.0, v, 5.0, cap);
  }

  lemma LossOf(n: real, riskShares: real, price: real, stop: real, notional: real, budget: real)
    requires 0.0 <= n <= 5.0 * riskShares && price > 0.0 && stop > 0.0
    requires notional == n * price && budget == riskShares * (price * stop)
    ensures 0.0 <= notional * stop <= 5.0 * budget
    ensures n == riskShares ==> notional * stop == budget
  {
    var per := price * stop;
    assert per > 0.0 && notional * stop == n * per;
    ScaleLe(0.0, n, per);
    ScaleLe(n, 5.0 * riskShares, per);
    assert 5.0 * riskShares * per == 5.0 * budget;
  }

  // ---------- a batch

  datatype Costs = Costs(spreadBps: real, slippageBps: real, impactBps: real)

  function RoundtripBps(c: Costs): real { 2.0 * c.spreadBps + 2.0 * c.slippageBps + c.impactBps }

  datatype Policy = Policy(sizing: Settings, costs: Costs, volBps: real, threshold: real, target: real,
                           riskFraction: real, allowShort: bool)

  function Decide(p: Policy, row: Row): Decision
    requires Valid(p.sizing)
  {
    SizePosition(p.sizing, row, row.predictedReturn * 10000.0 - RoundtripBps(p.costs), MaxR(p.volBps, p.sizing.floorVolBps),
                 p.threshold, p.target, p.riskFraction, p.allowShort)
  }

  function Sign(x: real): real { if x > 0.0 then 1.0 else if x < 0.0 then -1.0 else 0.0 }

  function GrossPnl(d: Decision, row: Row): real { d.notional * (row.targetReturn * Sign(d.shares)) }

  // The total profit of the decisions taken on the rows before costs, and their total notional.
  function Gross(decisions: seq<Decision>, rows: seq<Row>): real
    requires |decisions| == |rows|
  {
    if rows == [] then 0.0
    else var n := |rows| - 1; Gross(decisions[..n], rows[..n]) + GrossPnl(decisions[n], rows[n])
  }

  function Notional(decisions: seq<Decision>): real {
    if decisions == [] then 0.0 else Notional(decisions[..|decisions| - 1]) + decisions[|decisions| - 1].notional
  }

  // The net column sums to the gross one less the cost rate on the whole notional.
  method BatchPnl(rate: real, decisions: seq<Decision>, rows: seq<Row>) returns (gross: real, net: real)
    requires |decisions| == |rows|
    ensures gross == Gross(decisions, rows)
    ensures net == gross - rate * Notional(decisions)
  {
    gross, net := 0.0, 0.0;
    for i := 0 to |rows|
      invariant gross == Gross(decisions[..i], rows[..i])
      invariant net == gross - rate * Notional(decisions[..i])
    {
      assert rows[..i + 1][..i] == rows[..i] && decisions[..i + 1][..i] == decisions[..i];
      var grossPnl := GrossPnl(decisions[i], rows[i]);
      NetStep(gross, rate, Notional(decisions[..i]), grossPnl, decisions[i].notional);
      gross, net := gross + grossPnl, net + (grossPnl - decisions[i].notional * rate);
    }
    assert rows[..|rows|] == rows && decisions[..|rows|] == decisions;
  }

  lemma NetStep(gross: real, rate: real, notional: real, grossPnl: real, added: real)
    ensures (gross - rate * notional) + (grossPnl - added * rate) == (gross + grossPnl) - rate * (notional + added)
  {
  }

  // _evaluate_predictions: one decision a row, in order, and the batch's two profit totals.
  method EvaluatePredictions(p: Policy, rows: seq<Row>) returns (decisions: seq<Decision>, gross: real, net: real)
    requires Valid(p.sizing)
    ensures |decisions| == |rows| && forall i | 0 <= i < |rows| :: decisions[i] == Decide(p, rows[i])
    ensures gross == Gross(decisions, rows)
    ensures net == gross - RoundtripBps(p.costs) / 10000.0 * Notional(decisions)
  {
    hide Decide, Gross, Notional;
    decisions := [];
    for i := 0 to |rows|
      invariant |decisions| == i && forall j | 0 <= j < i :: decisions[j] == Decide(p, rows[j])
    {
      decisions := decisions + [Decide(p, rows[i])];
    }
    gross, net := BatchPnl(RoundtripBps(p.costs) / 10000.0, decisions, rows);
  }

  // ---------- what a decision is, without the functions that compute it

  // r is x / y, limited to lo..hi.
  predicate IsClipped(r: real, x: real, y: real, lo: real, hi: real) {
    if x <= lo * y then r == lo else if x >= hi * y then r == hi else r * y == x
  }

  predicate IsLarger(m: real, a: real, b: real) { m >= a && m >= b && (m == a || m == b) }

  predicate IsSmaller(m: real, a: real, b: real) { m <= a && m <= b && (m == a || m == b) }

  // The share of the volume, and of the traded dollars when they are known; none if negative.
  ghost predicate IsLiquidityCap(cap: real, s: Settings, row: Row) {
    exists byVolume, byNotional, least ::
      && byVolume == s.maxParticipation * row.volume
      && (if row.dollarVolume > 0.0 then byNotional * row.price == s.maxNotional * row.dollarVolume else byNotional == byVolume)
      && IsSmaller(least, byVolume, byNotional) && IsLarger(cap, 0.0, least)
  }

  // The size of an active position: the shares that lose the risk budget at the stop, scaled by
  // quality and volatility, up to the liquidity cap.
  ghost predicate IsSized(d: Decision, s: Settings, row: Row, edge: real, risk: real, threshold: real, target: real, riskFraction: real) {
    && LosesBudget(d.riskShares, row.price, d.stopBps, riskFraction, s.accountEquity)
    && IsQuality(d.qualityScale, AbsR(edge) - threshold, target) && IsVolScale(d.volScale, s, risk)
    && IsLiquidityCap(d.liquidityCap, s, row)
    && IsLimited(if edge > 0.0 then d.shares else -d.shares, d.riskShares, d.qualityScale, d.volScale, d.liquidityCap)
  }

  predicate LosesBudget(shares: real, price: real, stopBps: real, fraction: real, equity: real) {
    shares * price * stopBps == fraction * equity * 10000.0
  }

  ghost predicate IsQuality(quality: real, excess: real, target: real) {
    exists scale :: IsLarger(scale, target, 0.000000001) && IsClipped(quality, excess, scale, 0.0, 1.0)
  }

  ghost predicate IsVolScale(scale: real, s: Settings, risk: real) {
    exists vol :: IsLarger(vol, risk, s.floorVolBps) && IsClipped(scale, s.targetVolBps, vol, 0.0, 5.0)
  }

  predicate IsLimited(size: real, riskShares: real, quality: real, vol: real, cap: real) {
    var wanted := riskShares * quality * vol;
    size == if wanted <= 0.0 then 0.0 else if wanted <= cap then wanted else cap
  }

  predicate IsValue(notional: real, shares: real, price: real) {
    notional == if shares >= 0.0 then shares * price else -shares * price
  }

  ghost predicate DecisionMeans(d: Decision, s: Settings, row: Row, edge: real, risk: real, threshold: real, target: real,
                                riskFraction: real, allowShort: bool) {
    var opens := AbsR(edge) > threshold && (edge > 0.0 || (edge < 0.0 && allowShort));
    && IsLarger(d.stopBps, s.minStopBps, risk * s.stopVolMultiplier)
    && d.direction == (if !opens then Flat else if edge > 0.0 then Long else Short)
    && d.reason == (if !opens then BelowThreshold else if row.price <= 0.0 then BadPriceOrStop else ActiveSignal)
    && IsValue(d.notional, d.shares, row.price)
    && if d.reason == ActiveSignal then IsSized(d, s, row, edge, risk, threshold, target, riskFraction)
       else d.shares == d.qualityScale == d.volScale == d.riskShares == d.liquidityCap == 0.0
  }

  lemma ClipIsClipped(x: real, y: real, lo: real, hi: real)
    requires y > 0.0 && lo <= hi
    ensures IsClipped(Clip(x / y, lo, hi), x, y, lo, hi)
  {
    var q := x / y;
    assert q * y == x;
    if x <= lo * y {
      assert (q - lo) * y <= 0.0;
    } else if x >= hi * y {
      assert (q - hi) * y >= 0.0;
    } else {
      assert (q - lo) * y > 0.0 && (hi - q) * y > 0.0;
    }
  }

  lemma CapMeaning(s: Settings, row: Row)
    requires row.price > 0.0
    ensures IsLiquidityCap(LiquidityCap(s, row), s, row)
  {
    var byVolume := s.maxParticipation * row.volume;
    var byNotional := if row.dollarVolume > 0.0 then s.maxNotional * row.dollarVolume / row.price else byVolume;
    var least := MinR(byVolume, byNotional);
    assert row.dollarVolume > 0.0 ==> byNotional * row.price == s.maxNotional * row.dollarVolume;
    assert IsSmaller(least, byVolume, byNotional) && IsLarger(LiquidityCap(s, row), 0.0, least);
  }

  lemma ValueOfSize(s: Settings, row: Row, edge: real, risk: real, threshold: real, target: real,
                    riskFraction: real, allowShort: bool)
    requires Valid(s)
    ensures var d := SizePosition(s, row, edge, risk, threshold, target, riskFraction, allowShort);
            IsValue(d.notional, d.shares, row.price)
  {
    hide RiskShares, QualityScale, VolScale, LiquidityCap, StopBps, Capped;
  }

  lemma SizeMeaning(s: Settings, row: Row, edge: real, risk: real, threshold: real, target: real,
                    riskFraction: real, allowShort: bool)
    requires Valid(s)
    ensures DecisionMeans(SizePosition(s, row, edge, risk, threshold, target, riskFraction, allowShort),
                          s, row, edge, risk, threshold, target, riskFraction, allowShort)
  {
    var d := SizePosition(s, row, edge, risk, threshold, target, riskFraction, allowShort);
    hide IsSized, RiskShares, QualityScale, VolScale, LiquidityCap, IsValue, Capped;
    ValueOfSize(s, row, edge, risk, threshold, target, riskFraction, allowShort);
    if d.reason == ActiveSignal {
      ActiveMeaning(s, row, edge, risk, threshold, target, riskFraction, allowShort, d);
    }
  }

  lemma ActiveMeaning(s: Settings, row: Row, edge: real, risk: real, threshold: real, target: real,
                      riskFraction: real, allowShort: bool, d: Decision)
    requires Valid(s) && row.price > 0.0 && Opens(edge, threshold, allowShort)
    requires d == SizePosition(s, row, edge, risk, threshold, target, riskFraction, allowShort)
    ensures IsSized(d, s, row, edge, risk, threshold, target, riskFraction)
  {
    hide SizePosition, RiskShares, QualityScale, VolScale, LiquidityCap, StopBps, Capped, LosesBudget, IsQuality, IsVolScale,
         IsLiquidityCap, IsLimited;
    ActiveSize(s, row, edge, risk, threshold, target, riskFraction, allowShort, d);
    QualityMeaning(edge, threshold, target);
    VolMeaning(s, risk);
    CapMeaning(s, row);
    CapNotNegative(s, row, d.liquidityCap);
    BudgetMeaning(s, row, risk, riskFraction);
    LimitedSize(d.riskShares, d.qualityScale, d.volScale, d.liquidityCap);
  }

  lemma QualityMeaning(edge: real, threshold: real, target: real)
    ensures IsQuality(QualityScale(edge, threshold, target), AbsR(edge) - threshold, target)
  {
    var scale := MaxR(target, 0.000000001);
    assert IsLarger(scale, target, 0.000000001);
    ClipIsClipped(AbsR(edge) - threshold, scale, 0.0, 1.0);
  }

  lemma VolMeaning(s: Settings, risk: real)
    requires Valid(s)
    ensures IsVolScale(VolScale(s, risk), s, risk)
  {
    var vol := MaxR(risk, s.floorVolBps);
    assert IsLarger(vol, risk, s.floorVolBps);
    ClipIsClipped(s.targetVolBps, vol, 0.0, 5.0);
  }

  lemma CapNotNegative(s: Settings, row: Row, cap: real)
    requires IsLiquidityCap(cap, s, row)
    ensures cap >= 0.0
  {
  }

  lemma LimitedSize(riskShares: real, quality: real, vol: real, cap: real)
    requires cap >= 0.0
    ensures IsLimited(Capped(riskShares, quality, vol, cap), riskShares, quality, vol, cap) && Capped(riskShares, quality, vol, cap) >= 0.0
  {
  }

  lemma BudgetMeaning(s: Settings, row: Row, risk: real, riskFraction: real)
    requires Valid(s) && row.price > 0.0
    ensures LosesBudget(RiskShares(s, row, risk, riskFraction), row.price, StopBps(s, risk), riskFraction, s.accountEquity)
  {
    StopPositive(s, row, risk);
    var stop, budget := StopBps(s, risk), riskFraction * s.accountEquity;
    var per := row.price * (stop / 10000.0);
    var shares := budget / per;
    assert shares * per == budget;
    assert shares * row.price * stop == shares * per * 10000.0;
  }

  // The edge a row is sized on: the prediction less the round trip's cost, both in basis points.
  lemma DecideMeaning(p: Policy, row: Row)
    requires Valid(p.sizing)
    ensures var cost := 2.0 * (p.costs.spreadBps + p.costs.slippageBps) + p.costs.impactBps;
            exists risk :: IsLarger(risk, p.volBps, p.sizing.floorVolBps)
                           && DecisionMeans(Decide(p, row), p.sizing, row, row.predictedReturn * 10000.0 - cost, risk,
                                            p.threshold, p.target, p.riskFraction, p.allowShort)
  {
    hide SizePosition, DecisionMeans;
    var risk, edge := MaxR(p.volBps, p.sizing.floorVolBps), row.predictedReturn * 10000.0 - RoundtripBps(p.costs);
    assert IsLarger(risk, p.volBps, p.sizing.floorVolBps);
    SizeMeaning(p.sizing, row, edge, risk, p.threshold, p.target, p.riskFraction, p.allowShort);
  }

  // What a direction earns by the prediction, in basis points and after costs.
  function PredictedNet(p: Policy, row: Row, direction: Direction): real {
    (if direction == Short then -row.predictedReturn else row.predictedReturn) * 10000.0 - RoundtripBps(p.costs)
  }

  // An opened position clears the threshold by its own prediction, costs paid, exactly when it is
  // long or its edge exceeds the threshold by two round trips: the costs are taken off the signed
  // prediction, so they make a short's edge larger instead of smaller.
  lemma OpenedClearsCostIff(p: Policy, row: Row)
    requires Valid(p.sizing) && Decide(p, row).reason != BelowThreshold
    ensures var edge := row.predictedReturn * 10000.0 - RoundtripBps(p.costs);
            PredictedNet(p, row, Decide(p, row).direction) > p.threshold
            <==> edge > 0.0 || -edge > p.threshold + 2.0 * RoundtripBps(p.costs)
  {
    var risk, edge := MaxR(p.volBps, p.sizing.floorVolBps), row.predictedReturn * 10000.0 - RoundtripBps(p.costs);
    SizeMeaning(p.sizing, row, edge, risk, p.threshold, p.target, p.riskFraction, p.allowShort);
    hide SizePosition, IsSized;
  }

  // So a rising prediction opens a short exactly when shorts are allowed and it falls short of the
  // costs by more than the threshold.
  lemma ShortsARiseIff(p: Policy, row: Row)
    requires Valid(p.sizing) && row.predictedReturn > 0.0
    ensures Decide(p, row).direction == Short
            <==> p.allowShort && row.predictedReturn * 10000.0 < RoundtripBps(p.costs)
                 && row.predictedReturn * 10000.0 + p.threshold < RoundtripBps(p.costs)
  {
    var risk, edge := MaxR(p.volBps, p.sizing.floorVolBps), row.predictedReturn * 10000.0 - RoundtripBps(p.costs);
    SizeMeaning(p.sizing, row, edge, risk, p.threshold, p.target, p.riskFraction, p.allowShort);
    hide SizePosition, IsSized;
  }

  // A row's gross profit is its shares times the price times the return that followed.
  lemma GrossMeaning(p: Policy, row: Row)
    requires Valid(p.sizing)
    ensures GrossPnl(Decide(p, row), row) == Decide(p, row).shares * row.price * row.targetReturn
  {
    hide SizePosition, DecisionMeans;
    var d := Decide(p, row);
    var risk, edge := MaxR(p.volBps, p.sizing.floorVolBps), row.predictedReturn * 10000.0 - RoundtripBps(p.costs);
    SizeMeaning(p.sizing, row, edge, risk, p.threshold, p.target, p.riskFraction, p.allowShort);
    NotionalOf(d, p.sizing, row, edge, risk, p.threshold, p.target, p.riskFraction, p.allowShort);
    hide Decide, DecisionMeans;
    GrossOf(d, row);
  }

  lemma NotionalOf(d: Decision, s: Settings, row: Row, edge: real, risk: real, threshold: real, target: real,
                   riskFraction: real, allowShort: bool)
    requires DecisionMeans(d, s, row, edge, risk, threshold, target, riskFraction, allowShort)
    ensures IsValue(d.notional, d.shares, row.price)
  {
    hide IsSized;
  }

  lemma GrossOf(d: Decision, row: Row)
    requires IsValue(d.notional, d.shares, row.price)
    ensures GrossPnl(d, row) == d.shares * row.price * row.targetReturn
  {
    if d.shares > 0.0 {
      assert GrossPnl(d, row) == d.notional * row.targetReturn;
    } else if d.shares < 0.0 {
      assert GrossPnl(d, row) == d.notional * (-row.targetReturn);
      assert d.notional == -(d.shares * row.price);
    }
  }
}
