// The per-reason diagnostics of engine/metrics.py and their pooling over the runs of one
// strategy in engine/aggregates.py.
module Diagnostics {
  import opened Common

  datatype Trade = Trade(reason: Option<string>, pnlcomm: real)

  // Rejections are kept as their reasons, a summary as its trade count.
  datatype Run = Run(success: bool, summary: Option<int>, trades: seq<Trade>, rejections: seq<Option<string>>)

  // reason or "unknown"
  function Named(reason: Option<string>): string {
    if reason == None || reason.value == "" then "unknown" else reason.value
  }

  // ---------- one list of trades or rejections

  function Reasons(trades: seq<Trade>): seq<Option<string>> { seq(|trades|, i requires 0 <= i < |trades| => trades[i].reason) }

  function Tally(reasons: seq<Option<string>>, key: string): nat {
    if reasons == [] then 0
    else Tally(reasons[..|reasons| - 1], key) + if Named(reasons[|reasons| - 1]) == key then 1 else 0
  }

  function PnlOf(trades: seq<Trade>, key: string): real {
    if trades == [] then 0.0
    else PnlOf(trades[..|trades| - 1], key) + if Named(trades[|trades| - 1].reason) == key then trades[|trades| - 1].pnlcomm else 0.0
  }

  function Get<V>(m: map<string, V>, key: string, missing: V): V { if key in m then m[key] else missing }

  // A dictionary of counts holds exactly the reasons that occur, each with its number.
  ghost predicate Counts(m: map<string, int>, reasons: seq<Option<string>>) {
    forall key :: Get(m, key, 0) == Tally(reasons, key) && (key in m <==> Tally(reasons, key) > 0)
  }

  ghost predicate Totals(m: map<string, real>, trades: seq<Trade>) {
    forall key :: Get(m, key, 0.0) == PnlOf(trades, key) && (key in m <==> Tally(Reasons(trades), key) > 0)
  }

  // The dictionaries of compute_trade_diagnostics.
  method TradeDiagnostics(trades: seq<Trade>) returns (counts: map<string, int>, pnl: map<string, real>)
    ensures Counts(counts, Reasons(trades)) && Totals(pnl, trades)
  {
    counts, pnl := map[], map[];
    for i := 0 to |trades|
      invariant Counts(counts, Reasons(trades[..i])) && Totals(pnl, trades[..i])
    {
      var reason := Named(trades[i].reason);
      assert trades[..i + 1][..i] == trades[..i];
      assert Reasons(trades[..i + 1]) == Reasons(trades[..i]) + [trades[i].reason];
      assert Reasons(trades[..i + 1])[..i] == Reasons(trades[..i]);
      counts := counts[reason := Get(counts, reason, 0) + 1];
      pnl := pnl[reason := Get(pnl, reason, 0.0) + trades[i].pnlcomm];
    }
    assert trades[..|trades|] == trades;
  }

  // compute_filter_diagnostics: the rejection counts, and the share of opportunities traded.
  method FilterDiagnostics(rejections: seq<Option<string>>, totalTrades: int)
    returns (counts: map<string, int>, total: int, tradedPct: Option<real>)
    ensures Counts(counts, rejections) && total == |rejections|
    ensures tradedPct.Some? <==> totalTrades + total > 0
    ensures tradedPct.Some? ==> tradedPct.value * (totalTrades + total) as real == totalTrades as real * 100.0
  {
    counts := map[];
    for i := 0 to |rejections|
      invariant Counts(counts, rejections[..i])
    {
      assert rejections[..i + 1][..i] == rejections[..i];
      counts := counts[Named(rejections[i]) := Get(counts, Named(rejections[i]), 0) + 1];
    }
    assert rejections[..|rejections|] == rejections;
    total, tradedPct := |rejections|, None;
    var opportunities := totalTrades + total;
    if opportunities > 0 {
      var share := totalTrades as real / opportunities as real;
      assert share * opportunities as real == totalTrades as real;
      tradedPct := Some(share * 100.0);
    }
  }

  // ---------- conservation

  ghost function SumOver(keys: set<string>, f: string -> real): real {
    if keys == {} then 0.0
    else
      var k :| k in keys;
      f(k) + SumOver(keys - {k}, f)
  }

  lemma {:induction false} SumSame(keys: set<string>, f: string -> real, g: string -> real)
    requires forall k | k in keys :: f(k) == g(k)
    ensures SumOver(keys, f) == SumOver(keys, g)
    decreases |keys|
  {
    if keys != {} {
      var k :| k in keys && SumOver(keys, f) == f(k) + SumOver(keys - {k}, f) && SumOver(keys, g) == g(k) + SumOver(keys - {k}, g);
      SumSame(keys - {k}, f, g);
    }
  }

  // Raising one key's value raises the sum by as much.
  lemma {:induction false} SumRaised(keys: set<string>, f: string -> real, g: string -> real, key: string)
    requires key in keys && forall k | k in keys && k != key :: f(k) == g(k)
    ensures SumOver(keys, g) - SumOver(keys, f) == g(key) - f(key)
    decreases |keys|
  {
    var k :| k in keys && SumOver(keys, f) == f(k) + SumOver(keys - {k}, f) && SumOver(keys, g) == g(k) + SumOver(keys - {k}, g);
    if k == key {
      SumSame(keys - {k}, f, g);
    } else {
      SumRaised(keys - {k}, f, g, key);
    }
  }

  lemma {:induction false} SumZero(keys: set<string>, f: string -> real)
    requires forall k | k in keys :: f(k) == 0.0
    ensures SumOver(keys, f) == 0.0
    decreases |keys|
  {
    if keys != {} {
      var k :| k in keys && SumOver(keys, f) == f(k) + SumOver(keys - {k}, f);
      SumZero(keys - {k}, f);
    }
  }

  function TotalPnl(trades: seq<Trade>): real {
    if trades == [] then 0.0 else TotalPnl(trades[..|trades| - 1]) + trades[|trades| - 1].pnlcomm
  }

  // No trade is lost or counted twice: over its reasons the counts add up to the number of
  // trades and the profits to the total profit.
  lemma {:induction false} ReasonsConserve(trades: seq<Trade>, keys: set<string>)
    requires forall i | 0 <= i < |trades| :: Named(trades[i].reason) in keys
    ensures SumOver(keys, k => Tally(Reasons(trades), k) as real) == |trades| as real
    ensures SumOver(keys, k => PnlOf(trades, k)) == TotalPnl(trades)
  {
    var count, pnl := k => Tally(Reasons(trades), k) as real, k => PnlOf(trades, k);
    if trades == [] {
      SumZero(keys, count);
      SumZero(keys, pnl);
    } else {
      var last := trades[|trades| - 1];
      var init := trades[..|trades| - 1];
      assert forall i | 0 <= i < |init| :: init[i] == trades[i];
      ReasonsConserve(init, keys);
      assert Reasons(trades)[..|init|] == Reasons(init);
      SumRaised(keys, k => Tally(Reasons(init), k) as real, count, Named(last.reason));
      SumRaised(keys, k => PnlOf(init, k), pnl, Named(last.reason));
    }
  }

  // ---------- pooling runs

  predicate Finished(run: Run) { run.success && run.summary.Some? }

  function PooledTrades(runs: seq<Run>): seq<Trade> {
    if runs == [] then []
    else PooledTrades(runs[..|runs| - 1]) + if Finished(runs[|runs| - 1]) then runs[|runs| - 1].trades else []
  }

  function PooledRejections(runs: seq<Run>): seq<Option<string>> {
    if runs == [] then []
    else PooledRejections(runs[..|runs| - 1]) + if Finished(runs[|runs| - 1]) then runs[|runs| - 1].rejections else []
  }

  function SummedTrades(runs: seq<Run>): int {
    if runs == [] then 0
    else SummedTrades(runs[..|runs| - 1]) + if Finished(runs[|runs| - 1]) then runs[|runs| - 1].summary.value else 0
  }

  // The sums over the finished runs of what each run's own diagnostics say.
  function TallyOverRuns(runs: seq<Run>, key: string): int {
    if runs == [] then 0
    else TallyOverRuns(runs[..|runs| - 1], key) + if Finished(runs[|runs| - 1]) then Tally(Reasons(runs[|runs| - 1].trades), key) else 0
  }

  function PnlOverRuns(runs: seq<Run>, key: string): real {
    if runs == [] then 0.0
    else PnlOverRuns(runs[..|runs| - 1], key) + if Finished(runs[|runs| - 1]) then PnlOf(runs[|runs| - 1].trades, key) else 0.0
  }

  function RejectionsOverRuns(runs: seq<Run>, key: string): int {
    if runs == [] then 0
    else RejectionsOverRuns(runs[..|runs| - 1], key) + if Finished(runs[|runs| - 1]) then Tally(runs[|runs| - 1].rejections, key) else 0
  }

  lemma {:induction false} TallyConcat(a: seq<Option<string>>, b: seq<Option<string>>, key: string)
    ensures Tally(a + b, key) == Tally(a, key) + Tally(b, key)
  {
    if b == [] {
      assert a + b == a;
    } else {
      assert (a + b)[..|a + b| - 1] == a + b[..|b| - 1];
      TallyConcat(a, b[..|b| - 1], key);
    }
  }

  lemma {:induction false} PnlConcat(a: seq<Trade>, b: seq<Trade>, key: string)
    ensures PnlOf(a + b, key) == PnlOf(a, key) + PnlOf(b, key)
  {
    if b == [] {
      assert a + b == a;
    } else {
      assert (a + b)[..|a + b| - 1] == a + b[..|b| - 1];
      PnlConcat(a, b[..|b| - 1], key);
    }
  }

  // One trade or rejection counts for its own reason, a missing one as unknown.
  lemma OneReason(t: Trade, key: string)
    ensures var own := key == if t.reason.None? || t.reason.value == "" then "unknown" else t.reason.value;
            Tally([t.reason], key) == (if own then 1 else 0) && PnlOf([t], key) == if own then t.pnlcomm else 0.0
  {
    assert [t][..0] == [] && [t.reason][..0] == [];
  }

  lemma {:induction false} PoolingAddsUp(runs: seq<Run>, key: string)
    ensures Tally(Reasons(PooledTrades(runs)), key) == TallyOverRuns(runs, key)
    ensures PnlOf(PooledTrades(runs), key) == PnlOverRuns(runs, key)
    ensures Tally(PooledRejections(runs), key) == RejectionsOverRuns(runs, key)
  {
    if runs != [] {
      var init, last := runs[..|runs| - 1], runs[|runs| - 1];
      PoolingAddsUp(init, key);
      var trades := if Finished(last) then last.trades else [];
      var rejections := if Finished(last) then last.rejections else [];
      assert Reasons(PooledTrades(init) + trades) == Reasons(PooledTrades(init)) + Reasons(trades);
      TallyConcat(Reasons(PooledTrades(init)), Reasons(trades), key);
      PnlConcat(PooledTrades(init), trades, key);
      TallyConcat(PooledRejections(init), rejections, key);
    }
  }

  // Only runs that succeeded and have a summary are pooled.
  lemma {:induction false} PoolsOfParts(a: seq<Run>, b: seq<Run>)
    ensures PooledTrades(a + b) == PooledTrades(a) + PooledTrades(b)
    ensures PooledRejections(a + b) == PooledRejections(a) + PooledRejections(b)
    ensures SummedTrades(a + b) == SummedTrades(a) + SummedTrades(b)
    ensures forall r: Run ::
              if r.success && r.summary.Some? then
                PooledTrades([r]) == r.trades && PooledRejections([r]) == r.rejections && SummedTrades([r]) == r.summary.value
              else PooledTrades([r]) == [] && PooledRejections([r]) == [] && SummedTrades([r]) == 0
  {
    assert forall r: Run :: [r][..0] == [];
    if b == [] {
      assert a + b == a;
    } else {
      var n := |b| - 1;
      assert (a + b)[..|a + b| - 1] == a + b[..n];
      PoolsOfParts(a, b[..n]);
    }
  }

  // The diagnostics part of _aggregate_strategy_runs: every entry is the sum of the finished
  // runs' entries.
  method AggregateDiagnostics(runs: seq<Run>)
    returns (counts: map<string, int>, pnl: map<string, real>, rejectionCounts: map<string, int>, tradedPct: Option<real>)
    ensures forall key :: Get(counts, key, 0) == TallyOverRuns(runs, key)
    ensures forall key :: Get(pnl, key, 0.0) == PnlOverRuns(runs, key)
    ensures forall key :: Get(rejectionCounts, key, 0) == RejectionsOverRuns(runs, key)
    ensures counts.Keys == pnl.Keys
    ensures var total := SummedTrades(runs) + |PooledRejections(runs)|;
            && (tradedPct.Some? <==> total > 0)
            && (tradedPct.Some? ==> tradedPct.value * total as real == SummedTrades(runs) as real * 100.0)
  {
    hide Tally, PnlOf;
    var trades: seq<Trade>, rejections: seq<Option<string>>, totalTrades := [], [], 0;
    for i := 0 to |runs|
      invariant trades == PooledTrades(runs[..i]) && rejections == PooledRejections(runs[..i])
      invariant totalTrades == SummedTrades(runs[..i])
    {
      assert runs[..i + 1][..i] == runs[..i];
      if Finished(runs[i]) {
        trades, rejections := trades + runs[i].trades, rejections + runs[i].rejections;
        totalTrades := totalTrades + runs[i].summary.value;
      }
    }
    assert runs[..|runs|] == runs;
    counts, pnl := TradeDiagnostics(trades);
    var total;
    rejectionCounts, total, tradedPct := FilterDiagnostics(rejections, totalTrades);
    forall key
      ensures Get(counts, key, 0) == TallyOverRuns(runs, key)
      ensures Get(pnl, key, 0.0) == PnlOverRuns(runs, key)
      ensures Get(rejectionCounts, key, 0) == RejectionsOverRuns(runs, key)
    {
      PoolingAddsUp(runs, key);
    }
  }
}
