// Sharded backtests: planning (backtests/sharding.py), the run loop (engine/runner.py), and the
// merge (backtests/merge.py). One backtest of one run is an uninterpreted oracle.
module BacktestSharding {
  import opened Common
  import opened Ordering
  import opened Text
  import opened Artifacts

  datatype RunConfig = RunConfig(runId: string, symbol: Option<string>, trigger: string, spec: string)

  datatype Config = Config(globals: string, runs: seq<RunConfig>)

  datatype SplitBy = ByRun | BySymbol | ByTrigger | BySymbolTrigger

  // What _run_single does with a run: return a result or raise.
  datatype Outcome = Completed(result: RunResult) | Raised(message: string)

  type Oracle = (string, RunConfig) -> Outcome

  // A completed result carries its run's id.
  ghost predicate KeepsIds(oracle: Oracle) {
    forall globals, run :: oracle(globals, run).Completed? ==> oracle(globals, run).result.runId == run.runId
  }

  predicate UniqueRunIds(runs: seq<RunConfig>) {
    forall i, j | 0 <= i < j < |runs| :: runs[i].runId != runs[j].runId
  }

  // ---------- the run loop

  const SUCCESS := "success"
  const FAILED := "failed"

  datatype Status = AllSucceeded | AllFailed | PartialFailure

  datatype Report = Report(total: nat, successful: nat, failed: nat, status: Status, results: seq<RunResult>)

  function ResultOf(oracle: Oracle, globals: string, run: RunConfig): RunResult {
    match oracle(globals, run)
    case Completed(result) => result
    case Raised(message) => RunResult(run.runId, FAILED, run.trigger, message, [], [], [], [], [])
  }

  function Results(oracle: Oracle, globals: string, runs: seq<RunConfig>): (r: seq<RunResult>)
    ensures |r| == |runs|
  {
    seq(|runs|, i requires 0 <= i < |runs| => ResultOf(oracle, globals, runs[i]))
  }

  function CountSuccess(results: seq<RunResult>): (n: nat)
    ensures n <= |results|
  {
    if results == [] then 0 else CountSuccess(results[1..]) + if results[0].status == SUCCESS then 1 else 0
  }

  // _aggregate_status, and the same branches at the end of run_backtests_with_hooks.
  function AggregateStatus(successful: nat, failed: nat): Status {
    if failed == 0 then AllSucceeded else if successful == 0 then AllFailed else PartialFailure
  }

  function ReportOf(results: seq<RunResult>): Report {
    var n := CountSuccess(results);
    Report(|results|, n, |results| - n, AggregateStatus(n, |results| - n), results)
  }

  method RunBacktests(oracle: Oracle, config: Config) returns (report: Report)
    ensures report == ReportOf(Results(oracle, config.globals, config.runs))
  {
    var results: seq<RunResult> := [];
    for i := 0 to |config.runs|
      invariant results == Results(oracle, config.globals, config.runs)[..i]
    {
      var run := config.runs[i];
      match oracle(config.globals, run) {
        case Completed(result) => results := results + [result];
        case Raised(message) => results := results + [RunResult(run.runId, FAILED, run.trigger, message, [], [], [], [], [])];
      }
    }
    assert Results(oracle, config.globals, config.runs)[..|config.runs|] == Results(oracle, config.globals, config.runs);
    report := Tally(results);
  }

  method Tally(results: seq<RunResult>) returns (report: Report)
    ensures report == ReportOf(results)
  {
    var successful := 0;
    for i := |results| downto 0
      invariant successful == CountSuccess(results[i..]) && successful <= |results| - i
    {
      assert results[i..][1..] == results[i + 1..];
      if results[i].status == SUCCESS { successful := successful + 1; }
    }
    assert results[0..] == results;
    var failed := |results| - successful;
    var status := if failed == 0 then AllSucceeded else if successful == 0 then AllFailed else PartialFailure;
    report := Report(|results|, successful, failed, status, results);
  }

  // The run's own result, or a failed one that names the run and the error and has no records.
  ghost predicate IsResultOf(r: RunResult, oracle: Oracle, globals: string, run: RunConfig) {
    match oracle(globals, run)
    case Completed(result) => r == result
    case Raised(message) =>
      && r.runId == run.runId && r.status == "failed" && r.strategy == run.trigger && r.detail == message
      && r.orders == r.trades == r.rejections == r.candidates == r.equity == []
  }

  lemma {:induction false} CountAppend(a: seq<RunResult>, b: seq<RunResult>)
    ensures CountSuccess(a + b) == CountSuccess(a) + CountSuccess(b)
    ensures forall r :: CountSuccess([r]) == if r.status == "success" then 1 else 0
  {
    if a == [] {
      assert a + b == b;
    } else {
      assert (a + b)[1..] == a[1..] + b;
      CountAppend(a[1..], b);
    }
  }

  lemma {:induction false} CountExtremes(results: seq<RunResult>)
    ensures CountSuccess(results) == |results| <==> forall i | 0 <= i < |results| :: results[i].status == "success"
    ensures CountSuccess(results) == 0 <==> forall i | 0 <= i < |results| :: results[i].status != "success"
  {
    if results != [] {
      CountExtremes(results[1..]);
      assert forall i | 0 < i < |results| :: results[1..][i - 1] == results[i];
      assert forall i | 0 <= i < |results[1..]| :: results[1..][i] == results[i + 1];
    }
  }

  // The report of a run: one result for each run in order, and a status that says whether all of
  // them succeeded, none, or some.
  lemma ReportMeaning(oracle: Oracle, globals: string, runs: seq<RunConfig>)
    ensures var report := ReportOf(Results(oracle, globals, runs));
            var n := |runs|;
            && report.total == |report.results| == n && report.successful + report.failed == n
            && (forall i | 0 <= i < n :: IsResultOf(report.results[i], oracle, globals, runs[i]))
            && (report.status == AllSucceeded <==> forall i | 0 <= i < n :: report.results[i].status == "success")
            && (report.status == AllFailed <==> n > 0 && forall i | 0 <= i < n :: report.results[i].status != "success")
            && (report.failed == 0 <==> report.status == AllSucceeded)
  {
    CountExtremes(Results(oracle, globals, runs));
  }

  // ---------- planning

  function SymbolFor(run: RunConfig): string { if run.symbol.Some? then Upper(run.symbol.value) else "unknown" }

  // _group_key_for_run
  function GroupKey(run: RunConfig, split: SplitBy): string {
    match split
    case ByRun => run.runId
    case BySymbol => SymbolFor(run)
    case ByTrigger => run.trigger
    case BySymbolTrigger => SymbolFor(run) + ":" + run.trigger
  }

  // The runs that share a group: for each way to split, those that agree in what it names. Symbols
  // are compared in upper case, and runs without one form a group of their own.
  lemma GroupsMeaning(a: RunConfig, b: RunConfig)
    ensures GroupKey(a, ByRun) == GroupKey(b, ByRun) <==> a.runId == b.runId
    ensures GroupKey(a, ByTrigger) == GroupKey(b, ByTrigger) <==> a.trigger == b.trigger
    ensures GroupKey(a, BySymbol) == GroupKey(b, BySymbol) <==> SameSymbol(a, b)
    ensures SameSymbol(a, b) && a.trigger == b.trigger ==> GroupKey(a, BySymbolTrigger) == GroupKey(b, BySymbolTrigger)
    ensures ':' !in SymbolFor(a) && ':' !in SymbolFor(b) && GroupKey(a, BySymbolTrigger) == GroupKey(b, BySymbolTrigger)
            ==> SameSymbol(a, b) && a.trigger == b.trigger
  {
    UpperIsNotUnknown(a);
    UpperIsNotUnknown(b);
    if ':' !in SymbolFor(a) && ':' !in SymbolFor(b) && GroupKey(a, BySymbolTrigger) == GroupKey(b, BySymbolTrigger) {
      FirstColon(SymbolFor(a), a.trigger, SymbolFor(b), b.trigger);
    }
  }

  predicate SameSymbol(a: RunConfig, b: RunConfig) {
    match (a.symbol, b.symbol)
    case (Some(x), Some(y)) => Upper(x) == Upper(y)
    case (None, None) => true
    case _ => false
  }

  lemma UpperIsNotUnknown(run: RunConfig)
    ensures run.symbol.Some? ==> SymbolFor(run) != "unknown"
  {
    if run.symbol.Some? && |run.symbol.value| > 0 {
      assert Upper(run.symbol.value)[0] == UpperChar(run.symbol.value[0]) != 'u';
    }
  }

  lemma FirstColon(x: string, t: string, y: string, u: string)
    requires ':' !in x && ':' !in y && x + ":" + t == y + ":" + u
    ensures x == y && t == u
  {
    var s := x + ":" + t;
    assert s[|x|] == ':' && s[|y|] == ':';
    assert x == s[..|x|] && t == s[|x| + 1..];
    assert s == y + ":" + u && y == s[..|y|] && u == s[|y| + 1..];
  }

  predicate KeepsChar(c: char) { 'a' <= c <= 'z' || 'A' <= c <= 'Z' || IsDigit(c) || c == '.' || c == '_' || c == '-' }

  // re.sub(r"[^a-zA-Z0-9._-]+", "_", s): each maximal run of other characters becomes one '_'.
  function Collapse(s: string): string {
    if s == "" then ""
    else if KeepsChar(s[0]) then [s[0]] + Collapse(s[1..])
    else if |s| > 1 && !KeepsChar(s[1]) then Collapse(s[1..])
    else "_" + Collapse(s[1..])
  }

  // _sanitize_shard_id
  function Sanitize(key: string): string {
    var s := Collapse(Lower(Strip(key)));
    if s == "" then "shard" else s
  }

  function RunsWithKey(runs: seq<RunConfig>, split: SplitBy, key: string): seq<RunConfig> {
    if runs == [] then []
    else
      RunsWithKey(runs[..|runs| - 1], split, key) +
      if GroupKey(runs[|runs| - 1], split) == key then [runs[|runs| - 1]] else []
  }

  function Keys(runs: seq<RunConfig>, split: SplitBy): (r: seq<string>)
    ensures |r| == |runs|
  {
    seq(|runs|, i requires 0 <= i < |runs| => GroupKey(runs[i], split))
  }

  lemma NoRuns(split: SplitBy)
    ensures forall k :: RunsWithKey([], split, k) == []
  {
  }

  lemma RunsStep(runs: seq<RunConfig>, split: SplitBy, i: nat)
    requires i < |runs|
    ensures forall k :: RunsWithKey(runs[..i + 1], split, k)
                        == if GroupKey(runs[i], split) == k then RunsWithKey(runs[..i], split, k) + [runs[i]]
                           else RunsWithKey(runs[..i], split, k)
  {
    hide GroupKey;
    assert runs[..i + 1][..i] == runs[..i];
  }

  method CollectRunsBySplit(runs: seq<RunConfig>, split: SplitBy) returns (grouped: map<string, seq<RunConfig>>)
    requires UniqueRunIds(runs)
    ensures forall k :: k in grouped <==> RunsWithKey(runs, split, k) != []
    ensures forall k | k in grouped :: grouped[k] == RunsWithKey(runs, split, k)
  {
    hide GroupKey, UniqueRunIds, RunsWithKey;
    grouped := map[];
    NoRuns(split);
    for i := 0 to |runs|
      invariant forall k :: k in grouped <==> RunsWithKey(runs[..i], split, k) != []
      invariant forall k | k in grouped :: grouped[k] == RunsWithKey(runs[..i], split, k)
    {
      var key := GroupKey(runs[i], split);
      RunsStep(runs, split, i);
      grouped := grouped[key := (if key in grouped then grouped[key] else []) + [runs[i]]];
    }
    assert runs[..|runs|] == runs;
  }

  // The plan's shard ids, and the config file left at each id once all are written.
  datatype Plan = Plan(shards: seq<string>, files: map<string, Config>)

  function SortedKeys(runs: seq<RunConfig>, split: SplitBy): seq<string> { SortedDistinct(StrLe, Keys(runs, split)) }

  function ShardIds(keys: seq<string>): (r: seq<string>)
    ensures |r| == |keys|
  {
    seq(|keys|, i requires 0 <= i < |keys| => Sanitize(keys[i]))
  }

  // Config files are written in key order: a later key with the same id overwrites.
  function ShardFiles(config: Config, split: SplitBy, keys: seq<string>): map<string, Config> {
    if keys == [] then map[]
    else
      var key := keys[|keys| - 1];
      ShardFiles(config, split, keys[..|keys| - 1])[Sanitize(key) := Config(config.globals, RunsWithKey(config.runs, split, key))]
  }

  method PlanShards(config: Config, split: SplitBy) returns (plan: Plan)
    requires UniqueRunIds(config.runs)
    ensures plan == Plan(ShardIds(SortedKeys(config.runs, split)), ShardFiles(config, split, SortedKeys(config.runs, split)))
  {
    hide RunsWithKey, Sanitize, SortedKeys, UniqueRunIds;
    var grouped := CollectRunsBySplit(config.runs, split);
    var keys := SortedKeys(config.runs, split);
    SortedKeysSpec(config.runs, split);
    var shards: seq<string>, files: map<string, Config> := [], map[];
    for i := 0 to |keys|
      invariant shards == ShardIds(keys)[..i]
      invariant files == ShardFiles(config, split, keys[..i])
    {
      assert keys[i] in keys;
      KeyHasRuns(config.runs, split, keys[i]);
      assert keys[..i + 1][..i] == keys[..i];
      var id := Sanitize(keys[i]);
      files := files[id := Config(config.globals, grouped[keys[i]])];
      shards := shards + [id];
    }
    assert keys[..|keys|] == keys;
    plan := Plan(shards, files);
  }

  lemma KeyHasRuns(runs: seq<RunConfig>, split: SplitBy, key: string)
    requires key in Keys(runs, split)
    ensures RunsWithKey(runs, split, key) != []
  {
    var i :| 0 <= i < |runs| && Keys(runs, split)[i] == key;
    RunsWithKeySpec(runs, split, key);
    assert runs[i] in runs;
  }

  // ---------- execution and merge

  // What one executed shard leaves: its report file without the record lists, and its artifacts.
  datatype ShardOutput = ShardOutput(stored: seq<RunResult>, artifacts: Files)

  function Persist(results: seq<RunResult>): ShardOutput {
    ShardOutput(seq(|results|, i requires 0 <= i < |results| => Stripped(results[i])), WriteArtifacts(FRESH, results))
  }

  // Every planned shard runs the config file at its id; shards with one id write one output.
  function ExecuteShards(oracle: Oracle, plan: Plan): map<string, ShardOutput> {
    map id | id in plan.files :: Persist(Results(oracle, plan.files[id].globals, plan.files[id].runs))
  }

  function MergedResults(shards: seq<string>, outputs: map<string, ShardOutput>): Option<seq<RunResult>> {
    if shards == [] then Some([])
    else
      var init, id := shards[..|shards| - 1], shards[|shards| - 1];
      match MergedResults(init, outputs)
      case None => None
      case Some(results) =>
        if id in outputs then Some(results + HydrateAll(outputs[id].stored, outputs[id].artifacts)) else None
  }

  // None models the FileNotFoundError of a shard that left no report.
  method MergeShardReports(shards: seq<string>, outputs: map<string, ShardOutput>) returns (report: Option<Report>)
    ensures report == match MergedResults(shards, outputs) case None => None case Some(results) => Some(ReportOf(results))
  {
    var results: seq<RunResult> := [];
    for i := 0 to |shards|
      invariant MergedResults(shards[..i], outputs) == Some(results)
    {
      assert shards[..i + 1][..i] == shards[..i];
      if shards[i] !in outputs {
        MissingShard(shards, outputs, i);
        return None;
      }
      var hydrated := HydrateReport(outputs[shards[i]].stored, outputs[shards[i]].artifacts);
      results := results + hydrated;
    }
    assert shards[..|shards|] == shards;
    var merged := Tally(results);
    report := Some(merged);
  }

  lemma {:induction false} MissingShard(shards: seq<string>, outputs: map<string, ShardOutput>, i: nat)
    requires i < |shards| && shards[i] !in outputs
    ensures MergedResults(shards, outputs).None?
  {
    if i < |shards| - 1 {
      MissingShard(shards[..|shards| - 1], outputs, i);
    }
  }

  // The whole sharded pipeline.
  method RunSharded(oracle: Oracle, config: Config, split: SplitBy) returns (report: Option<Report>)
    requires UniqueRunIds(config.runs)
    ensures report == match ShardedResults(oracle, config, split) case None => None case Some(results) => Some(ReportOf(results))
  {
    var plan := PlanShards(config, split);
    report := MergeShardReports(plan.shards, ExecuteShards(oracle, plan));
  }

  function ShardedResults(oracle: Oracle, config: Config, split: SplitBy): Option<seq<RunResult>> {
    var keys := SortedKeys(config.runs, split);
    var plan := Plan(ShardIds(keys), ShardFiles(config, split, keys));
    MergedResults(plan.shards, ExecuteShards(oracle, plan))
  }

  // ---------- sharding preserves meaning

  lemma SortedKeysSpec(runs: seq<RunConfig>, split: SplitBy)
    ensures Increasing(StrLe, SortedKeys(runs, split))
    ensures forall k :: k in SortedKeys(runs, split) <==> k in Keys(runs, split)
  {
    StrLeTotal();
    SortedDistinctSpec(StrLe, Keys(runs, split));
  }

  // The last key, in writing order, that owns a shard id.
  function Owner(keys: seq<string>, id: string): Option<string> {
    if keys == [] then None
    else if Sanitize(keys[|keys| - 1]) == id then Some(keys[|keys| - 1])
    else Owner(keys[..|keys| - 1], id)
  }

  lemma {:induction false} OwnerSpec(config: Config, split: SplitBy, keys: seq<string>, id: string)
    ensures id in ShardFiles(config, split, keys) <==> Owner(keys, id).Some?
    ensures Owner(keys, id).Some? ==>
              && Owner(keys, id).value in keys && Sanitize(Owner(keys, id).value) == id
              && ShardFiles(config, split, keys)[id] == Config(config.globals, RunsWithKey(config.runs, split, Owner(keys, id).value))
    ensures Owner(keys, id).None? ==> forall k | k in keys :: Sanitize(k) != id
  {
    if keys != [] {
      OwnerSpec(config, split, keys[..|keys| - 1], id);
    }
  }

  // The runs each shard in turn executes.
  function ExecutedRuns(config: Config, split: SplitBy, all: seq<string>, keys: seq<string>): seq<RunConfig> {
    if keys == [] then []
    else
      var owner := Owner(all, Sanitize(keys[|keys| - 1]));
      ExecutedRuns(config, split, all, keys[..|keys| - 1])
      + if owner.Some? then RunsWithKey(config.runs, split, owner.value) else []
  }

  lemma {:induction false} RunsWithKeySpec(runs: seq<RunConfig>, split: SplitBy, key: string)
    ensures UniqueRunIds(runs) ==> UniqueRunIds(RunsWithKey(runs, split, key))
    ensures forall r :: r in RunsWithKey(runs, split, key) <==> r in runs && GroupKey(r, split) == key
  {
    if runs != [] {
      var init, last := runs[..|runs| - 1], runs[|runs| - 1];
      RunsWithKeySpec(init, split, key);
      assert forall r :: r in runs <==> r in init || r == last;
      if UniqueRunIds(runs) {
        var kept := RunsWithKey(init, split, key);
        forall i | 0 <= i < |kept|
          ensures kept[i].runId != last.runId
        {
          assert kept[i] in init;
          var j :| 0 <= j < |init| && init[j] == kept[i];
          assert runs[j] == kept[i];
        }
      }
    }
  }

  lemma DistinctResults(oracle: Oracle, globals: string, runs: seq<RunConfig>)
    requires KeepsIds(oracle) && UniqueRunIds(runs)
    ensures DistinctIds(Results(oracle, globals, runs))
  {
  }

  lemma ResultsAppend(oracle: Oracle, globals: string, a: seq<RunConfig>, b: seq<RunConfig>)
    ensures Results(oracle, globals, a + b) == Results(oracle, globals, a) + Results(oracle, globals, b)
  {
  }

  // A persisted shard reads back as the results it had.
  lemma PersistRoundTrip(results: seq<RunResult>)
    requires DistinctIds(results)
    ensures HydrateAll(Persist(results).stored, Persist(results).artifacts) == results
  {
    RoundTrip(results, Persist(results).stored);
  }

  // What the merge reads back at the shard id of a planned key.
  lemma ShardReadsBack(oracle: Oracle, config: Config, split: SplitBy, all: seq<string>, key: string)
    requires KeepsIds(oracle) && UniqueRunIds(config.runs) && key in all
    ensures var outputs := ExecuteShards(oracle, Plan(ShardIds(all), ShardFiles(config, split, all)));
            && Owner(all, Sanitize(key)).Some? && Sanitize(key) in outputs
            && HydrateAll(outputs[Sanitize(key)].stored, outputs[Sanitize(key)].artifacts)
               == Results(oracle, config.globals, RunsWithKey(config.runs, split, Owner(all, Sanitize(key)).value))
  {
    OwnerSpec(config, split, all, Sanitize(key));
    var runs := RunsWithKey(config.runs, split, Owner(all, Sanitize(key)).value);
    RunsWithKeySpec(config.runs, split, Owner(all, Sanitize(key)).value);
    DistinctResults(oracle, config.globals, runs);
    PersistRoundTrip(Results(oracle, config.globals, runs));
  }

  // The merged results are those of the executed runs, in plan order.
  lemma {:induction false} MergedIsExecuted(oracle: Oracle, config: Config, split: SplitBy, all: seq<string>,
                                            keys: seq<string>, outputs: map<string, ShardOutput>)
    requires KeepsIds(oracle) && UniqueRunIds(config.runs)
    requires forall k | k in keys :: k in all
    requires outputs == ExecuteShards(oracle, Plan(ShardIds(all), ShardFiles(config, split, all)))
    ensures MergedResults(ShardIds(keys), outputs)
            == Some(Results(oracle, config.globals, ExecutedRuns(config, split, all, keys)))
  {
    hide Sanitize, ExecuteShards, HydrateAll, Results, RunsWithKey, KeepsIds, UniqueRunIds;
    if keys != [] {
      var init, key := keys[..|keys| - 1], keys[|keys| - 1];
      assert key in keys && forall k | k in init :: k in keys;
      MergedIsExecuted(oracle, config, split, all, init, outputs);
      assert ShardIds(keys)[..|keys| - 1] == ShardIds(init);
      ShardReadsBack(oracle, config, split, all, key);
      ResultsAppend(oracle, config.globals, ExecutedRuns(config, split, all, init),
                    RunsWithKey(config.runs, split, Owner(all, Sanitize(key)).value));
    }
  }

  lemma ShardedIsExecuted(oracle: Oracle, config: Config, split: SplitBy)
    requires KeepsIds(oracle) && UniqueRunIds(config.runs)
    ensures var keys := SortedKeys(config.runs, split);
            ShardedResults(oracle, config, split) == Some(Results(oracle, config.globals, ExecutedRuns(config, split, keys, keys)))
  {
    var keys := SortedKeys(config.runs, split);
    MergedIsExecuted(oracle, config, split, keys, keys,
                     ExecuteShards(oracle, Plan(ShardIds(keys), ShardFiles(config, split, keys))));
  }

  // The guard: no two group keys share a sanitised id.
  ghost predicate DistinctShardIds(runs: seq<RunConfig>, split: SplitBy) {
    forall a, b | a in Keys(runs, split) && b in Keys(runs, split) && Sanitize(a) == Sanitize(b) :: a == b
  }

  // The number of runs kept for each of distinct keys adds up.
  function GroupedRuns(runs: seq<RunConfig>, split: SplitBy, keys: seq<string>): seq<RunConfig> {
    if keys == [] then []
    else GroupedRuns(runs, split, keys[..|keys| - 1]) + RunsWithKey(runs, split, keys[|keys| - 1])
  }

  lemma RunsOneMore(runs: seq<RunConfig>, split: SplitBy, key: string)
    requires runs != []
    ensures multiset(RunsWithKey(runs, split, key))
            == multiset(RunsWithKey(runs[..|runs| - 1], split, key))
               + if GroupKey(runs[|runs| - 1], split) == key then multiset{runs[|runs| - 1]} else multiset{}
  {
  }

  lemma {:induction false} GroupedOneMore(runs: seq<RunConfig>, split: SplitBy, keys: seq<string>)
    requires runs != [] && forall i, j | 0 <= i < j < |keys| :: keys[i] != keys[j]
    ensures multiset(GroupedRuns(runs, split, keys))
            == multiset(GroupedRuns(runs[..|runs| - 1], split, keys))
               + if GroupKey(runs[|runs| - 1], split) in keys then multiset{runs[|runs| - 1]} else multiset{}
  {
    hide GroupKey, RunsWithKey;
    if keys != [] {
      var init, key := keys[..|keys| - 1], keys[|keys| - 1];
      GroupedOneMore(runs, split, init);
      assert keys == init + [key];
      assert key !in init;
      RunsOneMore(runs, split, key);
    }
  }

  lemma {:induction false} NoRunsNoGroups(split: SplitBy, keys: seq<string>)
    ensures GroupedRuns([], split, keys) == []
  {
    if keys != [] {
      NoRunsNoGroups(split, keys[..|keys| - 1]);
    }
  }

  lemma {:induction false} GroupsPermute(runs: seq<RunConfig>, split: SplitBy, keys: seq<string>)
    requires forall i, j | 0 <= i < j < |keys| :: keys[i] != keys[j]
    requires forall r | r in runs :: GroupKey(r, split) in keys
    ensures multiset(GroupedRuns(runs, split, keys)) == multiset(runs)
  {
    if runs == [] {
      NoRunsNoGroups(split, keys);
    } else {
      var init := runs[..|runs| - 1];
      assert runs == init + [runs[|runs| - 1]];
      assert forall r | r in init :: r in runs;
      GroupsPermute(init, split, keys);
      GroupedOneMore(runs, split, keys);
    }
  }

  lemma {:induction false} DistinctOwners(config: Config, split: SplitBy, all: seq<string>, keys: seq<string>)
    requires forall a, b | a in all && b in all && Sanitize(a) == Sanitize(b) :: a == b
    requires forall k | k in keys :: k in all
    ensures ExecutedRuns(config, split, all, keys) == GroupedRuns(config.runs, split, keys)
  {
    if keys != [] {
      var init, key := keys[..|keys| - 1], keys[|keys| - 1];
      assert key in keys && forall k | k in init :: k in keys;
      DistinctOwners(config, split, all, init);
      OwnerSpec(config, split, all, Sanitize(key));
    }
  }

  lemma {:induction false} ResultsOfPermutation(oracle: Oracle, globals: string, a: seq<RunConfig>, b: seq<RunConfig>)
    requires multiset(a) == multiset(b)
    ensures multiset(Results(oracle, globals, a)) == multiset(Results(oracle, globals, b))
  {
    if a == [] {
      assert |multiset(b)| == |b|;
    } else {
      var i := FirstInPermutation(a, b);
      var rest := b[..i] + b[i + 1..];
      ResultsOfPermutation(oracle, globals, a[1..], rest);
      ResultsAppend(oracle, globals, b[..i], b[i + 1..]);
      ResultsAppend(oracle, globals, b[..i], [b[i]] + b[i + 1..]);
      ResultsAppend(oracle, globals, [b[i]], b[i + 1..]);
      ResultsAppend(oracle, globals, [a[0]], a[1..]);
    }
  }

  lemma {:induction false} CountOfPermutation(a: seq<RunResult>, b: seq<RunResult>)
    requires multiset(a) == multiset(b)
    ensures |a| == |b| && CountSuccess(a) == CountSuccess(b)
  {
    assert |multiset(a)| == |a| && |multiset(b)| == |b|;
    if a != [] {
      var i := FirstInPermutation(a, b);
      var rest := b[..i] + b[i + 1..];
      CountOfPermutation(a[1..], rest);
      CountAppend(b[..i], b[i + 1..]);
      CountAppend(b[..i], [b[i]] + b[i + 1..]);
      assert ([b[i]] + b[i + 1..])[1..] == b[i + 1..];
    }
  }

  // Sharding preserves meaning: with distinct sanitised ids, planning for any split, executing
  // every shard and merging gives a permutation of the unsharded results and the same tallies.
  lemma ShardingPreservesMeaning(oracle: Oracle, config: Config, split: SplitBy)
    requires KeepsIds(oracle) && UniqueRunIds(config.runs) && DistinctShardIds(config.runs, split)
    ensures ShardedResults(oracle, config, split).Some?
    ensures var sharded := ReportOf(ShardedResults(oracle, config, split).value);
            var plain := ReportOf(Results(oracle, config.globals, config.runs));
            && multiset(sharded.results) == multiset(plain.results)
            && sharded.total == plain.total && sharded.successful == plain.successful
            && sharded.failed == plain.failed && sharded.status == plain.status
  {
    var keys := SortedKeys(config.runs, split);
    SortedKeysSpec(config.runs, split);
    ShardedIsExecuted(oracle, config, split);
    DistinctOwners(config, split, keys, keys);
    forall r | r in config.runs
      ensures GroupKey(r, split) in keys
    {
      var i :| 0 <= i < |config.runs| && config.runs[i] == r;
      assert Keys(config.runs, split)[i] == GroupKey(r, split);
    }
    GroupsPermute(config.runs, split, keys);
    ResultsOfPermutation(oracle, config.globals, GroupedRuns(config.runs, split, keys), config.runs);
    CountOfPermutation(Results(oracle, config.globals, GroupedRuns(config.runs, split, keys)),
                       Results(oracle, config.globals, config.runs));
  }

  // ---------- the guard is exact

  lemma {:induction false} ExecutedKeys(config: Config, split: SplitBy, all: seq<string>, keys: seq<string>, run: RunConfig)
    requires run in ExecutedRuns(config, split, all, keys)
    ensures Owner(all, Sanitize(GroupKey(run, split))) == Some(GroupKey(run, split))
  {
    var init, key := keys[..|keys| - 1], keys[|keys| - 1];
    if run in ExecutedRuns(config, split, all, init) {
      ExecutedKeys(config, split, all, init, run);
    } else {
      OwnerSpec(config, split, all, Sanitize(key));
      RunsWithKeySpec(config.runs, split, Owner(all, Sanitize(key)).value);
    }
  }

  lemma {:induction false} ExecutedAreConfigured(config: Config, split: SplitBy, all: seq<string>, keys: seq<string>)
    ensures forall r | r in ExecutedRuns(config, split, all, keys) :: r in config.runs
  {
    if keys != [] {
      ExecutedAreConfigured(config, split, all, keys[..|keys| - 1]);
      var owner := Owner(all, Sanitize(keys[|keys| - 1]));
      if owner.Some? {
        RunsWithKeySpec(config.runs, split, owner.value);
      }
    }
  }

  // A run whose key lost its shard id to another key is missing from the merge.
  lemma LostRun(oracle: Oracle, config: Config, split: SplitBy, all: seq<string>, run: RunConfig)
    requires KeepsIds(oracle) && UniqueRunIds(config.runs) && run in config.runs
    requires Owner(all, Sanitize(GroupKey(run, split))) != Some(GroupKey(run, split))
    ensures ResultOf(oracle, config.globals, run) in Results(oracle, config.globals, config.runs)
    ensures ResultOf(oracle, config.globals, run) !in Results(oracle, config.globals, ExecutedRuns(config, split, all, all))
  {
    hide Sanitize, GroupKey, Owner, ExecutedRuns;
    var i :| 0 <= i < |config.runs| && config.runs[i] == run;
    assert Results(oracle, config.globals, config.runs)[i] == ResultOf(oracle, config.globals, run);
    var executed := ExecutedRuns(config, split, all, all);
    ExecutedAreConfigured(config, split, all, all);
    forall j | 0 <= j < |executed|
      ensures ResultOf(oracle, config.globals, executed[j]) != ResultOf(oracle, config.globals, run)
    {
      ExecutedKeys(config, split, all, all, executed[j]);
      assert executed[j] in config.runs && executed[j] != run;
      var m :| 0 <= m < |config.runs| && config.runs[m] == executed[j];
      assert config.runs[m].runId != config.runs[i].runId;
    }
  }

  // Sharding gives a permutation of the unsharded results if and only if the sanitised ids of
  // the group keys are distinct.
  lemma PermutationIffDistinctIds(oracle: Oracle, config: Config, split: SplitBy)
    requires KeepsIds(oracle) && UniqueRunIds(config.runs)
    ensures ShardedResults(oracle, config, split).Some?
    ensures multiset(ShardedResults(oracle, config, split).value) == multiset(Results(oracle, config.globals, config.runs))
            <==> DistinctShardIds(config.runs, split)
  {
    ShardedIsExecuted(oracle, config, split);
    if DistinctShardIds(config.runs, split) {
      ShardingPreservesMeaning(oracle, config, split);
    } else {
      var a, b :| a in Keys(config.runs, split) && b in Keys(config.runs, split) && Sanitize(a) == Sanitize(b) && a != b;
      var all := SortedKeys(config.runs, split);
      var lost := if Owner(all, Sanitize(a)) == Some(a) then b else a;
      var i :| 0 <= i < |config.runs| && Keys(config.runs, split)[i] == lost;
      LostRun(oracle, config, split, all, config.runs[i]);
      var r := ResultOf(oracle, config.globals, config.runs[i]);
      assert r in multiset(Results(oracle, config.globals, config.runs));
      assert r !in multiset(ShardedResults(oracle, config, split).value);
    }
  }

  // A run of other characters, however long, becomes one '_'.
  lemma {:induction false} CollapseRun(run: string, rest: string)
    requires run != "" && (forall i | 0 <= i < |run| :: !KeepsChar(run[i])) && (rest != "" ==> KeepsChar(rest[0]))
    ensures Collapse(run + rest) == "_" + Collapse(rest)
    decreases |run|
  {
    var s := run + rest;
    assert s[1..] == run[1..] + rest;
    if |run| > 1 {
      assert s[1] == run[1];
      CollapseRun(run[1..], rest);
    } else {
      assert s[1..] == rest;
    }
  }

  // A shard id is never empty and holds only what a file name keeps, in lower case.
  lemma SanitizeIsFileName(key: string)
    ensures Sanitize(key) != "" && forall i | 0 <= i < |Sanitize(key)| :: KeepsChar(Sanitize(key)[i]) && LowerChar(Sanitize(key)[i]) == Sanitize(key)[i]
  {
    var s := Lower(Strip(key));
    assert forall i | 0 <= i < |s| :: LowerChar(s[i]) == s[i];
    CollapseKeepsLower(s);
  }

  lemma {:induction false} CollapseKeepsLower(s: string)
    requires forall i | 0 <= i < |s| :: LowerChar(s[i]) == s[i]
    ensures forall i | 0 <= i < |Collapse(s)| :: KeepsChar(Collapse(s)[i]) && LowerChar(Collapse(s)[i]) == Collapse(s)[i]
  {
    if s != "" {
      CollapseKeepsLower(s[1..]);
    }
  }

  // Distinct keys may share an id: any character a file name does not keep becomes '_'.
  lemma SanitizeCollides(a: string, b: string, c: char)
    requires a != "" && b != "" && !KeepsChar(c)
    requires (forall i | 0 <= i < |a| :: PlainChar(a[i])) && (forall i | 0 <= i < |b| :: PlainChar(b[i]))
    ensures Sanitize(a + [c] + b) == Sanitize(a + "_" + b) == a + "_" + b
  {
    SanitizeJoined(a, b, c);
    SanitizeJoined(a, b, '_');
  }

  predicate PlainChar(c: char) { KeepsChar(c) && !IsSpace(c) && LowerChar(c) == c }

  lemma SanitizeJoined(a: string, b: string, c: char)
    requires a != "" && b != "" && (!KeepsChar(c) || c == '_')
    requires (forall i | 0 <= i < |a| :: PlainChar(a[i])) && (forall i | 0 <= i < |b| :: PlainChar(b[i]))
    ensures Sanitize(a + [c] + b) == a + "_" + b
  {
    var s := a + [c] + b;
    assert s[0] == a[0] && s[|s| - 1] == b[|b| - 1];
    assert PlainChar(a[0]) && PlainChar(b[|b| - 1]);
    StripFixed(s);
    assert Lower(s) == s by {
      assert Lower(s) == Lower(a) + [LowerChar(c)] + Lower(b);
      assert Lower(a) == a && Lower(b) == b;
    }
    CollapseJoined(a, b, c);
  }

  lemma CollapseJoined(a: string, b: string, c: char)
    requires b != "" && (!KeepsChar(c) || c == '_')
    requires (forall i | 0 <= i < |a| :: KeepsChar(a[i])) && (forall i | 0 <= i < |b| :: KeepsChar(b[i]))
    ensures Collapse(a + [c] + b) == a + "_" + b
  {
    hide Collapse;
    CollapseAll(b);
    CollapseOne(b, c);
    CollapseKept(a, [c] + b);
    assert a + [c] + b == a + ([c] + b);
  }

  lemma {:induction false} CollapseAll(b: string)
    requires forall i | 0 <= i < |b| :: KeepsChar(b[i])
    ensures Collapse(b) == b
  {
    CollapseKept(b, "");
    assert b + "" == b;
  }

  lemma CollapseOne(b: string, c: char)
    requires b != "" && (!KeepsChar(c) || c == '_') && KeepsChar(b[0])
    ensures Collapse([c] + b) == "_" + Collapse(b)
  {
  }

  lemma {:induction false} CollapseKept(a: string, rest: string)
    requires forall i | 0 <= i < |a| :: KeepsChar(a[i])
    ensures Collapse(a + rest) == a + Collapse(rest)
  {
    if a == "" {
      assert a + rest == rest;
    } else {
      assert (a + rest)[1..] == a[1..] + rest;
      CollapseKept(a[1..], rest);
    }
  }
}
