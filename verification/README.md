# Verification of the trading platform's algorithms

Dafny models of the self-contained algorithms of a backtesting and live-trading platform, with
proofs about all inputs, all runs or all reachable states. Check everything with
`dafny verify dfyconfig.toml`.

What is modelled, one module per component:

- **Live protocol** (`Leases`, `Backend`, `JsonText`, `LiveKeys`, `LiveRuns`, `LiveStores`,
  `Publisher`):
  symbol leases, shard assignments, heartbeats and control flags kept by several workers in one flat
  string-keyed store. The flat store refines independent typed maps; with one clock, leases are
  mutually exclusive over whole runs; published shards partition the active symbols exactly when no
  stale shard is left.
- **Sharded backtests** (`BacktestSharding`, `Artifacts`): planning shards, executing each one,
  persisting it without its record lists, hydrating and merging. The result is a permutation of the
  unsharded one.
- **Dataset shard planning** (`DatasetSharding`): normalised symbols, the estimated shard count,
  greedy least-loaded grouping, the per-shard cap and the validators.
- **Point-in-time features** (`Features`; `FeatureMeaning`, `FeatureHistories` and `FeatureRows` say
  what every value of a record is, from the positions of the bars) and **walk-forward splits** (`DailyWalkForward`,
  `IntradayWalkForward`): nothing is learned from data after the decision, and no fold leaks.
- **Equity and reports** (`EquityCurves`, `Sampling`, `Metrics`, `Diagnostics`): the k-way
  forward-fill merge, drawdown, samplers, histograms and per-reason totals.
- **Live execution and sizing** (`Executor`, `Sizing`): the bar-by-bar executor against a broker,
  and the position sizing rule.
- **Progress** (`Progress`, `ProgressStatus`): percentages of a run, the `n/total` text, the
  throttled writer, and the weighted percentage of a sharded workflow.

`Common`, `Ordering`, `Text` and `Rounding` hold what Python's built-ins do: `min`, `math.ceil`,
`sorted(set(...))`, `str.strip`, `int`, and `round` to the nearest even.

Code that changes state is a class with `modifies` clauses or a method with loops, tied by its
postcondition to a specification function; the properties are proved about those functions. Lemmas
whose names end in `Meaning` state what such a function computes without its body: a value by the
equation it solves, a list by its elements and their order, a choice by the condition it is made on.

## What the proofs found

The model follows the code. Where a property the code aims at is not met on every input, the exact
condition is proved, with a witness:

- The feature builder drops the last benchmark return as "today's". When today's benchmark session has
  no return, the one dropped is yesterday's, so the record shows whether it has one. That can depend
  on data after the decision: a benchmark session that first trades after it
  (`Features.LateSessionShows`), or an opening price of zero (`Features.LookAheadExists`). The records
  agree exactly when that is known (`Features.BenchmarkHistoryIff`).
- Shards whose group keys sanitise to one id overwrite each other and their runs are lost
  (`BacktestSharding.PermutationIffDistinctIds`).
- Publishing with fewer shards leaves the old shard keys in place
  (`Publisher.PublishesPartition`, and on the flat store `Publisher.FlatPublishesPartition`).
- The second "not enough sessions" guard of the daily folds cannot fire for a positive holdout, but
  the function never checks that the holdout is positive: it fires for 0, -1 and -2
  (`DailyWalkForward.GuardAfterScalingIff`).
- The intraday fold loop does not end on a frame without rows or with a zero step, when a first test
  window exists; a negative step walks back until pandas' bound on timestamps stops it
  (`IntradayWalkForward.TerminatesIff`). Its caller rejects all three.
- `downsample_equity_curve` divides by zero for `max_points == 2` and a longer curve
  (`Sampling.DownsampleEquityCurve`).
- A control flag stored as the text `1` never enables anything, although `1` is in the list of enabling
  words: it is JSON, for a number (`LiveStores.OneIsNotEnabled`). `LiveStores.EnabledIff` says for every
  stored text whether it enables.
- Hydrating replaces the trades of every result, so they are lost without their file, unlike every
  other list. It leaves a result alone exactly under the condition of `Artifacts.HydrateKeepsIff`.
- Costs are taken off the signed prediction, so they enlarge the edge of a short: an opened short
  clears the threshold after costs only when its edge exceeds it by two round trips
  (`Sizing.OpenedClearsCostIff`), and a small rising prediction opens one (`Sizing.ShortsARiseIff`).
- Closing a short position sells its absolute size again and doubles it (`Executor.DecisionEffect`).
- The last-bar check of the executor compares for equality only: a bar is handled twice exactly when
  its time comes back after a different one (`Executor.BarsHandledOnceIff`,
  `Executor.UnorderedBarsRepeat`).
- The one-pass drawdown misses larger drops at some negative equity values, and nowhere else
  (`EquityCurves.PeakDropIsLargestIff`).
- With skewed clocks a superseded worker stops within twice the skew (`Leases.SupersededWorkerStops`),
  but two workers can take a symbol from each other for ever and overlap all the time
  (`Leases.OverlapIsUnbounded`).
- The aggregate workflow node can take the weighted percentage back
  (`ProgressStatus.AggregateTakesOver`).
- `acquire` is a read followed by a write. If two workers' calls interleave, both hold the symbol
  (`Leases.InterleavedAcquiresBothHold`).

## Model

| member | source | states |
|---|---|---|
| Leases.GrantInvariant | src/app/live/leases.py:26-59 | a write by acquire (only over an absent or expired lease) or by renew (only over the worker's own) keeps every belief accounted for: it is the stored record, or it had expired, up to the skew, before the symbol's last takeover |
| Leases.StepInvariant | src/app/live/leases.py:26-65 | every acquire, renew or release, granted or refused, keeps that invariant |
| Leases.RunInvariant | src/app/live/leases.py:26-65 | so does every run of many workers whose clocks stay within the skew of true time |
| Leases.OverlapNeedsRecentTakeover | src/app/live/leases.py:26-65 | after any run from any store, two workers both take themselves to hold a symbol only less than 2 * skew after its last takeover |
| Leases.TakeoverExpiresBelief | src/app/live/leases.py:26-41 | what any worker believed before an acquire takes a symbol over at t0 expires by t0 + skew |
| Leases.SupersededWorkerStops | src/app/live/leases.py:26-65 | once another worker's acquire takes the symbol over at t0, a worker takes itself to hold it only before t0 + 2 * skew, until it is granted the symbol again |
| Leases.OverlapIsUnbounded | src/app/live/leases.py:26-41 | for every positive skew and every n some valid run of n takeovers keeps two workers both holding the symbol at every instant |
| Leases.MutualExclusion | src/app/live/leases.py:26-65 | with one clock, no two workers hold unexpired granted leases on a symbol, although renew ignores expiry |
| Leases.OverlapBoundIsTight | src/app/live/leases.py:26-59 | for every positive skew a run exists with two holders at the last moment the bound allows |
| Leases.InterleavedAcquiresBothHold | src/app/live/leases.py:26-41 | two acquires that both read before either writes both succeed; as atomic steps the second is refused |
| Leases.StepMeaning | src/app/live/leases.py:26-65 | a granted acquire stores its own data, a granted renewal the stored lease with the new times and version; the worker is told exactly that lease; a refusal changes nothing, a release removes only the worker's own lease, and no other symbol changes |
| Leases.LeaseStands | src/app/live/leases.py:26-65 | until its worker releases or renews it, a stored lease stands and every acquire of its symbol stamped before its expiry is refused |
| Leases.GrantLasts | src/app/live/leases.py:26-65 | after a granted acquire or renewal nobody takes the symbol over, and the worker holds it, up to the expiry it asked for less the skew, unless it releases or renews |
| Backend.ScanUnique | src/app/live/assignments.py:46-51 | a scan has one result: the sorted keys, of values or sets, that match the pattern |
| Backend.InMemoryRedisBackend.Get | src/app/live/assignments.py:30-31 | the value last set at a key and not deleted since |
| Backend.InMemoryRedisBackend.Set | src/app/live/assignments.py:33-34 | changes one value and no set |
| Backend.InMemoryRedisBackend.Delete | src/app/live/assignments.py:36-38 | removes the key from the values and from the sets |
| Backend.InMemoryRedisBackend.SetMembers | src/app/live/assignments.py:40-41 | replaces one set and no value |
| Backend.InMemoryRedisBackend.GetMembers | src/app/live/assignments.py:43-44 | the members, or the empty set for a missing key |
| Backend.InMemoryRedisBackend.ScanKeys | src/app/live/assignments.py:46-51 | the sorted listing of exactly the matching keys of both dictionaries |
| LiveKeys.RenderInjective | src/app/live/assignments.py:147-154 | lease, assignment, heartbeat and control keys under one prefix never share a slot, whatever ids they contain |
| LiveKeys.LeaseLookupsAgree | src/app/live/leases.py:67-80 | the lease read from the flat store is the one in the typed lease map |
| LiveKeys.PublishRefines | src/app/live/assignments.py:94-97 | a publish on the flat store changes the version and the written shards of the typed maps and nothing else |
| LiveKeys.StepRefines | src/app/live/assignments.py:25-51 | every lease, publish, heartbeat or flag operation gives the reply of the typed maps and keeps the flat store in step with them |
| LiveKeys.RunRefines | src/app/live/assignments.py:25-154 | every interleaving of them, of any length, gets the same replies in order and stays in step |
| LiveKeys.EmptyRefines | src/app/live/assignments.py:26-28 | a new backend is the empty typed maps |
| LiveRuns.LeaseStepMatches | src/app/live/leases.py:26-65 | a lease step on the flat store is a step of the lease protocol |
| LiveRuns.OtherStepMatches | src/app/live/assignments.py:94-114 | any other live operation leaves every lease and belief alone |
| LiveRuns.LiveLeasesAreExclusive | src/app/live/leases.py:26-65 | with publishes, heartbeats and flags interleaved at will on the flat store, two workers overlap on a symbol only within 2 * skew of its last takeover, and never without skew |
| LiveRuns.SupersededLiveWorkerStops | src/app/live/leases.py:26-65 | on the flat store too, a worker that lost a symbol at t0 takes itself to hold it only before t0 + 2 * skew, until granted again |
| LiveRuns.LiveStepMeaning | src/app/live/leases.py:26-80 | what each lease call stores, refuses and leaves alone, by the lookups of the flat store |
| LiveRuns.LiveGrantLasts | src/app/live/leases.py:26-65 | on the flat store, whatever else is interleaved, a granted lease keeps its symbol up to its expiry less the skew, unless its worker releases or renews |
| LiveStores.RedisLeaseStore.GetSymbolLease | src/app/live/leases.py:67-80 | the lease stored for the symbol, if any |
| LiveStores.RedisLeaseStore.AcquireSymbolLease | src/app/live/leases.py:26-41 | granted exactly when no unexpired lease is stored, whoever holds it; then the lookup gives the requested lease, otherwise the store is untouched |
| LiveStores.RedisLeaseStore.RenewSymbolLease | src/app/live/leases.py:43-59 | refused when missing or another worker's; otherwise the lookup then gives the stored lease with the requested times and version, identity, pod, shard and symbol kept |
| LiveStores.RedisLeaseStore.ReleaseSymbolLease | src/app/live/leases.py:61-65 | the worker's own lease is gone afterwards; another worker's stays |
| LiveStores.RedisLeaseStore.ListActiveLeases | src/app/live/leases.py:82-90 | the active ones of the leases at the scanned keys, in key order |
| LiveStores.ActiveLeasesAgreeWithLookups | src/app/live/leases.py:82-90 | the listing holds, in symbol order, one lease for each symbol whose point lookup is active, and that lease |
| LiveStores.RedisAssignmentStore.GetAssignmentVersion | src/app/live/assignments.py:88-92 | 0 before the first publish, then the stored int; an error for other text |
| LiveStores.RedisAssignmentStore.PublishAssignments | src/app/live/assignments.py:94-97 | sets the version and each given shard, and no other key |
| LiveStores.RedisAssignmentStore.GetShardAssignments | src/app/live/assignments.py:99-100 | the symbols of one shard |
| LiveStores.RedisAssignmentStore.SetWorkerHeartbeat | src/app/live/assignments.py:102-111 | writes the worker's heartbeat key only |
| LiveStores.RedisAssignmentStore.ClearWorkerHeartbeat | src/app/live/assignments.py:113-114 | deletes the worker's heartbeat key only |
| LiveStores.RedisAssignmentStore.ListShardAssignments | src/app/live/assignments.py:116-122 | the sets at the scanned shard keys by shard id, or an error when a key's id is no int |
| LiveStores.ListingIsTheShardMap | src/app/live/assignments.py:116-122 | when publish wrote all shard keys, the listing succeeds and is the shard map the point lookups see |
| LiveStores.RedisControlFlagStore.IsGlobalKillSwitchEnabled | src/app/live/control_flags.py:31-33 | the decoded kill-switch flag |
| LiveStores.RedisControlFlagStore.IsPaused | src/app/live/control_flags.py:35-45 | the decoded pause flag of a contract, symbol or shard |
| LiveStores.RedisControlFlagStore.Snapshot | src/app/live/control_flags.py:47-68 | the kill switch and the enabled pauses at the scanned keys, or an error for a paused shard whose id is no int |
| LiveStores.SplitScope | src/app/live/control_flags.py:54-62 | the branch taken on a scanned key is the only scope the key can belong to |
| LiveStores.SnapshotAgreesWithQueries | src/app/live/control_flags.py:31-68 | the snapshot shows the kill switch as its query does and lists, sorted and each contract and symbol once, exactly what the point queries report as paused; it fails exactly when a paused shard id is no int |
| LiveStores.ListedShardsArePaused | src/app/live/control_flags.py:43-68 | with shard ids as publish writes them, a shard is listed exactly when its point query says paused |
| JsonText.TrueIff | src/app/live/control_flags.py:76-84 | a text decodes to the JSON value true exactly when it is that word with white space around it |
| JsonText.BoolMemberReadsBack | src/app/live/control_flags.py:76-82 | the text of an object with one boolean member decodes to it |
| LiveStores.WordsDecode | src/app/live/control_flags.py:76-80 | of the fallback words, 1 and true are JSON; yes, on and the other spellings of true are not |
| LiveStores.EnabledIff | src/app/live/control_flags.py:71-85 | every stored text enables its flag exactly when it is true, yes or on in any case, the JSON value true, or a JSON object whose enabled member is truthy |
| LiveStores.OneIsNotEnabled | src/app/live/control_flags.py:71-85 | no text that reads as 1 enables |
| LiveStores.WrittenFlagReadsBack | src/app/live/control_flags.py:71-82 | the object text written for a flag enables it exactly when its member is true |
| Publisher.GroupContractsBySymbol | src/app/live/assignment_publisher.py:10-14 | for each symbol its contracts, in order, and no other symbol |
| Publisher.ComputeAssignments | src/app/live/assignment_publisher.py:22-26 | every shard below the count, with exactly the symbols hashed to it; an error for symbols without shards |
| Publisher.PublishAssignmentsForContracts | src/app/live/assignment_publisher.py:29-38 | one publish at the next version read from the store; an error, exactly when there is a symbol but no shard or the version is unreadable, leaves the store as it was |
| Publisher.PublishesCount | src/app/live/assignment_publisher.py:29-38 | from a readable version, n publishes raise it by n and never touch a shard at or above the count |
| Publisher.PublishesPartition | src/app/live/assignment_publisher.py:22-38 | after any such run with one count the typed shards partition the last active symbols, if and only if no shard left from a larger count holds a symbol |
| Publisher.VersionsAgree | src/app/live/assignments.py:88-92 | the version read from the flat store is the typed one, unreadable texts included |
| Publisher.FlatPublishesRefine | src/app/live/assignment_publisher.py:29-38 | the run on the flat store, each publish reading its version there, stays in step with the typed maps |
| Publisher.FlatPublishesPartition | src/app/live/assignment_publisher.py:22-38 | on the flat store: the version read has grown by the number of publishes, and the shards' point lookups partition the last active symbols exactly when no shard at or above the count held a symbol |
| Features.AddSession | src/app/daily_index_forecast/features.py:325-474 | for each decision time a record and a label when the session has a bar by the decision and a bar after it; otherwise one dropped step, and a dropped feature is also a dropped label |
| Features.LabelPathBounds | src/app/daily_index_forecast/features.py:443-473 | for a positive price and closes between low and high, the return to the close lies between the label's drawdown and runup, and it is positive after cost exactly when the price gain exceeds the cost |
| Features.AddSymbol | src/app/daily_index_forecast/features.py:297-474 | the rows of every session of a symbol in date order, and sessions times decision times steps |
| Features.BuildFeatureAndLabelRecords | src/app/daily_index_forecast/features.py:265-500 | as many records as labels, paired in order over the universe (their meaning is `FeatureRows.RowsMean`), and counters that balance with the number of steps, dropped features being the decisions before their session's first bar |
| Features.HistoryCases | src/app/daily_index_forecast/features.py:354-392 | the used history is the returns of earlier sessions when the session has a return of its own, and those less their last one when it has not |
| Features.FeatureFromKnown | src/app/daily_index_forecast/features.py:340-441 | a record depends only on the bars so far, the earlier summaries and the two usable histories |
| Features.OwnReturnIsKnown | src/app/daily_index_forecast/features.py:192-209 | with bars in time order, whether a session that has traded by the decision has a return is decided by then |
| Features.NoLookAhead | src/app/daily_index_forecast/features.py:182-441 | two worlds that agree on every bar up to the decision, and on whether the benchmark's session has a return, yield the same record |
| Features.BenchmarkHistoryIff | src/app/daily_index_forecast/features.py:354-392 | the benchmark history used is the same in both worlds if and only if they agree on that, or there is at most one earlier return |
| Features.LookAheadThroughBenchmark | src/app/daily_index_forecast/features.py:311-441 | with 5 or 20 earlier benchmark returns the records are equal if and only if the worlds agree on that |
| Features.NoLookAheadWithPrices | src/app/daily_index_forecast/features.py:182-441 | with non-zero benchmark opens it is enough to agree on whether the benchmark has the session at all |
| Features.LateSessionShows | src/app/daily_index_forecast/features.py:354-392 | with 5 or 20 earlier benchmark returns, a benchmark session that first trades after the decision changes the record, whatever its non-zero prices |
| Features.LookAheadExists | src/app/daily_index_forecast/features.py:182-441 | a concrete history whose record changes with the benchmark's open after the decision, exactly when one open is zero |
| FeatureMeaning.HasRecordIff | src/app/daily_index_forecast/features.py:330-338 | a decision gives a record exactly when the positions of its day split into bars up to it and bars after it, both non-empty |
| FeatureMeaning.WindowMeaning | src/app/daily_index_forecast/features.py:340-351 | first open, last close, highest high, lowest low and sums of the bars so far; (1 + window return) * open is the last close, the range times the open is high less low, low plus the close location times the spread is the last close |
| FeatureMeaning.PriorMeaning | src/app/daily_index_forecast/features.py:316-352 | the gap is measured from the close of the bar right before the session, and the prior fields are those of the session that ends there; all are absent without one |
| FeatureMeaning.SumOfParts | src/app/daily_index_forecast/features.py:344-345 | the sums of volumes and dollar volumes are sums |
| FeatureHistories.ReturnsAreReturns | src/app/daily_index_forecast/features.py:354-361 | the return history is, by day, exactly the sessions up to the day with a non-zero open, each with (1 + return) * open equal to its close |
| FeatureHistories.RollingMeaning | src/app/daily_index_forecast/features.py:220-235 | a rolling return compounds exactly the last n usable returns, a rolling volatility is the deviation of them, and both are absent below n |
| FeatureHistories.VolumesMeaning | src/app/daily_index_forecast/features.py:365-369 | the volumes scored are those of all earlier sessions, in day order |
| FeatureHistories.ZScoreMeaning | src/app/daily_index_forecast/features.py:229-233 | the last of 20 volumes is their mean plus score times deviation; absent below 20 or without deviation |
| FeatureHistories.BetaMeaning | src/app/daily_index_forecast/features.py:238-249 | correlation and beta are those of the values on common days, from three up: beta * (n - 1) * (n * sum of x^2 - (sum of x)^2) is n * (n * sum of x * y - sum of x * sum of y) |
| FeatureRows.RecordMeaning | src/app/daily_index_forecast/features.py:340-441 | all of this for every field of the record of every decision |
| FeatureMeaning.LabelMeaning | src/app/daily_index_forecast/features.py:443-473 | bought at the last close by the decision and sold at the session's last one: return, net return, runup, drawdown and the sign after costs, in basis points of the entry price |
| FeatureRows.RowsMean | src/app/daily_index_forecast/features.py:297-474 | the rows built over a universe are those of exactly the decisions with bars on both sides, ordered by symbol, day and decision time, and every record and label means that |
| Artifacts.FlattenRecords | src/app/backtests/artifacts.py:614-651 | one row per record, runs and records in order, each with its run id |
| Artifacts.LoadGrouped | src/app/backtests/artifacts.py:718-731 | the rows grouped by run id |
| Artifacts.GroupIsByRun | src/app/backtests/artifacts.py:718-731 | each group is the records of its run in row order, and only runs with rows have one |
| Artifacts.MergeGroupedRecords | src/app/backtests/artifacts.py:530-537 | for each run its left records followed by its right ones |
| Artifacts.ConcatShardRows | src/app/backtests/artifacts.py:595-611 | the rows of the sidecars that exist, in shard order |
| Artifacts.GroupConcat | src/app/backtests/artifacts.py:530-537 | grouping a concatenation is merging the groupings |
| Artifacts.LoadGroupedFromShards | src/app/backtests/artifacts.py:553-571 | folding the merge over the per-shard groupings equals grouping the concatenated rows |
| Artifacts.HydrateReport | src/app/backtests/artifacts.py:938-986 | an empty list is filled from its file, a full one kept, and trades always replaced |
| Artifacts.GroupFlatten | src/app/backtests/artifacts.py:614-731 | with distinct run ids, grouping the flattened rows gives each run its own records in order |
| Artifacts.RoundTrip | src/app/backtests/artifacts.py:614-986 | in a fresh directory, writing a report and hydrating any thinned copy of it restores every list of every run |
| Artifacts.ManifestFallbackAgrees | src/app/backtests/artifacts.py:574-748 | loading through a manifest's sidecars and through the file written from them agree |
| Artifacts.HydrateKeepsIff | src/app/backtests/artifacts.py:938-986 | hydrating leaves a result as it is exactly when the trades loaded for it are its own and every other list that is empty has no rows |
| Artifacts.TradesNeedTheirFile | src/app/backtests/artifacts.py:938-986 | so in an empty directory a result loses its trades and nothing else |
| BacktestSharding.RunBacktests | src/app/engine/runner.py:205-249 | one result per run in order, a raised error as a failed result, and the tallies and status of those results |
| BacktestSharding.CollectRunsBySplit | src/app/backtests/sharding.py:74-82 | exactly the keys that occur, each with its runs in order |
| BacktestSharding.PlanShards | src/app/backtests/sharding.py:101-143 | one shard per sorted key, and at each id the config file of the last key that owns it |
| BacktestSharding.MergeShardReports | src/app/backtests/merge.py:23-70 | the hydrated results of all shards in plan order with their tallies, or an error when a report is missing |
| BacktestSharding.Tally | src/app/backtests/merge.py:15-42 | total, successes, failures and status of a result list |
| BacktestSharding.ReportMeaning | src/app/engine/runner.py:205-249 | one result for each run in order, a failed one naming the run and the error; the status says success exactly when all succeeded and failure exactly when there are some and none did |
| BacktestSharding.RunSharded | src/app/backtests/merge.py:73-84 | planning, executing every shard and merging |
| BacktestSharding.PersistRoundTrip | src/app/backtests/artifacts.py:464-505 | a persisted shard reads back as the results it had |
| BacktestSharding.MergedIsExecuted | src/app/backtests/merge.py:23-42 | the merged results are those of the runs each shard id's last owner executed |
| BacktestSharding.GroupsPermute | src/app/backtests/sharding.py:61-82 | the groups of distinct covering keys hold every run exactly once |
| BacktestSharding.ShardingPreservesMeaning | src/app/backtests/sharding.py:101-143 | for every split, with distinct sanitised ids, the sharded results are a permutation of the unsharded ones with equal totals and status |
| BacktestSharding.LostRun | src/app/backtests/sharding.py:115-143 | a run whose key lost its id to another key is missing from the merge |
| BacktestSharding.PermutationIffDistinctIds | src/app/backtests/sharding.py:56-143 | sharding gives a permutation if and only if the sanitised ids of the keys are distinct |
| BacktestSharding.SanitizeCollides | src/app/backtests/sharding.py:56-58 | keys that differ in one dropped character share an id |
| BacktestSharding.GroupsMeaning | src/app/backtests/sharding.py:49-73 | runs share a group exactly when they agree in what the split names, symbols in upper case; for symbol and trigger together when no symbol holds a colon |
| BacktestSharding.CollapseRun | src/app/backtests/sharding.py:57-59 | a run of characters no file name keeps becomes one underscore |
| BacktestSharding.SanitizeIsFileName | src/app/backtests/sharding.py:57-59 | a shard id is never empty and holds only lower-case letters, digits, dot, underscore and hyphen |
| DatasetSharding.NormalizeDatasetSymbols | src/app/datasets/sharding.py:168-174 | the cleaned symbols, first occurrences in order |
| DatasetSharding.NormalizeIsNormal | src/app/datasets/sharding.py:168-174 | the list is upper-case, trimmed, non-empty and without repeats, and has exactly the cleaned inputs |
| DatasetSharding.NormalizeIdempotent | src/app/datasets/sharding.py:147-153 | normalising again, as the validators do, changes nothing |
| DatasetSharding.NormalizeKeepsOrder | src/app/datasets/sharding.py:168-174 | the result lists first occurrences in their order |
| DatasetSharding.LeastLoaded | src/app/datasets/sharding.py:243-246 | the first group of least load, ties by size |
| DatasetSharding.BuildSymbolGroups | src/app/datasets/sharding.py:240-248 | greedy least-loaded assignment of the sorted symbols is round robin |
| DatasetSharding.RoundRobinPlaces | src/app/datasets/sharding.py:240-248 | the i-th sorted symbol is the (i / k)-th of group i mod k |
| DatasetSharding.RoundRobinSize | src/app/datasets/sharding.py:240-248 | the size of each group |
| DatasetSharding.ShareBalanced | src/app/datasets/sharding.py:240-248 | group sizes differ by at most one |
| DatasetSharding.RoundRobinTotal | src/app/datasets/sharding.py:240-248 | the groups hold as many symbols as there are |
| DatasetSharding.SplitGroupsToSymbolLimit | src/app/datasets/sharding.py:251-263 | each group cut in order into chunks of the cap |
| DatasetSharding.SplitCount | src/app/datasets/sharding.py:251-263 | no chunk is empty or over the cap, and there are at least as many as the symbols need |
| DatasetSharding.EstimateWithinCap | src/app/datasets/sharding.py:211-237 | when full shards fit, the estimate is positive, within the shard limit and the symbol count, and large enough for the cap |
| DatasetSharding.EstimateIsLeast | src/app/datasets/sharding.py:211-237 | when the symbols fit, the shard count is the least that holds the symbols at the cap and the work units at the target, or the most allowed when that many are too few for the units |
| DatasetSharding.UnitsMeaning | src/app/datasets/sharding.py:194-208 | a symbol's work units are its days, both ends counted and one at least, times the bars of a day at its resolution, twice that with options |
| DatasetSharding.FeasibleGroups | src/app/datasets/sharding.py:321-339 | then the shards are the round-robin groups, each within the cap, as many as estimated: the split changes nothing |
| DatasetSharding.InfeasibleGroups | src/app/datasets/sharding.py:321-339 | otherwise the split still leaves more shards than allowed |
| DatasetSharding.CannotSatisfyIff | src/app/datasets/sharding.py:321-339 | the plan is rejected as unsatisfiable if and only if even full shards exceed the limit, for parameters of any sign |
| DatasetSharding.BuildShardSpecs | src/app/datasets/sharding.py:356-393 | every shard specification, validated |
| DatasetSharding.BuildDatasetShardPlan | src/app/datasets/sharding.py:282-406 | the plan of the request, or the first error in the source's order |
| DatasetSharding.ValidatorsAcceptIff | src/app/datasets/sharding.py:103-165 | once feasible, all validators accept the plan exactly when pods and cap are positive, and then it holds the planned groups |
| DatasetSharding.WorkUnitsAddUp | src/app/datasets/sharding.py:266-279 | the shards' work units sum to the plan's total |
| DatasetSharding.PlanMeaning | src/app/datasets/sharding.py:282-407 | a plan exists exactly when there are symbols, a known provider and resolution, room for the symbols and positive limits; it has that least number of shards, symbol i of the sorted list is number i / k of shard i mod k, and every unit count and index is fixed |
| EquityCurves.MergeEquityCurves | src/app/engine/aggregates.py:61-86 | empty curves dropped; none, the only one, or the forward-filled sum |
| EquityCurves.FillForward | src/app/engine/aggregates.py:69-86 | at each timestamp of the sorted distinct union the sum of the curves' values there |
| EquityCurves.Advance | src/app/engine/aggregates.py:76-82 | one curve's pointer moves to the last point at or before the timestamp, never back, and no other pointer moves |
| EquityCurves.ForwardFill | src/app/engine/aggregates.py:69-86 | a curve's value is that of its last point at or before the time, or its first value when there is none |
| EquityCurves.SumOfCurves | src/app/engine/aggregates.py:61-86 | the merged value at a time is the sum of the curves' values there |
| Common.NonEmptyParts | src/app/engine/aggregates.py:62-62 | exactly the empty lists are dropped, the others kept in order |
| EquityCurves.MergedAxis | src/app/engine/aggregates.py:61-86 | with two or more non-empty curves the merged timestamps are exactly their union, strictly increasing |
| EquityCurves.MaxDrawdownPct | src/app/engine/aggregates.py:89-101 | the largest drop from the running peak in one pass, or none below two values |
| EquityCurves.DrawdownIsMaximal | src/app/engine/aggregates.py:89-101 | for non-negative values it is the maximum drop over all ordered pairs, and lies in [0, 100] |
| EquityCurves.PeakDropIsLargestIff | src/app/engine/aggregates.py:89-101 | the drop from the running peak is the largest one ending at a point exactly when the value there is not negative or every positive value so far is the peak |
| EquityCurves.ExceedsHundredIff | src/app/engine/aggregates.py:89-101 | the result exceeds 100 exactly when a negative value follows a positive one |
| EquityCurves.NegativeValuesEscape | src/app/engine/aggregates.py:89-101 | a concrete curve on which an earlier, lower start falls further than the result |
| Sampling.DownsampleEquityCurve | src/app/engine/aggregates.py:44-58 | divides by zero exactly for two points of a longer curve; from three up both ends and every multiple of the least stride that fits, at most that many points |
| Sampling.TakeStrided | src/app/engine/aggregates.py:52-58 | every stride-th point before the last, then the last |
| Sampling.ReaderSamplesFaithfully | src/app/datasets/reader.py:156-172 | exactly min(n, max_rows) strictly increasing positions, from 0 to n - 1, each nearest to its evenly spaced point and even on ties |
| Metrics.CountValues | src/app/engine/metrics.py:71-76 | one bin per edge pair, in order, whose count is the number of values in it |
| Metrics.CountOfParts | src/app/engine/metrics.py:71-76 | a count is the number of values in the half-open interval, a bin without width holding its one value |
| Metrics.ChainTotal | src/app/engine/metrics.py:109-121 | bins that follow one another count every value from the first start on exactly once |
| Metrics.HoldTimesPartition | src/app/engine/metrics.py:71-76 | the hold-time bins count the non-negative durations once each: all of them if and only if none is negative |
| Metrics.SizeBinEdges | src/app/engine/metrics.py:79-106 | one bin for a single value, else between two and six bins of equal width from the least to the greatest value |
| Metrics.EvenEdgesChain | src/app/engine/metrics.py:97-106 | those bins follow one another without gap or overlap, and the last starts below the greatest value |
| Metrics.DynamicBins | src/app/engine/metrics.py:109-121 | min(6, distinct values) bins whose counts add up to the length of the list, for every list |
| Diagnostics.TradeDiagnostics | src/app/engine/metrics.py:249-254 | per exit reason, with missing ones as unknown, the number and profit of its trades, and no other reason |
| Diagnostics.FilterDiagnostics | src/app/engine/metrics.py:287-305 | per rejection reason its number; the traded share of all opportunities when there are any |
| Diagnostics.ReasonsConserve | src/app/engine/metrics.py:249-254 | over the reasons the counts add up to the number of trades and the profits to the total |
| Diagnostics.OneReason | src/app/engine/metrics.py:249-254 | a trade counts for its own reason only, a missing or empty one as unknown |
| Diagnostics.PoolingAddsUp | src/app/engine/aggregates.py:174-188 | each reason's count and profit in the pooled lists is the sum of the finished runs' own |
| Diagnostics.PoolsOfParts | src/app/engine/aggregates.py:147-173 | only runs that succeeded and have a summary are pooled |
| Diagnostics.AggregateDiagnostics | src/app/engine/aggregates.py:147-188 | a strategy's exit-reason counts, profits and rejection counts are the pointwise sums over its finished runs |
| DailyWalkForward.ScaleWindowSizes | src/app/daily_index_forecast/walk_forward.py:40-66 | terminates with the scaled and trimmed sizes |
| DailyWalkForward.ScalingBounds | src/app/daily_index_forecast/walk_forward.py:40-66 | each window stays between 1 and its request; a scaled total uses all available sessions but at most two; only fewer than three can be overrun |
| DailyWalkForward.SizesAreProportional | src/app/daily_index_forecast/walk_forward.py:48-66 | with too few sessions each window is the floor of its share of them, or one, and what is then too much is taken from the largest windows, the first of equals first; nothing is taken when every share is at least one |
| DailyWalkForward.ShortenedUnique | src/app/daily_index_forecast/walk_forward.py:55-64 | that rule determines the sizes |
| DailyWalkForward.MakeWalkForwardFolds | src/app/daily_index_forecast/walk_forward.py:77-197 | the folds and holdout, or the first error in the source's order |
| DailyWalkForward.CollectFolds | src/app/daily_index_forecast/walk_forward.py:121-189 | every step whose windows fit and have enough rows, numbered from 0 |
| DailyWalkForward.WindowIsSessions | src/app/daily_index_forecast/walk_forward.py:132-165 | the date masks select exactly the rows of the window's sessions |
| DailyWalkForward.FoldIsSound | src/app/daily_index_forecast/walk_forward.py:132-186 | one fold: each part holds exactly its sessions' rows, the counts are exact, the embargoed sessions lie between, all before the holdout |
| DailyWalkForward.FoldOrdered | src/app/daily_index_forecast/walk_forward.py:132-155 | train, validation, embargo and test follow one another |
| DailyWalkForward.FoldsOfSteps | src/app/daily_index_forecast/walk_forward.py:121-189 | the folds are those of exactly the steps whose windows fit and have enough rows, counted by session, in order and numbered in turn |
| DailyWalkForward.FoldsNeverLeak | src/app/daily_index_forecast/walk_forward.py:96-197 | all of this for every fold of every accepted frame |
| DailyWalkForward.WalkMeaning | src/app/daily_index_forecast/walk_forward.py:77-197 | every accepted walk: the holdout is the last sessions, as many as asked for but leaving three, with enough rows; the sizes are the requested or proportional ones; and the folds are those of exactly the fitting steps with enough rows |
| DailyWalkForward.HistoryLength | src/app/daily_index_forecast/walk_forward.py:69-111 | how many sessions the holdout leaves, for every request |
| DailyWalkForward.GuardAfterScalingIff | src/app/daily_index_forecast/walk_forward.py:99-119 | the guard after scaling fires exactly for holdout requests 0, -1 and -2; never for a positive one |
| IntradayWalkForward.MedianBarDeltaSign | src/app/intraday/walk_forward.py:44-51 | the bar spacing is never negative, and positive from two distinct timestamps up |
| IntradayWalkForward.MedianBarDeltaIsMedian | src/app/intraday/walk_forward.py:44-51 | it is the median of the spacings of the distinct timestamps in order |
| IntradayWalkForward.TerminatesIff | src/app/intraday/walk_forward.py:107-149 | on unbounded timestamps the loop ends if and only if there is a row and the step is positive or no first test window exists |
| IntradayWalkForward.MakeWalkForwardFolds | src/app/intraday/walk_forward.py:90-151 | whenever it ends, all folds with enough rows, in order |
| IntradayWalkForward.FoldsAreOrdered | src/app/intraday/walk_forward.py:104-151 | each fold orders its windows with the embargo before the test, counts their rows exactly, meets the minima and is numbered in turn |
| IntradayWalkForward.FoldsMeaning | src/app/intraday/walk_forward.py:90-151 | the folds are those of exactly the steps from the first row whose test window starts by the last row and whose windows have enough rows |
| IntradayWalkForward.ExtremesOf | src/app/intraday/walk_forward.py:94-95 | the first and last timestamps are those of rows, and bound all of them |
| Common.CountInParts | src/app/intraday/walk_forward.py:120-126 | a window's row count is the number of rows in the half-open range |
| IntradayWalkForward.TestWindowsDisjoint | src/app/intraday/walk_forward.py:104-151 | test windows never overlap when the step is at least the test length |
| Executor.RuntimeStateStore.Load | src/app/live/executor.py:77-88 | the snapshot saved for the run, or a new one |
| Executor.RuntimeStateStore.Save | src/app/live/executor.py:90-96 | replaces the snapshot of one run |
| Executor.AlpacaStrategyExecutor.SyncPositionFromBroker | src/app/live/executor.py:281-303 | flat without a broker position, else the broker's size and price with the entry details kept |
| Executor.AlpacaStrategyExecutor.PlaceOrder | src/app/live/executor.py:399-452 | an order goes out unless its id was seen; its id is remembered if the broker takes it, and otherwise one rejection event says what was turned down |
| Executor.AlpacaStrategyExecutor.ProcessLatestBar | src/app/live/executor.py:339-470 | one call is one step of the machine, returns an event exactly for an order turned down, and leaves other runs' saved snapshots alone |
| Executor.ProcessEffects | src/app/live/executor.py:339-470 | a call submits at most one order, only an accepted one moves the position, and a handled bar is saved |
| Executor.CallMeaning | src/app/live/executor.py:339-470 | the core sees the complete bars and the broker's position with the bars since its entry; its decision becomes one order of that bar unless its id is remembered; the core's state and the position are saved |
| Executor.DecisionEffect | src/app/live/executor.py:399-436 | an accepted close of a long position leaves nothing, a trim by p leaves q - p * q, a buy from flat leaves its size, and every other decision leaves the quantity; a close of a short position doubles it |
| Executor.OrderIsCovered | src/app/live/executor.py:399-436 | no order sells more than the broker holds |
| Executor.RunSafe | src/app/live/executor.py:339-470 | when bar times never go back, handled bars and accepted orders strictly advance, restarts included |
| Executor.ProcessedIsSqueezed | src/app/live/executor.py:346-354 | the bars handled over any run are the input times without immediate repeats, restarts included |
| Executor.BarsHandledOnceIff | src/app/live/executor.py:346-354 | no bar is handled twice, the saved one included, if and only if no bar time comes back once a different one has come |
| Executor.TimeOrderSuffices | src/app/live/executor.py:346-354 | bar times that never go back meet that condition |
| Executor.IdsAcceptedOnce | src/app/live/executor.py:399-452 | within one process no order id is accepted twice, in whatever order the bars come |
| Executor.ExecutorSafety | src/app/live/executor.py:281-470 | over whole runs with restarts anywhere: position equal to accepted buys minus sells and never negative; no bar handled and no order id accepted twice when no bar time comes back |
| Executor.RestartsAreInvisible | src/app/live/executor.py:247-337 | restarting from the saved snapshot at any points changes nothing the broker ever sees |
| Executor.UnorderedBarsRepeat | src/app/live/executor.py:352-354 | a bar that comes back after an older one is handled again |
| Sizing.GrowsWithEdge | src/app/intraday/pipeline.py:217-309 | more edge in the same direction never means fewer shares |
| Sizing.ShrinksWithRisk | src/app/intraday/pipeline.py:217-309 | more forecast risk never means more shares |
| Sizing.PositionIsBounded | src/app/intraday/pipeline.py:217-309 | never above the liquidity cap, never short when that is disallowed, always on the side of the edge |
| Sizing.LossAtStopIsBounded | src/app/intraday/pipeline.py:251-309 | the loss at the stop is at most five risk budgets, and exactly one at full quality and neutral volatility below the cap |
| Sizing.SizeMeaning | src/app/intraday/pipeline.py:217-309 | direction, reason, stop, quality, volatility scale and cap of every decision; shares times price times stop is the risk budget, scaled by quality and volatility and limited by the cap |
| Sizing.DecideMeaning | src/app/intraday/pipeline.py:335-349 | a row is sized on its prediction less the round trip's cost |
| Sizing.OpenedClearsCostIff | src/app/intraday/pipeline.py:217-349 | an opened position clears the threshold by its own prediction after costs exactly when it is long or its edge exceeds the threshold by two round trips |
| Sizing.ShortsARiseIff | src/app/intraday/pipeline.py:217-349 | a rising prediction opens a short exactly when shorts are allowed and it falls short of the costs by more than the threshold |
| Sizing.GrossMeaning | src/app/intraday/pipeline.py:364-366 | a row's gross profit is shares times price times the return that followed |
| Sizing.EvaluatePredictions | src/app/intraday/pipeline.py:338-382 | one decision per row in order, and net profit equal to gross less the cost rate on the whole notional |
| Progress.ParseInvertsWrite | src/app/backtests/argo_progress.py:33-79 | parsing what was written gives the clamped count and the total, if and only if the total is not negative |
| Progress.ParseMeaning | src/app/backtests/argo_progress.py:64-79 | of a trimmed text only the last line counts, and in it the ints around its first slash, neither negative |
| Progress.FractionIsExact | src/app/backtests/argo_progress.py:82-85 | the fraction is exact between 0 and the total, 1 exactly from the total up and 0 exactly from 0 down |
| Progress.RunIndexIsPosition | src/app/backtests/argo_progress.py:18-21 | the run percentage is the common percentage at a run boundary, 0 at the start and 100 at the end |
| Progress.PercentMeaning | src/app/backtests/argo_progress.py:18-30 | both percentages are the nearest integer, even on ties, to the share of the runs done, or of the bars of all runs |
| Progress.BarIsWithinRun | src/app/backtests/argo_progress.py:24-30 | a bar percentage lies between those of its run's start and end, for every feed length |
| Progress.ReportsNeverDecrease | src/app/cli.py:113-177 | over a whole command the reported percentages start at 0, end at 100, stay within and never go back |
| Progress.ThrottledProgressWriter.Write | src/app/backtests/argo_progress.py:46-56 | written or skipped, the file shows the requested percentage; skipped only for the same one within the interval |
| Progress.ThrottledProgressWriter.WriteImmediate | src/app/backtests/argo_progress.py:58-61 | always written |
| Progress.ShowsLast | src/app/backtests/argo_progress.py:40-79 | whoever parses the file sees the last requested percentage |
| Progress.ReportRun | src/app/cli.py:128-147 | the hooks of one run, completed or failed, in order |
| Progress.RunCommand | src/app/cli.py:113-177 | the requests of a whole command are exactly that list, and the file ends at 100 |
| ProgressStatus.IndexNodes | src/app/datasets/argo_progress_status.py:65-84 | the indexes and the last combine and aggregate nodes |
| ProgressStatus.IndexHoldsLast | src/app/datasets/argo_progress_status.py:74-80 | an index holds, for each value, the last download node that carries it |
| ProgressStatus.WeightedProgressForNodes | src/app/datasets/argo_progress_status.py:64-132 | the aggregate node's report if it has one, else the mean of the shards' and the combine step's fractions, weighted by work |
| ProgressStatus.WeightedBounds | src/app/datasets/argo_progress_status.py:64-132 | always in [0, 100]; without an aggregate report 100 if and only if every shard and the combine step are done |
| ProgressStatus.WeightedMeaning | src/app/datasets/argo_progress_status.py:64-132 | the percentage is what the last aggregate node says; otherwise it times the total work is 100 times the work done, each shard weighing its work units and spoken for by the last node with its id, else with its directory |
| ProgressStatus.SumsOfParts | src/app/datasets/argo_progress_status.py:96-130 | the work done adds fraction times weight, the total work the weights |
| ProgressStatus.WeightedAdvances | src/app/datasets/argo_progress_status.py:64-132 | progress of any nodes never lowers it while the aggregate node keeps reporting or keeps silent |
| ProgressStatus.AggregateTakesOver | src/app/datasets/argo_progress_status.py:86-94 | when the aggregate node starts to report the percentage falls exactly when its fraction is below the weighted one |
| Text.IntRoundTrip | src/app/live/assignments.py:94-95 | reading back the text of an int gives the int, as the version and the shard ids need |

## Left out

- Leases.MutualExclusion: each store method is one atomic step; the separate read and write of a remote backend are only modelled in `Leases.InterleavedAcquiresBothHold`.
- Executor.ExecutorSafety: the broker fills an accepted order before the next call, and the process stops only between calls; partial fills and crashes inside a call are not modelled.
- LiveStores.RedisAssignmentStore.ListShardAssignments: only the in-memory backend is modelled; a real Redis pattern would also interpret `?`, `[` and `*` inside a prefix.
- Text.PyInt: ASCII digits only; `int` also reads other Unicode digits. Letter case is mapped as in ASCII.
- Progress.ReportsNeverDecrease: the bar counts of a run only grow and stay within its feed, as the strategy adapter counts its bars; the adapter itself is not modelled.
- Features.NoLookAhead: prices are finite reals; the fields copied from the calendar or from the configuration are not modelled, nor is the path volatility's formula.
- Sizing.EvaluatePredictions: hit rate, error metrics, quantiles and Sharpe ratio of the batch are not modelled.
- Diagnostics.TradeDiagnostics: ratios, medians and the dominant reason are not modelled.
- Floating-point rounding: all arithmetic is exact, including the division before `math.ceil` and `int`.
- Leases.SupersededWorkerStops: a worker that is granted the symbol again starts anew; `Leases.OverlapIsUnbounded` shows that this can go on.
- LiveStores.EnabledIff: numbers are exact, so a float that underflows to zero still counts as truthy; integers over Python's digit limit and nesting over its recursion limit, on which `json.loads` raises, are read.
- IntradayWalkForward.TerminatesIff: pandas' bounds on timestamps are not modelled; beyond them a negative step raises.
- Features.BuildFeatureAndLabelRecords: the manifest's joined and source row counts are not modelled.
- Executor.AlpacaStrategyExecutor.ProcessLatestBar: the candidate log and an event's reason text are not modelled.
- JSON, ISO timestamps, parquet and YAML: encodings are identities, except the `n/total` progress text and the control flags.
- The backtest of one run, strategy cores, hashes, logarithms, standard deviations and correlations: uninterpreted functions or oracles.
- Time, the broker's replies and the market data: parameters.
- `list_worker_heartbeats` and the heartbeat payload: an easy scan like the modelled ones.
- Reading the split-by name from its aliases or the environment: a table lookup.
- Path probing, artifact inventory, merged aggregates and Sharpe ratios: many branches, no deep invariant.
- `compute_dataset_progress_pct`'s fallback to the workflow's own progress: a selection between two values.
- Bars within one second: beyond the order id's resolution.
- Argo, Kubernetes, Alpaca, Yahoo and Redis clients, the web API, the database, model fitting and the user interface.
