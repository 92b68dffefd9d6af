// datasets/sharding.py: symbol normalisation, the shard-count estimate, greedy grouping, the
// split to the per-shard cap, and the validated plan. Letters are mapped as in ASCII, division
// before math.ceil is exact, and paths are left out.
module DatasetSharding {
  import opened Common
  import opened Ordering
  import opened Text

  // ---------- symbols

  function Clean(s: string): string { Upper(Strip(s)) }

  function Normalize(symbols: seq<string>): seq<string> {
    if symbols == [] then []
    else
      var init, s := Normalize(symbols[..|symbols| - 1]), Clean(symbols[|symbols| - 1]);
      if s != "" && s !in init then init + [s] else init
  }

  method NormalizeDatasetSymbols(symbols: seq<string>) returns (normalized: seq<string>)
    ensures normalized == Normalize(symbols)
  {
    normalized := [];
    for i := 0 to |symbols|
      invariant normalized == Normalize(symbols[..i])
    {
      assert symbols[..i + 1][..i] == symbols[..i];
      var s := Clean(symbols[i]);
      if s != "" && s !in normalized {
        normalized := normalized + [s];
      }
    }
    assert symbols[..|symbols|] == symbols;
  }

  // Normal form: cleaned, non-empty, without repeats.
  ghost predicate Normal(symbols: seq<string>) {
    && (forall s | s in symbols :: s != "" && Clean(s) == s)
    && (forall i, j | 0 <= i < j < |symbols| :: symbols[i] != symbols[j])
  }

  lemma UpperChars(c: char)
    ensures UpperChar(UpperChar(c)) == UpperChar(c) && IsSpace(UpperChar(c)) == IsSpace(c)
  {
  }

  lemma CleanTwice(s: string)
    ensures Clean(Clean(s)) == Clean(s)
  {
    var t := Strip(s);
    StripTrims(s);
    forall i | 0 <= i < |t|
      ensures UpperChar(Upper(t)[i]) == Upper(t)[i] && IsSpace(Upper(t)[i]) == IsSpace(t[i])
    {
      UpperChars(t[i]);
    }
    StripFixed(Upper(t));
    assert Upper(Upper(t)) == Upper(t);
  }

  lemma {:induction false} NormalizeIsNormal(symbols: seq<string>)
    ensures Normal(Normalize(symbols))
    ensures forall s :: s in Normalize(symbols) <==> s != "" && exists i :: 0 <= i < |symbols| && Clean(symbols[i]) == s
  {
    if symbols != [] {
      var init, last := symbols[..|symbols| - 1], symbols[|symbols| - 1];
      NormalizeIsNormal(init);
      CleanTwice(last);
      forall s
        ensures s in Normalize(symbols) <==> s != "" && exists i :: 0 <= i < |symbols| && Clean(symbols[i]) == s
      {
        if s in Normalize(init) {
          var i :| 0 <= i < |init| && Clean(init[i]) == s;
          assert Clean(symbols[i]) == s;
        }
        if s != "" && exists i :: 0 <= i < |symbols| && Clean(symbols[i]) == s {
          var i :| 0 <= i < |symbols| && Clean(symbols[i]) == s;
          if i < |init| { assert Clean(init[i]) == s; }
        }
      }
    }
  }

  // The m-th symbol of the result is the cleaned one at position at[m], seen there first.
  ghost predicate FirstPlaces(at: seq<nat>, normalized: seq<string>, symbols: seq<string>) {
    && |at| == |normalized| && (forall m, n | 0 <= m < n < |at| :: at[m] < at[n])
    && forall m | 0 <= m < |at| :: FirstSeen(normalized[m], at[m], symbols)
  }

  predicate FirstSeen(s: string, at: nat, symbols: seq<string>) {
    at < |symbols| && Clean(symbols[at]) == s && forall i | 0 <= i < at :: Clean(symbols[i]) != s
  }

  lemma FirstSeenLonger(s: string, at: nat, symbols: seq<string>, last: string)
    requires FirstSeen(s, at, symbols)
    ensures FirstSeen(s, at, symbols + [last])
  {
    hide Clean;
    assert forall i | 0 <= i <= at :: (symbols + [last])[i] == symbols[i];
  }

  // The result lists first occurrences in their order.
  lemma {:induction false} NormalizeKeepsOrder(symbols: seq<string>) returns (at: seq<nat>)
    ensures FirstPlaces(at, Normalize(symbols), symbols)
  {
    if symbols == [] {
      at := [];
    } else {
      hide Clean;
      var n := |symbols| - 1;
      var init, last := symbols[..n], symbols[n];
      assert symbols == init + [last];
      at := NormalizeKeepsOrder(init);
      var before := at;
      forall m | 0 <= m < |before|
        ensures before[m] < n && FirstSeen(Normalize(init)[m], before[m], symbols)
      {
        FirstSeenLonger(Normalize(init)[m], before[m], init, last);
      }
      if Clean(last) != "" && Clean(last) !in Normalize(init) {
        NormalizeIsNormal(init);
        assert forall i | 0 <= i < n :: Clean(init[i]) != Clean(last) && symbols[i] == init[i];
        assert FirstSeen(Clean(last), n, symbols);
        assert Normalize(symbols) == Normalize(init) + [Clean(last)];
        hide FirstSeen, Normalize;
        at := before + [n];
      }
    }
  }

  lemma {:induction false} NormalizeKeepsNormal(symbols: seq<string>)
    requires Normal(symbols)
    ensures Normalize(symbols) == symbols
  {
    if symbols != [] {
      var init := symbols[..|symbols| - 1];
      assert symbols == init + [symbols[|symbols| - 1]];
      NormalizeKeepsNormal(init);
      assert symbols[|symbols| - 1] in symbols;
    }
  }

  // Every validator that normalises again leaves a normalised list alone.
  lemma NormalizeIdempotent(symbols: seq<string>)
    ensures Normalize(Normalize(symbols)) == Normalize(symbols)
  {
    NormalizeIsNormal(symbols);
    NormalizeKeepsNormal(Normalize(symbols));
  }

  // ---------- estimates

  function ResolutionWeight(resolution: string): Option<nat> {
    if resolution == "1m" then Some(60)
    else if resolution == "5m" then Some(12)
    else if resolution == "15m" then Some(4)
    else if resolution == "1h" || resolution == "1d" then Some(1)
    else None
  }

  datatype Request = Request(
    symbols: seq<string>,
    provider: string,
    resolution: string,
    startDate: int,
    endDate: int,
    optionsEnabled: bool,
    maxShards: int,
    maxPods: int,
    targetWorkUnits: int,
    maxSymbolsPerShard: int
  )

  // days_span * resolution_weight, doubled with options.
  function PerSymbol(r: Request, weight: nat): int {
    var days := Max(1, r.endDate - r.startDate + 1);
    days * weight * if r.optionsEnabled then 2 else 1
  }

  // estimate_dataset_shard_count
  function EstimateShardCount(n: int, r: Request, weight: nat): int {
    if n <= 0 then 1
    else
      var cap := CeilDiv(n, Max(1, r.maxSymbolsPerShard));
      var total := n * PerSymbol(r, weight);
      if total <= 0 then Max(1, Min(n, Min(r.maxShards, cap)))
      else Max(1, Min(n, Min(r.maxShards, Max(CeilDiv(total, Max(1, r.targetWorkUnits)), cap))))
  }

  // ---------- greedy grouping is round robin

  // The elements of xs whose index is j modulo k.
  function RoundRobin(xs: seq<string>, k: nat, j: nat): seq<string>
    requires k > 0
  {
    if xs == [] then []
    else RoundRobin(xs[..|xs| - 1], k, j) + if (|xs| - 1) % k == j then [xs[|xs| - 1]] else []
  }

  function RoundRobins(xs: seq<string>, k: nat): (r: seq<seq<string>>)
    requires k > 0
    ensures |r| == k
  {
    seq(k, j requires 0 <= j < k => RoundRobin(xs, k, j))
  }

  // How many of n items group j of k receives.
  function Share(n: nat, k: nat, j: nat): nat
    requires k > 0
  {
    n / k + if j < n % k then 1 else 0
  }

  lemma DivModStep(i: nat, k: nat)
    requires k > 0
    ensures if i % k == k - 1 then (i + 1) / k == i / k + 1 && (i + 1) % k == 0
            else (i + 1) / k == i / k && (i + 1) % k == i % k + 1
  {
    var q, r := i / k, i % k;
    assert i == q * k + r;
    if r == k - 1 {
      assert i + 1 == (q + 1) * k;
      DivModUnique(i + 1, k, q + 1, 0);
    } else {
      DivModUnique(i + 1, k, q, r + 1);
    }
  }

  lemma Distribute(x: int, y: int, k: int)
    ensures (x + y) * k == x * k + y * k && (x - y) * k == x * k - y * k
  {
  }

  lemma AtLeastFactor(x: int, k: nat)
    requires x >= 1
    ensures x * k >= k
  {
  }

  lemma DivModUnique(n: nat, k: nat, q: nat, r: nat)
    requires k > 0 && r < k && n == q * k + r
    ensures n / k == q && n % k == r
  {
    var q' := n / k;
    Distribute(q, q', k);
    if q > q' {
      AtLeastFactor(q - q', k);
    } else if q < q' {
      Distribute(q', q, k);
      AtLeastFactor(q' - q, k);
    }
  }

  lemma ShareStep(n: nat, k: nat, j: nat)
    requires k > 0 && j < k
    ensures Share(n + 1, k, j) == Share(n, k, j) + if n % k == j then 1 else 0
  {
    DivModStep(n, k);
  }

  lemma {:induction false} RoundRobinSize(xs: seq<string>, k: nat, j: nat)
    requires k > 0 && j < k
    ensures |RoundRobin(xs, k, j)| == Share(|xs|, k, j)
  {
    if xs == [] {
      DivModUnique(0, k, 0, 0);
    } else {
      RoundRobinSize(xs[..|xs| - 1], k, j);
      ShareStep(|xs| - 1, k, j);
    }
  }

  // min(range(k), key=lambda idx: (loads[idx], len(groups[idx]), idx))
  method LeastLoaded(loads: array<nat>, groups: array<seq<string>>) returns (index: nat)
    requires loads.Length == groups.Length > 0
    ensures index < loads.Length
    ensures forall i | 0 <= i < loads.Length ::
              loads[index] < loads[i]
              || (loads[index] == loads[i]
                  && (|groups[index]| < |groups[i]| || (|groups[index]| == |groups[i]| && index <= i)))
  {
    index := 0;
    for i := 1 to loads.Length
      invariant index < i
      invariant forall j | 0 <= j < i ::
                  loads[index] < loads[j]
                  || (loads[index] == loads[j]
                      && (|groups[index]| < |groups[j]| || (|groups[index]| == |groups[j]| && index <= j)))
    {
      if loads[i] < loads[index] || (loads[i] == loads[index] && |groups[i]| < |groups[index]|) {
        index := i;
      }
    }
  }

  // The dealing loop: the least loaded group always is the next one in turn.
  method DealSymbols(ordered: seq<string>, k: nat) returns (groups: array<seq<string>>)
    requires k > 0
    ensures groups.Length == k && forall j | 0 <= j < k :: groups[j] == RoundRobin(ordered, k, j)
  {
    groups := new seq<string>[k](_ => []);
    var loads := new nat[k](_ => 0);
    assert forall j | 0 <= j < k :: Share(0, k, j) == 0 by { DivModUnique(0, k, 0, 0); }
    for i := 0 to |ordered|
      invariant forall j | 0 <= j < k :: groups[j] == RoundRobin(ordered[..i], k, j)
      invariant forall j | 0 <= j < k :: loads[j] == |groups[j]| == Share(i, k, j)
    {
      assert ordered[..i + 1][..i] == ordered[..i];
      var index := LeastLoaded(loads, groups);
      assert loads[i % k] == Share(i, k, i % k);
      assert index == i % k;
      groups[index] := groups[index] + [ordered[i]];
      loads[index] := loads[index] + 1;
      forall j | 0 <= j < k
        ensures loads[j] == |groups[j]| == Share(i + 1, k, j)
      {
        ShareStep(i, k, j);
      }
    }
    assert ordered[..|ordered|] == ordered;
  }

  // Always giving the next symbol to the least loaded group deals them out in turn.
  method BuildSymbolGroups(symbols: seq<string>, shardCount: int) returns (built: seq<seq<string>>)
    ensures built == NonEmpty(RoundRobins(SortedDistinct(StrLe, Normalize(symbols)), Max(1, shardCount)))
  {
    hide Normalize, SortedDistinct, StrLe, RoundRobin;
    var k := Max(1, shardCount);
    var normalized := NormalizeDatasetSymbols(symbols);
    var ordered := SortedDistinct(StrLe, normalized);
    var groups := DealSymbols(ordered, k);
    ghost var all := RoundRobins(ordered, k);
    built := [];
    for j := 0 to k
      invariant built == NonEmpty(all[..j])
    {
      assert all[..j + 1][..j] == all[..j];
      if groups[j] != [] {
        built := built + [groups[j]];
      }
    }
    assert all[..k] == all;
  }

  // ---------- splitting to the cap

  function Chunks(group: seq<string>, limit: nat): seq<seq<string>>
    requires limit > 0
    decreases |group|
  {
    if group == [] then [] else if |group| <= limit then [group] else [group[..limit]] + Chunks(group[limit..], limit)
  }

  function SplitAll(groups: seq<seq<string>>, limit: nat): seq<seq<string>>
    requires limit > 0
  {
    if groups == [] then [] else SplitAll(groups[..|groups| - 1], limit) + Chunks(groups[|groups| - 1], limit)
  }

  lemma NextChunk(group: seq<string>, start: nat, limit: nat)
    requires start < |group| && limit > 0
    ensures Chunks(group[start..], limit)
            == [group[start..Min(start + limit, |group|)]]
               + if start + limit <= |group| then Chunks(group[start + limit..], limit) else []
  {
    var rest := group[start..];
    if |rest| <= limit {
      assert group[start..|group|] == rest;
      assert start + limit == |group| ==> group[start + limit..] == [];
    } else {
      assert group[start..start + limit] == rest[..limit] && rest[limit..] == group[start + limit..];
    }
  }

  // range(0, len(group), limit): the slices of one group.
  method AppendChunks(before: seq<seq<string>>, group: seq<string>, limit: nat) returns (limited: seq<seq<string>>)
    requires limit > 0
    ensures limited == before + Chunks(group, limit)
  {
    hide Chunks;
    limited := before;
    var start := 0;
    NoChunks(group, 0, limit);
    while start < |group|
      invariant 0 <= start
      invariant before + Chunks(group, limit) == limited + if start <= |group| then Chunks(group[start..], limit) else []
    {
      var chunk := group[start..Min(start + limit, |group|)];
      ghost var tail := if start + limit <= |group| then Chunks(group[start + limit..], limit) else [];
      NextChunk(group, start, limit);
      assert limited + ([chunk] + tail) == (limited + [chunk]) + tail;
      limited := limited + [chunk];
      start := start + limit;
    }
    NoChunks(group, start, limit);
  }

  lemma NoChunks(group: seq<string>, start: nat, limit: nat)
    requires limit > 0
    ensures start == |group| ==> Chunks(group[start..], limit) == []
    ensures Chunks(group[0..], limit) == Chunks(group, limit)
  {
  }

  method SplitGroupsToSymbolLimit(groups: seq<seq<string>>, maxSymbolsPerShard: int) returns (limited: seq<seq<string>>)
    ensures limited == SplitAll(groups, Max(1, maxSymbolsPerShard))
  {
    var limit := Max(1, maxSymbolsPerShard);
    limited := [];
    for i := 0 to |groups|
      invariant limited == SplitAll(groups[..i], limit)
    {
      assert groups[..i + 1][..i] == groups[..i];
      limited := AppendChunks(limited, groups[i], limit);
    }
    assert groups[..|groups|] == groups;
  }

  function Total(groups: seq<seq<string>>): nat {
    if groups == [] then 0 else Total(groups[..|groups| - 1]) + |groups[|groups| - 1]|
  }

  lemma {:induction false} ChunksCount(group: seq<string>, limit: nat)
    requires limit > 0
    ensures |group| <= |Chunks(group, limit)| * limit
    ensures forall c | c in Chunks(group, limit) :: 0 < |c| <= limit
    decreases |group|
  {
    if |group| > limit {
      ChunksCount(group[limit..], limit);
      Distribute(1, |Chunks(group[limit..], limit)|, limit);
    }
  }

  // However the groups are cut, covering their symbols takes enough shards.
  lemma {:induction false} SplitCount(groups: seq<seq<string>>, limit: nat)
    requires limit > 0
    ensures Total(groups) <= |SplitAll(groups, limit)| * limit
    ensures forall c | c in SplitAll(groups, limit) :: 0 < |c| <= limit
  {
    if groups != [] {
      SplitCount(groups[..|groups| - 1], limit);
      ChunksCount(groups[|groups| - 1], limit);
      Distribute(|SplitAll(groups[..|groups| - 1], limit)|, |Chunks(groups[|groups| - 1], limit)|, limit);
    }
  }

  lemma {:induction false} SplitNothing(groups: seq<seq<string>>, limit: nat)
    requires limit > 0 && forall g | g in groups :: 0 < |g| <= limit
    ensures SplitAll(groups, limit) == groups
  {
    if groups != [] {
      var init := groups[..|groups| - 1];
      assert groups == init + [groups[|groups| - 1]];
      assert forall g | g in init :: g in groups;
      assert groups[|groups| - 1] in groups;
      SplitNothing(init, limit);
    }
  }

  // ---------- the plan

  datatype ShardSpec = ShardSpec(
    index: int,
    shardCount: int,
    symbols: seq<string>,
    symbolsCsv: string,
    symbolCount: int,
    workUnits: int,
    progressSymbolUnits: int
  )

  datatype Plan = Plan(
    symbol: string,
    symbols: seq<string>,
    provider: string,
    estimatedTotalWorkUnits: int,
    baseSymbolWorkUnits: int,
    combineWeightUnits: int,
    maxShards: int,
    maxPods: int,
    maxSymbolsPerShard: int,
    shardCount: int,
    parallelism: int,
    shards: seq<ShardSpec>
  )

  datatype PlanError = NoSymbols | UnknownProvider | UnknownResolution | CannotSatisfy | ValidationError

  // The DatasetShardSpec validators: the normalised spec, or None for a ValidationError.
  function ValidateShard(s: ShardSpec): Option<ShardSpec> {
    var symbols := Normalize(s.symbols);
    if s.index < 0 || s.shardCount < 1 || s.symbolCount < 0 || s.workUnits < 1 || s.progressSymbolUnits < 1 then None
    else if s.symbolCount != |symbols| then None
    else if s.symbolsCsv != "" && s.symbolsCsv != Join(",", symbols) then None
    else Some(s.(symbols := symbols, symbolsCsv := Join(",", symbols)))
  }

  // The DatasetShardPlan validators.
  function ValidatePlan(p: Plan): Option<Plan> {
    var symbols := Normalize(p.symbols);
    if p.estimatedTotalWorkUnits < 0 || p.baseSymbolWorkUnits < 1 || p.estimatedTotalWorkUnits < 1 || p.combineWeightUnits < 1
       || p.maxShards < 1 || p.maxPods < 1 || p.maxSymbolsPerShard < 1 || p.shardCount < 1 || p.parallelism < 1 then None
    else if p.shardCount != |p.shards| || p.parallelism > p.maxPods || p.shardCount > p.maxShards then None
    else if symbols != [] && p.symbol != symbols[0] then None
    else Some(p.(symbols := symbols))
  }

  function ShardAt(groups: seq<seq<string>>, base: int, i: nat): ShardSpec
    requires i < |groups|
  {
    ShardSpec(i, |groups|, groups[i], Join(",", groups[i]), |groups[i]|, Max(1, |groups[i]| * base), Max(1, base))
  }

  method BuildDatasetShardPlan(r: Request) returns (result: Result<Plan, PlanError>)
    ensures result == PlanFor(r)
  {
    var normalized := NormalizeDatasetSymbols(r.symbols);
    if normalized == [] {
      return Err(NoSymbols);
    }
    var provider := Lower(Strip(r.provider));
    if provider !in {"alpaca", "yahoo"} {
      return Err(UnknownProvider);
    }
    var weight := ResolutionWeight(r.resolution);
    if weight.None? {
      return Err(UnknownResolution);
    }
    var shardCount := EstimateShardCount(|normalized|, r, weight.value);
    NormalizeIdempotent(r.symbols);
    var groups := BuildSymbolGroups(normalized, shardCount);
    groups := SplitGroupsToSymbolLimit(groups, r.maxSymbolsPerShard);
    if |groups| > r.maxShards {
      return Err(CannotSatisfy);
    }
    var parallelism := Max(1, Min(r.maxPods, |groups|));
    var base := PerSymbol(r, weight.value);
    var shards := BuildShardSpecs(groups, base);
    if shards.None? {
      return Err(ValidationError);
    }
    var plan := Plan(normalized[0], normalized, provider, Max(1, |normalized| * base), base, Max(1, |shards.value|),
                     r.maxShards, r.maxPods, r.maxSymbolsPerShard, |shards.value|, parallelism, shards.value);
    var checked := ValidatePlan(plan);
    result := if checked.None? then Err(ValidationError) else Ok(checked.value);
  }

  method BuildShardSpecs(groups: seq<seq<string>>, base: int) returns (shards: Option<seq<ShardSpec>>)
    ensures shards == ValidatedShards(groups, base)
  {
    var built := [];
    for i := 0 to |groups|
      invariant |built| == i && forall j | 0 <= j < i :: ValidateShard(ShardAt(groups, base, j)) == Some(built[j])
    {
      var validated := ValidateShard(ShardAt(groups, base, i));
      if validated.None? {
        return None;
      }
      built := built + [validated.value];
    }
    assert forall i | 0 <= i < |groups| :: ValidateShard(ShardAt(groups, base, i)).Some?;
    shards := Some(built);
    assert built == ValidatedShards(groups, base).value;
  }

  function ValidatedShards(groups: seq<seq<string>>, base: int): Option<seq<ShardSpec>> {
    if forall i | 0 <= i < |groups| :: ValidateShard(ShardAt(groups, base, i)).Some? then
      Some(seq(|groups|, i requires 0 <= i < |groups| => ValidateShard(ShardAt(groups, base, i)).value))
    else None
  }

  // The groups a request is planned into, before the final size check.
  function PlannedGroups(r: Request, weight: nat): seq<seq<string>> {
    var normalized := Normalize(r.symbols);
    var k := EstimateShardCount(|normalized|, r, weight);
    SplitAll(NonEmpty(RoundRobins(SortedDistinct(StrLe, normalized), Max(1, k))), Max(1, r.maxSymbolsPerShard))
  }

  function PlanFor(r: Request): Result<Plan, PlanError> {
    var normalized, provider, weight := Normalize(r.symbols), Lower(Strip(r.provider)), ResolutionWeight(r.resolution);
    if normalized == [] then Err(NoSymbols)
    else if provider !in {"alpaca", "yahoo"} then Err(UnknownProvider)
    else if weight.None? then Err(UnknownResolution)
    else
      var groups, base := PlannedGroups(r, weight.value), PerSymbol(r, weight.value);
      if |groups| > r.maxShards then Err(CannotSatisfy)
      else
        match ValidatedShards(groups, base)
        case None => Err(ValidationError)
        case Some(shards) =>
          match ValidatePlan(Plan(normalized[0], normalized, provider, Max(1, |normalized| * base), base, Max(1, |shards|),
                                  r.maxShards, r.maxPods, r.maxSymbolsPerShard, |shards|,
                                  Max(1, Min(r.maxPods, |groups|)), shards))
          case None => Err(ValidationError)
          case Some(plan) => Ok(plan)
  }

  // ---------- what the grouping achieves

  // The i-th sorted symbol is the (i / k)-th of group i % k.
  lemma {:induction false} RoundRobinPlaces(xs: seq<string>, k: nat, i: nat)
    requires k > 0 && i < |xs|
    ensures i % k < k && i / k < |RoundRobin(xs, k, i % k)| && RoundRobin(xs, k, i % k)[i / k] == xs[i]
  {
    var init := xs[..|xs| - 1];
    RoundRobinSize(init, k, i % k);
    if i < |init| {
      RoundRobinPlaces(init, k, i);
      assert init[i] == xs[i];
    }
  }

  lemma ShareBalanced(n: nat, k: nat, a: nat, b: nat)
    requires k > 0
    ensures -1 <= Share(n, k, a) - Share(n, k, b) <= 1
  {
  }

  lemma ShareAtMost(n: nat, k: nat, j: nat, limit: nat)
    requires k > 0 && j < k && n <= k * limit
    ensures Share(n, k, j) <= limit
  {
    QuotientAtMost(n / k, n % k, k, limit);
  }

  lemma QuotientAtMost(q: int, r: nat, k: nat, limit: nat)
    requires r < k && q * k + r <= k * limit
    ensures q < limit || (q == limit && r == 0)
  {
  }

  lemma ShareAtLeast(n: nat, k: nat, j: nat)
    requires 0 < k <= n && j < k
    ensures Share(n, k, j) >= 1
  {
  }

  function FirstGroups(xs: seq<string>, k: nat, m: nat): nat
    requires k > 0
  {
    if m == 0 then 0 else FirstGroups(xs, k, m - 1) + |RoundRobin(xs, k, m - 1)|
  }

  lemma {:induction false} FirstGroupsStep(xs: seq<string>, k: nat, m: nat)
    requires k > 0 && xs != []
    ensures FirstGroups(xs, k, m) == FirstGroups(xs[..|xs| - 1], k, m) + if (|xs| - 1) % k < m then 1 else 0
  {
    if m > 0 {
      FirstGroupsStep(xs, k, m - 1);
    }
  }

  lemma {:induction false} FirstGroupsTotal(xs: seq<string>, k: nat)
    requires k > 0
    ensures FirstGroups(xs, k, k) == |xs|
  {
    if xs == [] {
      FirstGroupsEmpty(k, k);
    } else {
      FirstGroupsTotal(xs[..|xs| - 1], k);
      FirstGroupsStep(xs, k, k);
    }
  }

  lemma {:induction false} FirstGroupsEmpty(k: nat, m: nat)
    requires k > 0
    ensures FirstGroups([], k, m) == 0
  {
    if m > 0 { FirstGroupsEmpty(k, m - 1); }
  }

  lemma {:induction false} TotalOfFirst(xs: seq<string>, k: nat, m: nat)
    requires 0 < k && m <= k
    ensures Total(RoundRobins(xs, k)[..m]) == FirstGroups(xs, k, m)
  {
    if m > 0 {
      TotalOfFirst(xs, k, m - 1);
      assert RoundRobins(xs, k)[..m][..m - 1] == RoundRobins(xs, k)[..m - 1];
    }
  }

  // No symbol is lost or repeated by the grouping.
  lemma RoundRobinTotal(xs: seq<string>, k: nat)
    requires k > 0
    ensures Total(RoundRobins(xs, k)) == |xs|
  {
    TotalOfFirst(xs, k, k);
    FirstGroupsTotal(xs, k);
    assert RoundRobins(xs, k)[..k] == RoundRobins(xs, k);
  }

  lemma {:induction false} NonEmptyTotal(groups: seq<seq<string>>)
    ensures Total(NonEmpty(groups)) == Total(groups)
  {
    if groups != [] {
      var init, last := groups[..|groups| - 1], groups[|groups| - 1];
      NonEmptyTotal(init);
      if last != [] {
        assert NonEmpty(groups) == NonEmpty(init) + [last];
        assert (NonEmpty(init) + [last])[..|NonEmpty(init)|] == NonEmpty(init);
      } else {
        assert NonEmpty(groups) == NonEmpty(init);
      }
    }
  }

  lemma {:induction false} NonEmptyKeeps(groups: seq<seq<string>>)
    requires forall g | g in groups :: g != []
    ensures NonEmpty(groups) == groups
  {
    if groups != [] {
      var init := groups[..|groups| - 1];
      assert groups == init + [groups[|groups| - 1]];
      assert forall g | g in init :: g in groups;
      assert groups[|groups| - 1] in groups;
      NonEmptyKeeps(init);
    }
  }

  // ---------- the estimate

  lemma EstimateWithinCap(n: nat, r: Request, weight: nat)
    requires n > 0 && CeilDiv(n, Max(1, r.maxSymbolsPerShard)) <= r.maxShards
    ensures var k := EstimateShardCount(n, r, weight);
            0 < k <= n && k <= r.maxShards && n <= k * Max(1, r.maxSymbolsPerShard)
  {
    var limit := Max(1, r.maxSymbolsPerShard);
    var cap := CeilDiv(n, limit);
    CeilDivLeast(n, limit, 0);
    CeilDivLeast(n, limit, n);
    AtLeastFactor(limit, n);
    var k := EstimateShardCount(n, r, weight);
    assert cap <= k;
    CeilDivLeast(n, limit, k);
  }

  // ---------- feasibility is exact

  predicate WellFormed(r: Request) {
    Normalize(r.symbols) != [] && Lower(Strip(r.provider)) in {"alpaca", "yahoo"} && ResolutionWeight(r.resolution).Some?
  }

  lemma OrderedSymbols(symbols: seq<string>)
    ensures |SortedDistinct(StrLe, Normalize(symbols))| == |Normalize(symbols)|
    ensures Normal(SortedDistinct(StrLe, Normalize(symbols))) && Increasing(StrLe, SortedDistinct(StrLe, Normalize(symbols)))
    ensures forall s :: s in SortedDistinct(StrLe, Normalize(symbols)) <==> s in Normalize(symbols)
  {
    StrLeTotal();
    NormalizeIsNormal(symbols);
    SortedDistinctLength(StrLe, Normalize(symbols));
    SortedDistinctSpec(StrLe, Normalize(symbols));
  }

  // When the cap can be met, the split does nothing: the shards are the round-robin groups.
  lemma FeasibleGroups(r: Request, weight: nat)
    requires Normalize(r.symbols) != []
    requires CeilDiv(|Normalize(r.symbols)|, Max(1, r.maxSymbolsPerShard)) <= r.maxShards
    ensures var n := |Normalize(r.symbols)|;
            var k := EstimateShardCount(n, r, weight);
            && 0 < k <= r.maxShards
            && PlannedGroups(r, weight) == RoundRobins(SortedDistinct(StrLe, Normalize(r.symbols)), k)
            && forall j | 0 <= j < k :: 0 < |PlannedGroups(r, weight)[j]| == Share(n, k, j) <= Max(1, r.maxSymbolsPerShard)
  {
    var n, limit := |Normalize(r.symbols)|, Max(1, r.maxSymbolsPerShard);
    var k := EstimateShardCount(n, r, weight);
    EstimateWithinCap(n, r, weight);
    OrderedSymbols(r.symbols);
    var xs := SortedDistinct(StrLe, Normalize(r.symbols));
    forall j | 0 <= j < k
      ensures 0 < |RoundRobins(xs, k)[j]| == Share(n, k, j) <= limit
    {
      RoundRobinSize(xs, k, j);
      ShareAtLeast(n, k, j);
      ShareAtMost(n, k, j, limit);
    }
    NonEmptyKeeps(RoundRobins(xs, k));
    SplitNothing(RoundRobins(xs, k), limit);
  }

  // When it cannot, even the split shards are too many.
  lemma InfeasibleGroups(r: Request, weight: nat)
    requires CeilDiv(|Normalize(r.symbols)|, Max(1, r.maxSymbolsPerShard)) > r.maxShards
    ensures |PlannedGroups(r, weight)| > r.maxShards
  {
    var n, limit := |Normalize(r.symbols)|, Max(1, r.maxSymbolsPerShard);
    var k := Max(1, EstimateShardCount(n, r, weight));
    OrderedSymbols(r.symbols);
    var groups := RoundRobins(SortedDistinct(StrLe, Normalize(r.symbols)), k);
    RoundRobinTotal(SortedDistinct(StrLe, Normalize(r.symbols)), k);
    NonEmptyTotal(groups);
    SplitCount(NonEmpty(groups), limit);
    CeilDivLeast(n, limit, |PlannedGroups(r, weight)|);
  }

  // "Cannot satisfy" is raised exactly when even full shards would be too many, whatever the
  // parameters; no sign of a parameter is assumed.
  lemma CannotSatisfyIff(r: Request)
    requires WellFormed(r)
    ensures PlanFor(r) == Err(CannotSatisfy)
            <==> CeilDiv(|Normalize(r.symbols)|, Max(1, r.maxSymbolsPerShard)) > r.maxShards
  {
    var weight := ResolutionWeight(r.resolution).value;
    if CeilDiv(|Normalize(r.symbols)|, Max(1, r.maxSymbolsPerShard)) > r.maxShards {
      InfeasibleGroups(r, weight);
    } else {
      FeasibleGroups(r, weight);
    }
  }

  // ---------- the validators accept the plan

  lemma PerSymbolPositive(r: Request)
    requires ResolutionWeight(r.resolution).Some?
    ensures PerSymbol(r, ResolutionWeight(r.resolution).value) >= 1
  {
  }

  lemma GroupIsNormal(xs: seq<string>, k: nat, j: nat)
    requires k > 0 && j < k && Normal(xs)
    ensures Normal(RoundRobin(xs, k, j)) && forall s | s in RoundRobin(xs, k, j) :: s in xs
    decreases |xs|
  {
    if xs != [] {
      var init, last := xs[..|xs| - 1], xs[|xs| - 1];
      assert xs == init + [last];
      assert Normal(init) by {
        assert forall s | s in init :: s in xs;
      }
      GroupIsNormal(init, k, j);
      assert last in xs && last !in init;
    }
  }

  lemma FeasibleShardsValidate(r: Request)
    requires WellFormed(r)
    requires CeilDiv(|Normalize(r.symbols)|, Max(1, r.maxSymbolsPerShard)) <= r.maxShards
    ensures var weight := ResolutionWeight(r.resolution).value;
            var groups, base := PlannedGroups(r, weight), PerSymbol(r, weight);
            forall i | 0 <= i < |groups| :: ValidateShard(ShardAt(groups, base, i)) == Some(ShardAt(groups, base, i))
  {
    var weight := ResolutionWeight(r.resolution).value;
    var groups, base := PlannedGroups(r, weight), PerSymbol(r, weight);
    FeasibleGroups(r, weight);
    OrderedSymbols(r.symbols);
    PerSymbolPositive(r);
    forall i | 0 <= i < |groups|
      ensures ValidateShard(ShardAt(groups, base, i)) == Some(ShardAt(groups, base, i))
    {
      GroupIsNormal(SortedDistinct(StrLe, Normalize(r.symbols)), |groups|, i);
      NormalizeKeepsNormal(groups[i]);
    }
  }

  // Once feasible, every validator accepts the built plan exactly when the two parameters nothing
  // else checks are positive.
  lemma ValidatorsAcceptIff(r: Request)
    requires WellFormed(r)
    requires CeilDiv(|Normalize(r.symbols)|, Max(1, r.maxSymbolsPerShard)) <= r.maxShards
    ensures PlanFor(r).Ok? <==> r.maxPods >= 1 && r.maxSymbolsPerShard >= 1
    ensures PlanFor(r).Ok? ==>
              var plan := PlanFor(r).value;
              var groups := PlannedGroups(r, ResolutionWeight(r.resolution).value);
              && plan.symbols == Normalize(r.symbols)
              && plan.shardCount == |plan.shards| == |groups|
              && 1 <= plan.parallelism <= plan.maxPods
              && forall i | 0 <= i < |groups| :: plan.shards[i] == ShardAt(groups, plan.baseSymbolWorkUnits, i)
  {
    hide Normalize, PlannedGroups, RoundRobins, ValidateShard, ShardAt, CeilDiv, EstimateShardCount, PerSymbol;
    var weight := ResolutionWeight(r.resolution).value;
    var groups, base := PlannedGroups(r, weight), PerSymbol(r, weight);
    FeasibleGroups(r, weight);
    PerSymbolPositive(r);
    FeasibleShardsValidate(r);
    NormalizeIdempotent(r.symbols);
    assert ValidatedShards(groups, base) == Some(seq(|groups|, i requires 0 <= i < |groups| => ShardAt(groups, base, i))) by {
      assert ValidatedShards(groups, base).Some?;
      assert ValidatedShards(groups, base).value == seq(|groups|, i requires 0 <= i < |groups| => ShardAt(groups, base, i));
    }
  }

  function WorkUnits(shards: seq<ShardSpec>): int {
    if shards == [] then 0 else WorkUnits(shards[..|shards| - 1]) + shards[|shards| - 1].workUnits
  }

  lemma {:induction false} WorkUnitsOfShards(shards: seq<ShardSpec>, groups: seq<seq<string>>, base: int)
    requires |shards| == |groups| && base >= 1
    requires forall i | 0 <= i < |shards| :: groups[i] != [] && shards[i].workUnits == Max(1, |groups[i]| * base)
    ensures WorkUnits(shards) == Total(groups) * base
  {
    if shards != [] {
      var m := |shards| - 1;
      WorkUnitsOfShards(shards[..m], groups[..m], base);
      AtLeastFactor(|groups[m]|, base);
      Distribute(Total(groups[..m]), |groups[m]|, base);
    }
  }

  // The shards' work units add up to the plan's total, so none is weighted twice or left out.
  lemma WorkUnitsAddUp(r: Request)
    requires PlanFor(r).Ok?
    ensures WorkUnits(PlanFor(r).value.shards) == PlanFor(r).value.estimatedTotalWorkUnits
  {
    hide Normalize, SortedDistinct, StrLe, RoundRobins, CeilDiv, EstimateShardCount, ValidateShard, Share, WorkUnits;
    var weight := ResolutionWeight(r.resolution).value;
    var groups := PlannedGroups(r, weight);
    CannotSatisfyIff(r);
    FeasibleGroups(r, weight);
    ValidatorsAcceptIff(r);
    PerSymbolPositive(r);
    OrderedSymbols(r.symbols);
    RoundRobinTotal(SortedDistinct(StrLe, Normalize(r.symbols)), |groups|);
    WorkUnitsOfShards(PlanFor(r).value.shards, groups, PerSymbol(r, weight));
    AtLeastFactor(|Normalize(r.symbols)|, PerSymbol(r, weight));
  }

  // ---------- what a plan is, without the functions that compute it

  // The regular-session bars of one day.
  predicate BarsPerDay(resolution: string, bars: nat) {
    match bars
    case 60 => resolution == "1m"
    case 12 => resolution == "5m"
    case 4 => resolution == "15m"
    case 1 => resolution == "1h" || resolution == "1d"
    case _ => false
  }

  // The work units of one symbol: a unit for each bar of each day, both days counted and one at
  // least, and twice that with options.
  ghost predicate SymbolUnits(r: Request, units: int) {
    exists days: nat, bars: nat ::
      DaySpan(r, days) && BarsPerDay(r.resolution, bars) && units == days * bars + if r.optionsEnabled then days * bars else 0
  }

  predicate DaySpan(r: Request, days: nat) {
    if r.endDate < r.startDate then days == 1 else days == r.endDate - r.startDate + 1
  }

  // The least number of shards that holds n symbols at `cap` each and `total` units at `target`
  // each, or `most` shards when that many are too few for the units.
  ghost predicate IsShardCount(k: int, most: int, n: nat, cap: nat, total: int, target: nat) {
    && 1 <= k <= most && n <= k * cap && (total <= k * target || k == most)
    && forall j | 1 <= j < k :: j * cap < n || j * target < total
  }

  lemma EstimateIsLeast(n: nat, r: Request, weight: nat)
    requires n > 0 && PerSymbol(r, weight) >= 1 && n <= r.maxShards * Max(1, r.maxSymbolsPerShard)
    ensures IsShardCount(EstimateShardCount(n, r, weight), Min(n, r.maxShards), n, Max(1, r.maxSymbolsPerShard),
                         n * PerSymbol(r, weight), Max(1, r.targetWorkUnits))
  {
    var cap, total, target := Max(1, r.maxSymbolsPerShard), n * PerSymbol(r, weight), Max(1, r.targetWorkUnits);
    var k, most := EstimateShardCount(n, r, weight), Min(n, r.maxShards);
    hide PerSymbol, CeilDiv;
    AtLeastFactor(n, PerSymbol(r, weight));
    CeilDivLeast(n, cap, r.maxShards);
    EstimateWithinCap(n, r, weight);
    CeilDivLeast(total, target, k);
    forall j | 1 <= j < k
      ensures j * cap < n || j * target < total
    {
      CeilDivLeast(n, cap, j);
      CeilDivLeast(total, target, j);
    }
  }

  lemma UnitsMeaning(r: Request)
    requires ResolutionWeight(r.resolution).Some?
    ensures SymbolUnits(r, PerSymbol(r, ResolutionWeight(r.resolution).value))
  {
    var days: nat, bars := Max(1, r.endDate - r.startDate + 1), ResolutionWeight(r.resolution).value;
    assert DaySpan(r, days) && BarsPerDay(r.resolution, bars);
    assert PerSymbol(r, bars) == days * bars + if r.optionsEnabled then days * bars else 0;
  }

  // The shards deal out the sorted symbols in turn.
  ghost predicate DealsOut(shards: seq<ShardSpec>, sorted: seq<string>) {
    && shards != []
    && (forall i | 0 <= i < |sorted| ::
          var k := |shards|;
          i / k < |shards[i % k].symbols| && shards[i % k].symbols[i / k] == sorted[i])
    && forall j | 0 <= j < |shards| :: |shards[j].symbols| == Share(|sorted|, |shards|, j)
  }

  ghost predicate HeaderMeans(r: Request, plan: Plan) {
    var symbols := Normalize(r.symbols);
    var n, k := |symbols|, |plan.shards|;
    && n > 0 && plan.symbols == symbols && plan.symbol == symbols[0] && plan.provider == Lower(Strip(r.provider))
    && SymbolUnits(r, plan.baseSymbolWorkUnits) && plan.estimatedTotalWorkUnits == n * plan.baseSymbolWorkUnits
    && r.maxSymbolsPerShard > 0
    && IsShardCount(k, Min(n, r.maxShards), n, r.maxSymbolsPerShard, plan.estimatedTotalWorkUnits, Max(1, r.targetWorkUnits))
    && plan.shardCount == k && plan.parallelism == Min(r.maxPods, k)
  }

  ghost predicate ShardsMean(r: Request, plan: Plan) {
    && DealsOut(plan.shards, SortedDistinct(StrLe, Normalize(r.symbols)))
    && forall j | 0 <= j < |plan.shards| :: ShardMeans(plan.shards[j], j, plan, r.maxSymbolsPerShard)
  }

  predicate ShardMeans(shard: ShardSpec, j: nat, plan: Plan, cap: int) {
    && shard.index == j && shard.shardCount == |plan.shards| && 0 < |shard.symbols| == shard.symbolCount <= cap
    && shard.workUnits == |shard.symbols| * plan.baseSymbolWorkUnits
    && shard.progressSymbolUnits == plan.baseSymbolWorkUnits && shard.symbolsCsv == Join(",", shard.symbols)
  }

  lemma PlanHeader(r: Request)
    requires PlanFor(r).Ok? && |Normalize(r.symbols)| <= r.maxShards * Max(1, r.maxSymbolsPerShard)
    ensures HeaderMeans(r, PlanFor(r).value)
    ensures |PlanFor(r).value.shards| == EstimateShardCount(|Normalize(r.symbols)|, r, ResolutionWeight(r.resolution).value)
    ensures PlanFor(r).value.baseSymbolWorkUnits == PerSymbol(r, ResolutionWeight(r.resolution).value) >= 1
  {
    hide Normalize, SortedDistinct, StrLe, RoundRobins, ValidateShard, Share, PerSymbol, CeilDiv, EstimateShardCount, PlannedGroups,
         IsShardCount, SymbolUnits;
    var n, weight := |Normalize(r.symbols)|, ResolutionWeight(r.resolution).value;
    CeilDivLeast(n, Max(1, r.maxSymbolsPerShard), r.maxShards);
    FeasibleGroups(r, weight);
    ValidatorsAcceptIff(r);
    PerSymbolPositive(r);
    UnitsMeaning(r);
    EstimateIsLeast(n, r, weight);
    AtLeastFactor(n, PerSymbol(r, weight));
  }

  // The shards of a plan are made of the planned groups.
  lemma ShardsOfGroups(r: Request, sorted: seq<string>)
    requires PlanFor(r).Ok? && |Normalize(r.symbols)| <= r.maxShards * Max(1, r.maxSymbolsPerShard)
    requires sorted == SortedDistinct(StrLe, Normalize(r.symbols))
    ensures var plan := PlanFor(r).value;
            && 0 < |plan.shards| && plan.baseSymbolWorkUnits >= 1 && r.maxSymbolsPerShard >= 1
            && forall j | 0 <= j < |plan.shards| ::
                 && plan.shards[j] == ShardAt(RoundRobins(sorted, |plan.shards|), plan.baseSymbolWorkUnits, j)
                 && 0 < |RoundRobins(sorted, |plan.shards|)[j]| <= r.maxSymbolsPerShard
                 && |RoundRobins(sorted, |plan.shards|)[j]| == Share(|sorted|, |plan.shards|, j)
  {
    hide Normalize, SortedDistinct, StrLe, ValidateShard, ShardAt, Share, PerSymbol, CeilDiv, EstimateShardCount, PlannedGroups,
         PlanFor, HeaderMeans, RoundRobins;
    OkIsWellFormed(r);
    var n, weight := |Normalize(r.symbols)|, ResolutionWeight(r.resolution).value;
    CeilDivLeast(n, Max(1, r.maxSymbolsPerShard), r.maxShards);
    FeasibleGroups(r, weight);
    ValidatorsAcceptIff(r);
    PlanHeader(r);
    OrderedSymbols(r.symbols);
  }

  lemma PlanShards(r: Request)
    requires PlanFor(r).Ok? && |Normalize(r.symbols)| <= r.maxShards * Max(1, r.maxSymbolsPerShard)
    ensures ShardsMean(r, PlanFor(r).value)
  {
    hide Normalize, SortedDistinct, StrLe, PlanFor, RoundRobin, Share, Join;
    var sorted, plan := SortedDistinct(StrLe, Normalize(r.symbols)), PlanFor(r).value;
    ShardsOfGroups(r, sorted);
    var k := |plan.shards|;
    forall i | 0 <= i < |sorted|
      ensures i / k < |plan.shards[i % k].symbols| && plan.shards[i % k].symbols[i / k] == sorted[i]
    {
      RoundRobinPlaces(sorted, k, i);
    }
    forall j | 0 <= j < k
      ensures ShardMeans(plan.shards[j], j, plan, r.maxSymbolsPerShard)
    {
      AtLeastFactor(|RoundRobins(sorted, k)[j]|, plan.baseSymbolWorkUnits);
    }
  }

  lemma OkIsWellFormed(r: Request)
    requires PlanFor(r).Ok?
    ensures WellFormed(r)
  {
  }

  // A plan exists exactly when there are symbols, a known provider and resolution, room for all of
  // the symbols, and positive limits; and this is what it holds.
  lemma PlanMeaning(r: Request)
    ensures PlanFor(r).Ok?
            <==> WellFormed(r) && |Normalize(r.symbols)| <= r.maxShards * Max(1, r.maxSymbolsPerShard)
                 && r.maxPods >= 1 && r.maxSymbolsPerShard >= 1
    ensures PlanFor(r).Ok? ==> HeaderMeans(r, PlanFor(r).value) && ShardsMean(r, PlanFor(r).value)
  {
    if WellFormed(r) {
      hide *;
      CeilDivLeast(|Normalize(r.symbols)|, Max(1, r.maxSymbolsPerShard), r.maxShards);
      CannotSatisfyIff(r);
      if |Normalize(r.symbols)| <= r.maxShards * Max(1, r.maxSymbolsPerShard) {
        ValidatorsAcceptIff(r);
        if PlanFor(r).Ok? {
          PlanHeader(r);
          PlanShards(r);
        }
      }
    } else if PlanFor(r).Ok? {
      OkIsWellFormed(r);
    }
  }
}
