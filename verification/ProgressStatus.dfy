// datasets/argo_progress_status.py: one percentage for a sharded download, weighing each
// workflow node by its shard's work units.
module ProgressStatus {
  import opened Common
  import opened Progress

  // The parts of a workflow node that are read: str(progress) when it has one.
  datatype Node = Node(template: string, parameters: map<string, string>, phase: string, progress: Option<string>)

  datatype Shard = Shard(id: string, outputDir: string, workUnits: int)

  datatype Plan = Plan(shards: seq<Shard>, combineWeightUnits: int)

  // The plan model's field constraint on work units.
  predicate ValidShards(shards: seq<Shard>) { forall i | 0 <= i < |shards| :: shards[i].workUnits >= 1 }

  // parameters.get(key), with the empty string treated as missing.
  function Param(node: Node, key: string): Option<string> {
    if key in node.parameters && node.parameters[key] != "" then Some(node.parameters[key]) else None
  }

  // ---------- which node speaks for what

  predicate Names(node: Node, key: string, value: string) {
    node.template == "download-shard" && Param(node, key) == Some(value)
  }

  function IndexBy(nodes: seq<Node>, key: string): map<string, Node> {
    if nodes == [] then map[]
    else
      var node := nodes[|nodes| - 1];
      var index := IndexBy(nodes[..|nodes| - 1], key);
      if node.template == "download-shard" && Param(node, key).Some? then index[Param(node, key).value := node] else index
  }

  function LastOf(nodes: seq<Node>, template: string): Option<Node> {
    if nodes == [] then None
    else if nodes[|nodes| - 1].template == template then Some(nodes[|nodes| - 1])
    else LastOf(nodes[..|nodes| - 1], template)
  }

  // Node i is the last download node that carries the value.
  ghost predicate LastNamed(nodes: seq<Node>, key: string, value: string, i: int) {
    0 <= i < |nodes| && Names(nodes[i], key, value) && forall j | i < j < |nodes| :: !Names(nodes[j], key, value)
  }

  // The index holds exactly the values some node carries, each with the last such node.
  lemma {:induction false} IndexHoldsLast(nodes: seq<Node>, key: string, value: string)
    ensures value in IndexBy(nodes, key) <==> exists i :: LastNamed(nodes, key, value, i)
    ensures forall i | LastNamed(nodes, key, value, i) :: value in IndexBy(nodes, key) && IndexBy(nodes, key)[value] == nodes[i]
  {
    hide Param;
    if nodes != [] {
      var last := |nodes| - 1;
      var rest := nodes[..last];
      IndexHoldsLast(rest, key, value);
      if Names(nodes[last], key, value) {
        assert LastNamed(nodes, key, value, last);
      } else {
        forall i
          ensures LastNamed(nodes, key, value, i) <==> LastNamed(rest, key, value, i)
        {
          assert forall j | 0 <= j < last :: rest[j] == nodes[j];
        }
      }
    }
  }

  // By shard id first, by output directory otherwise.
  function NodeFor(nodes: seq<Node>, shard: Shard): Option<Node> {
    if shard.id in IndexBy(nodes, "shard-id") then Some(IndexBy(nodes, "shard-id")[shard.id])
    else if shard.outputDir in IndexBy(nodes, "output-dir") then Some(IndexBy(nodes, "output-dir")[shard.outputDir])
    else None
  }

  // How much of its work a node reports as done; None when it says nothing readable.
  function Reported(node: Node): (f: Option<real>)
    ensures f.Some? ==> 0.0 <= f.value <= 1.0
  {
    if node.phase == "Succeeded" then Some(1.0)
    else
      match node.progress
      case None => None
      case Some(text) =>
        match ParseProgress(text)
        case None => None
        case Some(pair) => Some(ProgressFraction(pair.0, pair.1))
  }

  function Fraction(node: Option<Node>): (f: real)
    ensures 0.0 <= f <= 1.0
  {
    if node.Some? && Reported(node.value).Some? then Reported(node.value).value else 0.0
  }

  // ---------- weighted means

  // A share of the work: its weight and how much of it is done.
  datatype Part = Part(fraction: real, weight: real)

  predicate ValidPart(p: Part) { 0.0 <= p.fraction <= 1.0 && p.weight > 0.0 }

  predicate ValidParts(parts: seq<Part>) { forall i | 0 <= i < |parts| :: ValidPart(parts[i]) }

  function Amount(p: Part): real { p.fraction * p.weight }

  function Done(parts: seq<Part>): real {
    if parts == [] then 0.0 else Done(parts[..|parts| - 1]) + Amount(parts[|parts| - 1])
  }

  function Work(parts: seq<Part>): real {
    if parts == [] then 0.0 else Work(parts[..|parts| - 1]) + parts[|parts| - 1].weight
  }

  function MeanPct(done: real, work: real): real {
    if work <= 0.0 then 0.0 else MinR(100.0, done / work * 100.0)
  }

  predicate AllDone(parts: seq<Part>) { forall i | 0 <= i < |parts| :: parts[i].fraction == 1.0 }

  lemma AmountBounds(p: Part)
    requires ValidPart(p)
    ensures 0.0 <= Amount(p) <= p.weight && (Amount(p) == p.weight <==> p.fraction == 1.0)
  {
    PartOf(p.fraction, p.weight, Amount(p));
  }

  lemma PartOf(f: real, w: real, a: real)
    requires 0.0 <= f <= 1.0 && w > 0.0 && a == f * w
    ensures 0.0 <= a <= w && (a == w <==> f == 1.0)
  {
    ScaleLe(0.0, f, w);
    if f < 1.0 {
      var gap := 1.0 - f;
      assert gap * w > 0.0;
      assert w - a == gap * w;
    } else {
      ScaleLe(1.0, f, w);
      ScaleLe(f, 1.0, w);
    }
  }

  lemma {:induction false} DoneBounds(parts: seq<Part>)
    requires ValidParts(parts)
    ensures 0.0 <= Done(parts) <= Work(parts) && (parts != [] ==> Work(parts) > 0.0)
    ensures Done(parts) == Work(parts) <==> AllDone(parts)
  {
    if parts != [] {
      var last := |parts| - 1;
      DoneBounds(parts[..last]);
      AmountBounds(parts[last]);
      AllDoneSplit(parts);
    }
  }

  lemma AllDoneSplit(parts: seq<Part>)
    requires parts != []
    ensures AllDone(parts) <==> AllDone(parts[..|parts| - 1]) && parts[|parts| - 1].fraction == 1.0
  {
  }

  lemma MeanBounds(done: real, work: real)
    requires 0.0 <= done <= work && work > 0.0
    ensures 0.0 <= MeanPct(done, work) <= 100.0 && (MeanPct(done, work) == 100.0 <==> done == work)
  {
  }

  lemma MeanGrows(done: real, done': real, work: real)
    requires done <= done'
    ensures MeanPct(done, work) <= MeanPct(done', work)
  {
  }

  predicate PartAdvances(p: Part, p': Part) { p.weight == p'.weight && p.fraction <= p'.fraction }

  lemma {:induction false} DoneAdvances(parts: seq<Part>, parts': seq<Part>)
    requires |parts| == |parts'| && ValidParts(parts) && ValidParts(parts')
    requires forall i | 0 <= i < |parts| :: PartAdvances(parts[i], parts'[i])
    ensures Done(parts) <= Done(parts') && Work(parts) == Work(parts')
  {
    if parts != [] {
      var last := |parts| - 1;
      assert PartAdvances(parts[last], parts'[last]) && ValidPart(parts[last]);
      DoneAdvances(parts[..last], parts'[..last]);
      ScaleLe(parts[last].fraction, parts'[last].fraction, parts[last].weight);
    }
  }

  // ---------- the percentage

  function PartFor(nodes: seq<Node>, shard: Shard): Part { Part(Fraction(NodeFor(nodes, shard)), shard.workUnits as real) }

  function ShardParts(shards: seq<Shard>, nodes: seq<Node>): (r: seq<Part>)
    ensures |r| == |shards| && forall i | 0 <= i < |shards| :: r[i] == PartFor(nodes, shards[i])
  {
    if shards == [] then []
    else ShardParts(shards[..|shards| - 1], nodes) + [PartFor(nodes, shards[|shards| - 1])]
  }

  function CombinePart(plan: Plan, nodes: seq<Node>): Part {
    Part(Fraction(LastOf(nodes, "combine-shards")), Max(1, plan.combineWeightUnits) as real)
  }

  // The shards' parts, then the combine step's.
  function Parts(plan: Plan, nodes: seq<Node>): seq<Part> { ShardParts(plan.shards, nodes) + [CombinePart(plan, nodes)] }

  // The aggregate node speaks for the whole workflow once it reports anything.
  predicate AggregateDecides(nodes: seq<Node>) {
    var node := LastOf(nodes, "aggregate-progress");
    node.Some? && Reported(node.value).Some?
  }

  function Weighted(plan: Plan, nodes: seq<Node>): real {
    if AggregateDecides(nodes) then Fraction(LastOf(nodes, "aggregate-progress")) * 100.0
    else MeanPct(Done(Parts(plan, nodes)), Work(Parts(plan, nodes)))
  }

  method IndexNodes(nodes: seq<Node>)
    returns (byShardId: map<string, Node>, byOutputPath: map<string, Node>, combine: Option<Node>, aggregate: Option<Node>)
    ensures byShardId == IndexBy(nodes, "shard-id") && byOutputPath == IndexBy(nodes, "output-dir")
    ensures combine == LastOf(nodes, "combine-shards") && aggregate == LastOf(nodes, "aggregate-progress")
  {
    byOutputPath, byShardId, combine, aggregate := map[], map[], None, None;
    for i := 0 to |nodes|
      invariant byShardId == IndexBy(nodes[..i], "shard-id") && byOutputPath == IndexBy(nodes[..i], "output-dir")
      invariant combine == LastOf(nodes[..i], "combine-shards") && aggregate == LastOf(nodes[..i], "aggregate-progress")
    {
      assert nodes[..i + 1][..i] == nodes[..i];
      var node := nodes[i];
      if node.template == "download-shard" {
        var shardId, outputDir := Param(node, "shard-id"), Param(node, "output-dir");
        if shardId.Some? { byShardId := byShardId[shardId.value := node]; }
        if outputDir.Some? { byOutputPath := byOutputPath[outputDir.value := node]; }
      } else if node.template == "combine-shards" {
        combine := Some(node);
      } else if node.template == "aggregate-progress" {
        aggregate := Some(node);
      }
    }
    assert nodes[..|nodes|] == nodes;
  }

  lemma OneMorePart(parts: seq<Part>, i: nat)
    requires i < |parts|
    ensures Done(parts[..i + 1]) == Done(parts[..i]) + Amount(parts[i])
    ensures Work(parts[..i + 1]) == Work(parts[..i]) + parts[i].weight
  {
    assert parts[..i + 1][..i] == parts[..i];
  }

  // What one node adds: nothing when it is missing or reports nothing readable.
  method Contribution(node: Option<Node>, weight: real) returns (amount: real)
    ensures amount == Amount(Part(Fraction(node), weight))
  {
    hide Reported;
    amount := 0.0;
    if node.Some? {
      var reported := Reported(node.value);
      if reported.Some? { amount := reported.value * weight; }
    }
  }

  method AddParts(plan: Plan, nodes: seq<Node>, byShardId: map<string, Node>, byOutputPath: map<string, Node>, combine: Option<Node>)
    returns (completed: real, total: real)
    requires byShardId == IndexBy(nodes, "shard-id") && byOutputPath == IndexBy(nodes, "output-dir")
    requires combine == LastOf(nodes, "combine-shards")
    ensures completed == Done(Parts(plan, nodes)) && total == Work(Parts(plan, nodes))
  {
    completed, total := 0.0, 0.0;
    ghost var parts := Parts(plan, nodes);
    for i := 0 to |plan.shards|
      invariant completed == Done(parts[..i]) && total == Work(parts[..i])
    {
      OneMorePart(parts, i);
      var shard := plan.shards[i];
      var weight := shard.workUnits as real;
      total := total + weight;
      var node := if shard.id in byShardId then Some(byShardId[shard.id])
                  else if shard.outputDir in byOutputPath then Some(byOutputPath[shard.outputDir])
                  else None;
      var amount := Contribution(node, weight);
      completed := completed + amount;
    }
    OneMorePart(parts, |plan.shards|);
    assert parts[..|plan.shards| + 1] == parts;
    var combineWeight := Max(1, plan.combineWeightUnits) as real;
    var amount := Contribution(combine, combineWeight);
    completed, total := completed + amount, total + combineWeight;
  }

  // _weighted_progress_for_nodes.
  method WeightedProgressForNodes(plan: Plan, nodes: seq<Node>) returns (pct: real)
    ensures pct == Weighted(plan, nodes)
  {
    var byShardId, byOutputPath, combine, aggregate := IndexNodes(nodes);
    if aggregate.Some? {
      var reported := Reported(aggregate.value);
      if reported.Some? { return reported.value * 100.0; }
    }
    var completed, total := AddParts(plan, nodes, byShardId, byOutputPath, combine);
    pct := MeanPct(completed, total);
  }

  // ---------- bounds, completion, monotonicity

  lemma PartsAreValid(plan: Plan, nodes: seq<Node>)
    requires ValidShards(plan.shards)
    ensures ValidParts(Parts(plan, nodes))
  {
  }

  predicate AllShardsDone(shards: seq<Shard>, nodes: seq<Node>) {
    forall i | 0 <= i < |shards| :: Fraction(NodeFor(nodes, shards[i])) == 1.0
  }

  lemma AllPartsDone(plan: Plan, nodes: seq<Node>)
    ensures AllDone(Parts(plan, nodes))
            <==> AllShardsDone(plan.shards, nodes) && Fraction(LastOf(nodes, "combine-shards")) == 1.0
  {
    var parts, n := Parts(plan, nodes), |plan.shards|;
    assert parts[n] == CombinePart(plan, nodes);
    assert forall i | 0 <= i < n :: parts[i] == PartFor(nodes, plan.shards[i]);
  }

  // The percentage lies in [0, 100]. Without a verdict of the aggregate node it is 100 exactly
  // when every shard's node and the combine node are done.
  lemma WeightedBounds(plan: Plan, nodes: seq<Node>)
    requires ValidShards(plan.shards)
    ensures 0.0 <= Weighted(plan, nodes) <= 100.0
    ensures !AggregateDecides(nodes)
            ==> (Weighted(plan, nodes) == 100.0
                 <==> AllShardsDone(plan.shards, nodes) && Fraction(LastOf(nodes, "combine-shards")) == 1.0)
  {
    PartsAreValid(plan, nodes);
    AllPartsDone(plan, nodes);
    DoneBounds(Parts(plan, nodes));
    MeanBounds(Done(Parts(plan, nodes)), Work(Parts(plan, nodes)));
  }

  // The same workflow later: each node still stands for the same work and reports no less.
  predicate Advances(before: seq<Node>, after: seq<Node>) {
    && |before| == |after|
    && forall i | 0 <= i < |before| :: NodeAdvances(before[i], after[i])
  }

  predicate NodeAdvances(before: Node, after: Node) {
    before.template == after.template && before.parameters == after.parameters && Fraction(Some(before)) <= Fraction(Some(after))
  }

  lemma {:induction false} IndexAdvances(before: seq<Node>, after: seq<Node>, key: string, value: string)
    requires Advances(before, after)
    ensures value in IndexBy(before, key) <==> value in IndexBy(after, key)
    ensures value in IndexBy(before, key) ==> NodeAdvances(IndexBy(before, key)[value], IndexBy(after, key)[value])
  {
    if before != [] {
      var last := |before| - 1;
      assert NodeAdvances(before[last], after[last]);
      IndexAdvances(before[..last], after[..last], key, value);
    }
  }

  lemma {:induction false} LastAdvances(before: seq<Node>, after: seq<Node>, template: string)
    requires Advances(before, after)
    ensures Fraction(LastOf(before, template)) <= Fraction(LastOf(after, template))
  {
    if before != [] {
      var last := |before| - 1;
      assert NodeAdvances(before[last], after[last]);
      LastAdvances(before[..last], after[..last], template);
    }
  }

  lemma NodeForAdvances(before: seq<Node>, after: seq<Node>, shard: Shard)
    requires Advances(before, after)
    ensures PartAdvances(PartFor(before, shard), PartFor(after, shard))
  {
    IndexAdvances(before, after, "shard-id", shard.id);
    IndexAdvances(before, after, "output-dir", shard.outputDir);
  }

  lemma PartsAdvance(plan: Plan, before: seq<Node>, after: seq<Node>)
    requires Advances(before, after)
    ensures forall i | 0 <= i < |plan.shards| + 1 :: PartAdvances(Parts(plan, before)[i], Parts(plan, after)[i])
  {
    LastAdvances(before, after, "combine-shards");
    forall i | 0 <= i < |plan.shards|
      ensures PartAdvances(Parts(plan, before)[i], Parts(plan, after)[i])
    {
      NodeForAdvances(before, after, plan.shards[i]);
    }
  }

  // Progress of any nodes never lowers the percentage, as long as the aggregate node keeps
  // deciding or keeps silent.
  lemma WeightedAdvances(plan: Plan, before: seq<Node>, after: seq<Node>)
    requires ValidShards(plan.shards) && Advances(before, after)
    requires AggregateDecides(before) <==> AggregateDecides(after)
    ensures Weighted(plan, before) <= Weighted(plan, after)
  {
    LastAdvances(before, after, "aggregate-progress");
    PartsAreValid(plan, before);
    PartsAreValid(plan, after);
    PartsAdvance(plan, before, after);
    DoneAdvances(Parts(plan, before), Parts(plan, after));
    MeanGrows(Done(Parts(plan, before)), Done(Parts(plan, after)), Work(Parts(plan, after)));
  }

  lemma Compare(f: real, parts: seq<Part>)
    requires ValidParts(parts) && parts != []
    ensures f * 100.0 < MeanPct(Done(parts), Work(parts)) <==> f * Work(parts) < Done(parts)
  {
    DoneBounds(parts);
    CompareMean(f, Done(parts), Work(parts));
  }

  lemma CompareMean(f: real, done: real, work: real)
    requires 0.0 <= done <= work && work > 0.0
    ensures f * 100.0 < MeanPct(done, work) <==> f * work < done
  {
  }

  // When the aggregate node starts to report, the percentage becomes its own, whatever the
  // shards had reached: it falls exactly when that is less.
  lemma AggregateTakesOver(plan: Plan, before: seq<Node>, after: seq<Node>, f: real, parts: seq<Part>)
    requires ValidShards(plan.shards) && AggregateDecides(after) && !AggregateDecides(before)
    requires f == Fraction(LastOf(after, "aggregate-progress")) && parts == Parts(plan, before)
    ensures Weighted(plan, after) < Weighted(plan, before) <==> f * Work(parts) < Done(parts)
  {
    PartsAreValid(plan, before);
    Compare(f, parts);
    assert Weighted(plan, before) == MeanPct(Done(parts), Work(parts));
  }

  // ---------- what the percentage is, without the functions that compute it

  // The part of its work a node says is done: all when it succeeded, else the fraction its
  // progress text gives, and nothing when that cannot be read.
  ghost predicate Says(f: real, node: Node) {
    if node.phase == "Succeeded" then f == 1.0
    else match if node.progress.Some? then ParseProgress(node.progress.value) else None
         case None => f == 0.0
         case Some(pair) => f == ProgressFraction(pair.0, pair.1)
  }

  // The last download node with the shard's id speaks for it, else the last one with its output
  // directory; without either nothing is done.
  ghost predicate SpeaksFor(f: real, nodes: seq<Node>, shard: Shard) {
    if exists i :: LastNamed(nodes, "shard-id", shard.id, i) then
      forall i | LastNamed(nodes, "shard-id", shard.id, i) :: Says(f, nodes[i])
    else if exists i :: LastNamed(nodes, "output-dir", shard.outputDir, i) then
      forall i | LastNamed(nodes, "output-dir", shard.outputDir, i) :: Says(f, nodes[i])
    else f == 0.0
  }

  ghost predicate LastWith(nodes: seq<Node>, template: string, i: int) {
    0 <= i < |nodes| && nodes[i].template == template && forall j | i < j < |nodes| :: nodes[j].template != template
  }

  lemma {:induction false} LastOfMeaning(nodes: seq<Node>, template: string)
    ensures LastOf(nodes, template).Some? <==> exists i :: LastWith(nodes, template, i)
    ensures forall i | LastWith(nodes, template, i) :: LastOf(nodes, template) == Some(nodes[i])
  {
    if nodes != [] {
      var last := |nodes| - 1;
      var rest := nodes[..last];
      LastOfMeaning(rest, template);
      if nodes[last].template == template {
        assert LastWith(nodes, template, last);
      } else {
        forall i
          ensures LastWith(nodes, template, i) <==> LastWith(rest, template, i)
        {
          assert forall j | 0 <= j < last :: rest[j] == nodes[j];
        }
      }
    }
  }

  // The shards' parts weigh their work units, the combine step's its own weight but at least one.
  ghost predicate AreParts(parts: seq<Part>, plan: Plan, nodes: seq<Node>) {
    var n := |plan.shards|;
    && |parts| == n + 1
    && (forall i | 0 <= i < n ::
          parts[i].weight == plan.shards[i].workUnits as real && SpeaksFor(parts[i].fraction, nodes, plan.shards[i]))
    && parts[n].weight == (if plan.combineWeightUnits >= 1 then plan.combineWeightUnits as real else 1.0)
    && if exists i :: LastWith(nodes, "combine-shards", i) then
         forall i | LastWith(nodes, "combine-shards", i) :: Says(parts[n].fraction, nodes[i])
       else parts[n].fraction == 0.0
  }

  // Done and Work are the sums of fraction * weight and of weight.
  lemma {:induction false} SumsOfParts(a: seq<Part>, b: seq<Part>)
    ensures Done(a + b) == Done(a) + Done(b) && Work(a + b) == Work(a) + Work(b)
    ensures forall p :: Done([p]) == p.fraction * p.weight && Work([p]) == p.weight
  {
    hide Amount;
    if b == [] {
      assert a + b == a;
    } else {
      var n := |b| - 1;
      assert (a + b)[..|a + b| - 1] == a + b[..n];
      SumsOfParts(a, b[..n]);
    }
    forall p
      ensures Done([p]) == p.fraction * p.weight && Work([p]) == p.weight
    {
      assert [p][..0] == [];
      AmountIs(p);
    }
  }

  lemma AmountIs(p: Part)
    ensures Amount(p) == p.fraction * p.weight
  {
  }

  lemma FractionSays(node: Node)
    ensures Says(Fraction(Some(node)), node)
  {
  }

  lemma NodeSpeaks(nodes: seq<Node>, shard: Shard)
    ensures SpeaksFor(Fraction(NodeFor(nodes, shard)), nodes, shard)
  {
    hide Says, Fraction, LastNamed;
    IndexHoldsLast(nodes, "shard-id", shard.id);
    IndexHoldsLast(nodes, "output-dir", shard.outputDir);
    if NodeFor(nodes, shard).Some? {
      FractionSays(NodeFor(nodes, shard).value);
    } else {
      NothingSaid();
    }
  }

  lemma NothingSaid()
    ensures Fraction(None) == 0.0
  {
  }

  lemma PartsMeaning(plan: Plan, nodes: seq<Node>)
    ensures AreParts(Parts(plan, nodes), plan, nodes)
  {
    hide Says, Fraction, LastWith, SpeaksFor, NodeFor;
    var parts, n := Parts(plan, nodes), |plan.shards|;
    assert parts[n] == CombinePart(plan, nodes);
    forall i | 0 <= i < n
      ensures parts[i].weight == plan.shards[i].workUnits as real && SpeaksFor(parts[i].fraction, nodes, plan.shards[i])
    {
      assert parts[i] == PartFor(nodes, plan.shards[i]);
      NodeSpeaks(nodes, plan.shards[i]);
    }
    LastOfMeaning(nodes, "combine-shards");
    if LastOf(nodes, "combine-shards").Some? {
      FractionSays(LastOf(nodes, "combine-shards").value);
    } else {
      NothingSaid();
    }
  }

  // The last aggregate node has succeeded or has a readable progress.
  ghost predicate AggregateSpeaks(nodes: seq<Node>, i: int) {
    LastWith(nodes, "aggregate-progress", i)
    && (nodes[i].phase == "Succeeded" || (nodes[i].progress.Some? && ParseProgress(nodes[i].progress.value).Some?))
  }

  lemma AggregateDecidesIff(nodes: seq<Node>)
    ensures AggregateDecides(nodes) <==> exists i :: AggregateSpeaks(nodes, i)
    ensures forall i | AggregateSpeaks(nodes, i) :: 0 <= i < |nodes| && LastOf(nodes, "aggregate-progress") == Some(nodes[i])
  {
    hide ParseProgress, ProgressFraction, LastOf;
    LastOfMeaning(nodes, "aggregate-progress");
    if AggregateDecides(nodes) {
      var i :| LastWith(nodes, "aggregate-progress", i);
      assert AggregateSpeaks(nodes, i);
    }
  }

  // The percentage is what the aggregate node says, when it says anything; otherwise the mean of
  // the parts, each weighed by its work.
  lemma WeightedMeaning(plan: Plan, nodes: seq<Node>) returns (parts: seq<Part>)
    requires ValidShards(plan.shards)
    ensures AreParts(parts, plan, nodes) && Work(parts) > 0.0
    ensures forall i | AggregateSpeaks(nodes, i) :: 0 <= i < |nodes| && exists f :: Says(f, nodes[i]) && Weighted(plan, nodes) == f * 100.0
    ensures (forall i :: !AggregateSpeaks(nodes, i)) ==> Weighted(plan, nodes) * Work(parts) == 100.0 * Done(parts)
  {
    hide Says, Parts, AreParts, ValidParts, AggregateSpeaks, Done, Work, AggregateDecides, MeanPct, Fraction;
    parts := Parts(plan, nodes);
    PartsMeaning(plan, nodes);
    PartsAreValid(plan, nodes);
    PartsExist(plan, nodes);
    DoneBounds(parts);
    AggregateDecidesIff(nodes);
    MeanTimesWork(Done(parts), Work(parts));
    forall i | AggregateSpeaks(nodes, i)
      ensures 0 <= i < |nodes| && exists f :: Says(f, nodes[i]) && Weighted(plan, nodes) == f * 100.0
    {
      FractionSays(nodes[i]);
      assert Weighted(plan, nodes) == Fraction(Some(nodes[i])) * 100.0;
    }
  }

  lemma PartsExist(plan: Plan, nodes: seq<Node>)
    ensures Parts(plan, nodes) != []
  {
  }

  lemma MeanTimesWork(done: real, work: real)
    requires 0.0 <= done <= work && work > 0.0
    ensures MeanPct(done, work) * work == 100.0 * done
  {
    var q := done / work;
    assert q * work == done && q <= 1.0;
  }
}
