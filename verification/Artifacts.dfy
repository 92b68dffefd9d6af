// backtests/artifacts.py: a report's record lists are flattened into one row file per kind and
// grouped back by run id. Records and files are values; encodings are identities.
module Artifacts {
  import opened Common

  datatype Rec = Rec(payload: string)

  datatype Kind = Orders | Trades | Rejections | Candidates | Equity

  datatype RunResult = RunResult(
    runId: string,
    status: string,
    strategy: string,
    detail: string,
    orders: seq<Rec>,
    trades: seq<Rec>,
    rejections: seq<Rec>,
    candidates: seq<Rec>,
    equity: seq<Rec>
  )

  datatype Row = Row(runId: string, rec: Rec)

  type Grouped = map<string, seq<Rec>>

  function Records(r: RunResult, kind: Kind): seq<Rec> {
    match kind
    case Orders => r.orders
    case Trades => r.trades
    case Rejections => r.rejections
    case Candidates => r.candidates
    case Equity => r.equity
  }

  predicate DistinctIds(results: seq<RunResult>) {
    forall i, j | 0 <= i < j < |results| :: results[i].runId != results[j].runId
  }

  function At(g: Grouped, id: string): seq<Rec> { if id in g then g[id] else [] }

  // ---------- flatten

  function RowsOf(id: string, records: seq<Rec>): (r: seq<Row>)
    ensures |r| == |records|
  {
    seq(|records|, i requires 0 <= i < |records| => Row(id, records[i]))
  }

  function Flatten(results: seq<RunResult>, kind: Kind): seq<Row> {
    if results == [] then []
    else
      var r := results[|results| - 1];
      Flatten(results[..|results| - 1], kind) + RowsOf(r.runId, Records(r, kind))
  }

  method FlattenRecords(results: seq<RunResult>, kind: Kind) returns (rows: seq<Row>)
    ensures rows == Flatten(results, kind)
  {
    rows := [];
    for i := 0 to |results|
      invariant rows == Flatten(results[..i], kind)
    {
      var records := Records(results[i], kind);
      ghost var before := rows;
      for j := 0 to |records|
        invariant rows == before + RowsOf(results[i].runId, records)[..j]
      {
        rows := rows + [Row(results[i].runId, records[j])];
      }
      assert results[..i + 1][..i] == results[..i];
      assert RowsOf(results[i].runId, records)[..|records|] == RowsOf(results[i].runId, records);
    }
    assert results[..|results|] == results;
  }

  // ---------- group

  function Group(rows: seq<Row>): Grouped {
    if rows == [] then map[]
    else
      var g, row := Group(rows[..|rows| - 1]), rows[|rows| - 1];
      g[row.runId := At(g, row.runId) + [row.rec]]
  }

  method LoadGrouped(rows: seq<Row>) returns (grouped: Grouped)
    ensures grouped == Group(rows)
  {
    grouped := map[];
    for i := 0 to |rows|
      invariant grouped == Group(rows[..i])
    {
      assert rows[..i + 1][..i] == rows[..i];
      grouped := grouped[rows[i].runId := At(grouped, rows[i].runId) + [rows[i].rec]];
    }
    assert rows[..|rows|] == rows;
  }

  // The meaning of _merge_grouped_records: each run's lists, left then right.
  function MergeGrouped(left: Grouped, right: Grouped): Grouped {
    map id | id in left.Keys + right.Keys :: At(left, id) + At(right, id)
  }

  method MergeGroupedRecords(left: Grouped, right: Grouped) returns (merged: Grouped)
    ensures merged == MergeGrouped(left, right)
  {
    merged := left;
    var rest := right.Keys;
    while rest != {}
      invariant forall id | id in rest :: id in right
      invariant forall id :: id in merged <==> id in left || (id in right && id !in rest)
      invariant forall id :: At(merged, id) == if id in right && id !in rest then At(left, id) + right[id] else At(left, id)
      decreases |rest|
    {
      var id :| id in rest;
      merged := merged[id := At(merged, id) + right[id]];
      rest := rest - {id};
    }
    MergedPointwise(merged, left, right);
  }

  lemma MergedPointwise(merged: Grouped, left: Grouped, right: Grouped)
    requires forall id :: id in merged <==> id in left || id in right
    requires forall id :: At(merged, id) == if id in right then At(left, id) + right[id] else At(left, id)
    ensures merged == MergeGrouped(left, right)
  {
    forall id | id in merged
      ensures merged[id] == At(left, id) + At(right, id)
    {
      assert merged[id] == At(merged, id);
    }
  }

  // The records of one run, in row order.
  function RecordsFor(rows: seq<Row>, id: string): seq<Rec> {
    if rows == [] then []
    else
      var row := rows[|rows| - 1];
      RecordsFor(rows[..|rows| - 1], id) + if row.runId == id then [row.rec] else []
  }

  lemma {:induction false} RecordsForConcat(a: seq<Row>, b: seq<Row>, id: string)
    ensures RecordsFor(a + b, id) == RecordsFor(a, id) + RecordsFor(b, id)
  {
    if b == [] {
      assert a + b == a;
    } else {
      assert (a + b)[..|a + b| - 1] == a + b[..|b| - 1];
      RecordsForConcat(a, b[..|b| - 1], id);
    }
  }

  lemma {:induction false} GroupIsByRun(rows: seq<Row>, id: string)
    ensures At(Group(rows), id) == RecordsFor(rows, id)
    ensures id in Group(rows) <==> RecordsFor(rows, id) != []
  {
    if rows != [] {
      GroupIsByRun(rows[..|rows| - 1], id);
    }
  }

  // Grouping a concatenation is merging the groupings.
  lemma GroupConcat(a: seq<Row>, b: seq<Row>)
    ensures Group(a + b) == MergeGrouped(Group(a), Group(b))
  {
    hide Group, RecordsFor;
    forall id
      ensures id in Group(a + b) <==> id in MergeGrouped(Group(a), Group(b))
      ensures At(Group(a + b), id) == At(MergeGrouped(Group(a), Group(b)), id)
    {
      RecordsForConcat(a, b, id);
      GroupIsByRun(a + b, id);
      GroupIsByRun(a, id);
      GroupIsByRun(b, id);
    }
    assert forall id | id in Group(a + b) :: Group(a + b)[id] == At(Group(a + b), id);
  }

  // ---------- shard sidecars: one optional row file per shard

  type Sidecars = seq<Option<seq<Row>>>

  function ConcatRows(sidecars: Sidecars): seq<Row> {
    if sidecars == [] then []
    else
      var last := sidecars[|sidecars| - 1];
      ConcatRows(sidecars[..|sidecars| - 1]) + if last.Some? then last.value else []
  }

  method ConcatShardRows(sidecars: Sidecars) returns (rows: seq<Row>)
    ensures rows == ConcatRows(sidecars)
  {
    rows := [];
    for i := 0 to |sidecars|
      invariant rows == ConcatRows(sidecars[..i])
    {
      assert sidecars[..i + 1][..i] == sidecars[..i];
      if sidecars[i].Some? {
        rows := rows + sidecars[i].value;
      }
    }
    assert sidecars[..|sidecars|] == sidecars;
  }

  // Loading shard by shard and merging gives what grouping the concatenated rows gives.
  method LoadGroupedFromShards(sidecars: Sidecars) returns (grouped: Grouped)
    ensures grouped == Group(ConcatRows(sidecars))
  {
    grouped := map[];
    for i := 0 to |sidecars|
      invariant grouped == Group(ConcatRows(sidecars[..i]))
    {
      assert sidecars[..i + 1][..i] == sidecars[..i];
      if sidecars[i].Some? {
        var loaded := LoadGrouped(sidecars[i].value);
        GroupConcat(ConcatRows(sidecars[..i]), sidecars[i].value);
        grouped := MergeGroupedRecords(grouped, loaded);
      } else {
        assert ConcatRows(sidecars[..i + 1]) == ConcatRows(sidecars[..i]);
      }
    }
    assert sidecars[..|sidecars|] == sidecars;
  }

  // ---------- report files

  // A report's directory: the row file of each kind, and the sidecars a shard manifest points to.
  datatype Files = Files(rows: map<Kind, seq<Row>>, manifest: Option<map<Kind, Sidecars>>)

  const FRESH := Files(map[], None)

  function ManifestRows(f: Files, kind: Kind): seq<Row> {
    if f.manifest.Some? && kind in f.manifest.value then ConcatRows(f.manifest.value[kind]) else []
  }

  // _flatten_or_shard_sidecars followed by _maybe_write_parquet: an empty list writes no file,
  // and leaves an older one in place.
  function WriteKind(f: Files, results: seq<RunResult>, kind: Kind): Files {
    var own := Flatten(results, kind);
    var rows := if own != [] then own else ManifestRows(f, kind);
    if rows == [] then f else f.(rows := f.rows[kind := rows])
  }

  function WriteArtifacts(f: Files, results: seq<RunResult>): Files {
    WriteKind(WriteKind(WriteKind(WriteKind(WriteKind(f,
      results, Candidates), results, Equity), results, Orders), results, Trades), results, Rejections)
  }

  // _load_grouped_with_shard_fallback
  function LoadKind(f: Files, kind: Kind): Grouped {
    var grouped := if kind in f.rows then Group(f.rows[kind]) else map[];
    if grouped != map[] then grouped else Group(ManifestRows(f, kind))
  }

  // An empty list is filled from its file; trades are always replaced.
  function Hydrate(r: RunResult, f: Files): RunResult {
    var id := r.runId;
    var g := (kind: Kind, own: seq<Rec>) => if own == [] then At(LoadKind(f, kind), id) else own;
    r.(orders := g(Orders, r.orders), trades := At(LoadKind(f, Trades), id), rejections := g(Rejections, r.rejections),
       candidates := g(Candidates, r.candidates), equity := g(Equity, r.equity))
  }

  function HydrateAll(results: seq<RunResult>, f: Files): seq<RunResult> {
    seq(|results|, i requires 0 <= i < |results| => Hydrate(results[i], f))
  }

  method HydrateReport(results: seq<RunResult>, f: Files) returns (hydrated: seq<RunResult>)
    ensures hydrated == HydrateAll(results, f)
  {
    hide LoadKind;
    var candidates, equity, orders := LoadKind(f, Candidates), LoadKind(f, Equity), LoadKind(f, Orders);
    var trades, rejections := LoadKind(f, Trades), LoadKind(f, Rejections);
    hydrated := [];
    for i := 0 to |results|
      invariant |hydrated| == i
      invariant forall j | 0 <= j < i :: hydrated[j] == Hydrate(results[j], f)
    {
      var r := results[i];
      var h := r.(trades := At(trades, r.runId));
      if r.candidates == [] && r.runId in candidates { h := h.(candidates := candidates[r.runId]); }
      if r.equity == [] && r.runId in equity { h := h.(equity := equity[r.runId]); }
      if r.orders == [] && r.runId in orders { h := h.(orders := orders[r.runId]); }
      if r.rejections == [] && r.runId in rejections { h := h.(rejections := rejections[r.runId]); }
      hydrated := hydrated + [h];
    }
  }

  // ---------- round trip

  // What the report file keeps of a result: each list in full or emptied, trades in any state.
  predicate Thinned(stored: RunResult, original: RunResult) {
    && stored.runId == original.runId
    && stored.status == original.status && stored.strategy == original.strategy && stored.detail == original.detail
    && stored.orders in {original.orders, []} && stored.rejections in {original.rejections, []}
    && stored.candidates in {original.candidates, []} && stored.equity in {original.equity, []}
  }

  // The report JSON leaves out every record list.
  function Stripped(r: RunResult): RunResult {
    r.(orders := [], trades := [], rejections := [], candidates := [], equity := [])
  }

  lemma {:induction false} RecordsForRowsOf(id: string, records: seq<Rec>, other: string)
    ensures RecordsFor(RowsOf(id, records), other) == if other == id then records else []
  {
    if records != [] {
      var init := records[..|records| - 1];
      assert RowsOf(id, records)[..|records| - 1] == RowsOf(id, init);
      RecordsForRowsOf(id, init, other);
      assert records == init + [records[|records| - 1]];
    }
  }

  lemma {:induction false} NoRecordsFor(results: seq<RunResult>, kind: Kind, id: string)
    requires forall r | r in results :: r.runId != id
    ensures RecordsFor(Flatten(results, kind), id) == []
  {
    if results != [] {
      var init, last := results[..|results| - 1], results[|results| - 1];
      assert last in results && forall r | r in init :: r in results;
      NoRecordsFor(init, kind, id);
      RecordsForConcat(Flatten(init, kind), RowsOf(last.runId, Records(last, kind)), id);
      RecordsForRowsOf(last.runId, Records(last, kind), id);
    }
  }

  // Grouping the flattened rows gives each run its own records, in order.
  lemma {:induction false} GroupFlatten(results: seq<RunResult>, kind: Kind, i: nat)
    requires DistinctIds(results) && i < |results|
    ensures At(Group(Flatten(results, kind)), results[i].runId) == Records(results[i], kind)
  {
    hide Group, RecordsFor, RowsOf, Records;
    var init, last, id := results[..|results| - 1], results[|results| - 1], results[i].runId;
    GroupIsByRun(Flatten(results, kind), id);
    RecordsForConcat(Flatten(init, kind), RowsOf(last.runId, Records(last, kind)), id);
    RecordsForRowsOf(last.runId, Records(last, kind), id);
    if i < |init| {
      assert init[i] == results[i];
      GroupFlatten(init, kind, i);
      GroupIsByRun(Flatten(init, kind), id);
    } else {
      assert forall r | r in init :: r.runId != id;
      NoRecordsFor(init, kind, id);
    }
  }

  lemma {:induction false} GroupEmpty(rows: seq<Row>)
    ensures Group(rows) == map[] <==> rows == []
  {
    if rows != [] {
      assert rows[|rows| - 1].runId in Group(rows);
    }
  }

  lemma {:induction false} LoadAfterWrite(f: Files, results: seq<RunResult>, written: Kind, kind: Kind)
    requires f.manifest == None
    ensures WriteKind(f, results, written).manifest == None
    ensures LoadKind(WriteKind(f, results, written), kind)
            == if written == kind && Flatten(results, kind) != [] then Group(Flatten(results, kind)) else LoadKind(f, kind)
  {
    hide Group, Flatten;
    var own := Flatten(results, written);
    assert WriteKind(f, results, written) == if own == [] then f else f.(rows := f.rows[written := own]);
    if own != [] && written == kind {
      GroupEmpty(own);
    } else if own != [] {
      assert (kind in f.rows[written := own]) == (kind in f.rows);
    }
  }

  lemma FreshLoad(results: seq<RunResult>, kind: Kind)
    ensures LoadKind(WriteArtifacts(FRESH, results), kind) == Group(Flatten(results, kind))
  {
    GroupEmpty(Flatten(results, kind));
    var f0 := FRESH;
    var f1 := WriteKind(f0, results, Candidates);
    var f2 := WriteKind(f1, results, Equity);
    var f3 := WriteKind(f2, results, Orders);
    var f4 := WriteKind(f3, results, Trades);
    assert LoadKind(f0, kind) == map[];
    LoadAfterWrite(f0, results, Candidates, kind);
    LoadAfterWrite(f1, results, Equity, kind);
    LoadAfterWrite(f2, results, Orders, kind);
    LoadAfterWrite(f3, results, Trades, kind);
    LoadAfterWrite(f4, results, Rejections, kind);
  }

  lemma RestoresResult(stored: RunResult, original: RunResult, f: Files)
    requires Thinned(stored, original)
    requires forall kind :: At(LoadKind(f, kind), original.runId) == Records(original, kind)
    ensures Hydrate(stored, f) == original
  {
  }

  // In a fresh directory, writing a report with distinct run ids and hydrating any thinned copy
  // of it restores every record list of every run, in order.
  lemma RoundTrip(results: seq<RunResult>, stored: seq<RunResult>)
    requires DistinctIds(results)
    requires |stored| == |results| && forall i | 0 <= i < |results| :: Thinned(stored[i], results[i])
    ensures HydrateAll(stored, WriteArtifacts(FRESH, results)) == results
  {
    var f := WriteArtifacts(FRESH, results);
    forall i | 0 <= i < |results|
      ensures Hydrate(stored[i], f) == results[i]
    {
      forall kind
        ensures At(LoadKind(f, kind), results[i].runId) == Records(results[i], kind)
      {
        FreshLoad(results, kind);
        GroupFlatten(results, kind, i);
      }
      RestoresResult(stored[i], results[i], f);
    }
  }

  // Hydrating through a manifest's sidecars, or through the file written from them, is the same.
  lemma ManifestFallbackAgrees(f: Files, results: seq<RunResult>, kind: Kind)
    requires f.rows == map[] && Flatten(results, kind) == []
    ensures LoadKind(WriteKind(f, results, kind), kind) == LoadKind(f, kind)
  {
  }

  // Hydrating leaves a result as it is exactly when the trades loaded for it are its own, and every
  // other list that is empty has no rows.
  lemma HydrateKeepsIff(r: RunResult, f: Files)
    ensures Hydrate(r, f) == r
            <==> && At(LoadKind(f, Trades), r.runId) == r.trades
                 && forall kind | kind != Trades && Records(r, kind) == [] :: At(LoadKind(f, kind), r.runId) == []
  {
    if Hydrate(r, f) == r {
      forall kind | kind != Trades && Records(r, kind) == []
        ensures At(LoadKind(f, kind), r.runId) == []
      {
        assert Records(Hydrate(r, f), kind) == At(LoadKind(f, kind), r.runId);
      }
    }
    hide LoadKind;
    var kept := forall kind | kind != Trades && Records(r, kind) == [] :: At(LoadKind(f, kind), r.runId) == [];
    if kept {
      assert forall kind | kind != Trades :: Records(Hydrate(r, f), kind) == Records(r, kind);
      SameLists(Hydrate(r, f), r);
    }
  }

  lemma SameLists(a: RunResult, b: RunResult)
    requires a.runId == b.runId && a.status == b.status && a.strategy == b.strategy && a.detail == b.detail
    requires forall kind | kind != Trades :: Records(a, kind) == Records(b, kind)
    ensures a == b <==> a.trades == b.trades
  {
    assert Records(a, Orders) == Records(b, Orders) && Records(a, Rejections) == Records(b, Rejections);
    assert Records(a, Candidates) == Records(b, Candidates) && Records(a, Equity) == Records(b, Equity);
  }

  // Trades do not survive without their file, unlike every other list.
  lemma TradesNeedTheirFile(r: RunResult)
    requires r.trades != []
    ensures Hydrate(r, FRESH).trades == [] && Hydrate(r, FRESH) == r.(trades := [])
  {
  }
}
