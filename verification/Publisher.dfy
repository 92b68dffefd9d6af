// live/assignment_publisher.py: hashing active symbols onto shards and publishing the result.
// The leading hex digits of the symbol's hash are an uninterpreted function, `digest`.
module Publisher {
  import opened Common
  import opened Text
  import opened Backend
  import opened LiveKeys
  import opened LiveStores

  datatype Contract = Contract(id: string, symbolKey: string)

  // What compute_assignments puts in each shard.
  function ShardMembers(digest: string -> nat, symbols: set<string>, count: nat, shard: nat): set<string>
    requires count > 0
  {
    set s | s in symbols && digest(s) % count == shard
  }

  function Items(digest: string -> nat, symbols: set<string>, count: nat): seq<(nat, set<string>)> {
    seq(count, i requires 0 <= i < count => (i, ShardMembers(digest, symbols, count, i)))
  }

  function SymbolsOf(contracts: seq<Contract>): set<string> { set c | c in contracts :: c.symbolKey }

  method GroupContractsBySymbol(contracts: seq<Contract>) returns (grouped: map<string, seq<Contract>>)
    ensures grouped.Keys == SymbolsOf(contracts)
    ensures forall s | s in grouped :: grouped[s] == OfSymbol(contracts, s)
  {
    grouped := map[];
    for i := 0 to |contracts|
      invariant Groups(grouped, contracts[..i])
    {
      var c := contracts[i];
      assert contracts[..i + 1] == contracts[..i] + [c];
      GroupOneMore(grouped, contracts[..i], c);
      hide Groups;
      grouped := grouped[c.symbolKey := (if c.symbolKey in grouped then grouped[c.symbolKey] else []) + [c]];
    }
    assert contracts[..|contracts|] == contracts;
  }

  ghost predicate Groups(grouped: map<string, seq<Contract>>, contracts: seq<Contract>) {
    && grouped.Keys == SymbolsOf(contracts)
    && (forall s :: OfSymbol(contracts, s) == if s in grouped then grouped[s] else [])
  }

  lemma GroupOneMore(grouped: map<string, seq<Contract>>, contracts: seq<Contract>, c: Contract)
    requires Groups(grouped, contracts)
    ensures Groups(grouped[c.symbolKey := (if c.symbolKey in grouped then grouped[c.symbolKey] else []) + [c]], contracts + [c])
  {
    OfSymbolAppend(contracts, c);
    hide OfSymbol;
  }

  function OfSymbol(contracts: seq<Contract>, symbol: string): seq<Contract> {
    if contracts == [] then []
    else
      OfSymbol(contracts[..|contracts| - 1], symbol) +
      if contracts[|contracts| - 1].symbolKey == symbol then [contracts[|contracts| - 1]] else []
  }

  lemma OfSymbolAppend(contracts: seq<Contract>, c: Contract)
    ensures forall s :: OfSymbol(contracts + [c], s) == OfSymbol(contracts, s) + if c.symbolKey == s then [c] else []
  {
    assert (contracts + [c])[..|contracts|] == contracts;
  }

  // None models the error raised when there is a symbol but no shard to put it in.
  method ComputeAssignments(digest: string -> nat, symbols: set<string>, count: int)
    returns (items: Option<seq<(nat, set<string>)>>)
    ensures items.None? <==> count <= 0 && symbols != {}
    ensures items.Some? ==> items.value == if count <= 0 then [] else Items(digest, symbols, count)
  {
    if count <= 0 {
      return if symbols == {} then Some([]) else None;
    }
    var shards := new set<string>[count](_ => {});
    var rest := symbols;
    while rest != {}
      invariant rest <= symbols
      invariant forall i | 0 <= i < count :: shards[i] == ShardMembers(digest, symbols - rest, count, i)
      decreases |rest|
    {
      var s :| s in rest;
      var home := digest(s) % count;
      shards[home] := shards[home] + {s};
      rest := rest - {s};
    }
    assert symbols - rest == symbols;
    var built := [];
    for i := 0 to count
      invariant |built| == i
      invariant forall j | 0 <= j < i :: built[j] == (j, ShardMembers(digest, symbols, count, j))
    {
      built := built + [(i, shards[i])];
    }
    items := Some(built);
  }

  // Returns the version it published, or None when it raises before writing anything.
  method PublishAssignmentsForContracts(store: RedisAssignmentStore, digest: string -> nat,
                                        contracts: seq<Contract>, count: int) returns (published: Option<int>)
    requires var raw := FlatGet(store.backend.State(), Render(store.keyPrefix, VersionKey)); raw.None? || raw.value.TextPayload?
    modifies store.backend
    ensures published.None? ==> store.backend.State() == old(store.backend.State())
    ensures published.None? <==> (count <= 0 && contracts != []) || StoredVersion(old(store.backend.State()), store.keyPrefix).None?
    ensures published.Some? ==>
              var before := old(store.backend.State());
              var items := if count <= 0 then [] else Items(digest, SymbolsOf(contracts), count);
              && StoredVersion(before, store.keyPrefix) == Some(published.value - 1)
              && store.backend.State() == FlatStep(before, store.keyPrefix, PublishOp(IntText(published.value), items)).0
              && (count > 0 ==>
                    store.backend.State() == FlatPublishOnce(before, store.keyPrefix, digest, SymbolsOf(contracts), count))
  {
    var grouped := GroupContractsBySymbol(contracts);
    if contracts != [] {
      assert contracts[0].symbolKey in SymbolsOf(contracts);
    }
    var items := ComputeAssignments(digest, grouped.Keys, count);
    if items.None? {
      return None;
    }
    var version := store.GetAssignmentVersion();
    if version.None? {
      return None;
    }
    store.PublishAssignments(version.value + 1, items.value);
    published := Some(version.value + 1);
  }

  // ---------- runs of publishes with one shard count

  // The version of the typed maps: None for a text that is no int, on which the source raises.
  function TypedVersion(t: Typed): Option<int> {
    if t.version.None? then Some(0) else PyInt(t.version.value)
  }

  // One publish of the active symbols on the typed maps with a readable version.
  function PublishOnce(t: Typed, digest: string -> nat, symbols: set<string>, count: nat): (r: Typed)
    requires TypedVersion(t).Some?
    ensures TypedVersion(r) == Some(TypedVersion(t).value + 1)
  {
    IntRoundTrip(TypedVersion(t).value + 1);
    TypedStep(t, PublishOp(IntText(TypedVersion(t).value + 1), Items(digest, symbols, count))).0
  }

  function PublishAll(t: Typed, digest: string -> nat, runs: seq<set<string>>, count: nat): (r: Typed)
    requires TypedVersion(t).Some?
    ensures TypedVersion(r) == Some(TypedVersion(t).value + |runs|)
    decreases |runs|
  {
    if runs == [] then t
    else PublishOnce(PublishAll(t, digest, runs[..|runs| - 1], count), digest, runs[|runs| - 1], count)
  }

  lemma {:induction false} TypedShardsEnumerated(shards: map<nat, set<string>>, items: seq<(nat, set<string>)>, from: nat)
    requires forall i | 0 <= i < |items| :: items[i].0 == from + i
    ensures forall n: nat :: n in TypedShards(shards, items) <==> n in shards || from <= n < from + |items|
    ensures forall n: nat | n in TypedShards(shards, items) ::
              TypedShards(shards, items)[n] == if from <= n < from + |items| then items[n - from].1 else shards[n]
    decreases |items|
  {
    if items != [] {
      TypedShardsEnumerated(shards[items[0].0 := items[0].1], items[1..], from + 1);
    }
  }

  lemma PublishOnceWrites(t: Typed, digest: string -> nat, symbols: set<string>, count: nat)
    requires count > 0 && TypedVersion(t).Some?
    ensures var t' := PublishOnce(t, digest, symbols, count);
            && (forall n: nat :: n in t'.shards <==> n in t.shards || n < count)
            && (forall n: nat | n in t'.shards ::
                  t'.shards[n] == if n < count then ShardMembers(digest, symbols, count, n) else t.shards[n])
  {
    TypedShardsEnumerated(t.shards, Items(digest, symbols, count), 0);
  }

  // The stored shards partition the active symbols.
  ghost predicate Partitions(shards: map<nat, set<string>>, active: set<string>) {
    && (forall s :: s in active <==> exists n :: n in shards && s in shards[n])
    && (forall m, n, s | m in shards && n in shards && s in shards[m] && s in shards[n] :: m == n)
  }

  lemma {:induction false} PublishesCount(t: Typed, digest: string -> nat, runs: seq<set<string>>, count: nat)
    requires count > 0 && TypedVersion(t).Some?
    ensures TypedVersion(PublishAll(t, digest, runs, count)) == Some(TypedVersion(t).value + |runs|)
    ensures forall n: nat | n >= count ::
              && (n in PublishAll(t, digest, runs, count).shards <==> n in t.shards)
              && (n in t.shards ==> PublishAll(t, digest, runs, count).shards[n] == t.shards[n])
    decreases |runs|
  {
    if runs != [] {
      var init := runs[..|runs| - 1];
      PublishesCount(t, digest, init, count);
      PublishOnceWrites(PublishAll(t, digest, init, count), digest, runs[|runs| - 1], count);
    }
  }

  // Shards 0..count-1 are as computed; the others are whatever was there.
  ghost predicate Computed(shards: map<nat, set<string>>, digest: string -> nat, active: set<string>, count: nat)
    requires count > 0
  {
    forall n: nat | n < count :: n in shards && shards[n] == ShardMembers(digest, active, count, n)
  }

  ghost predicate NoStale(shards: map<nat, set<string>>, count: nat) {
    forall n: nat | n in shards && n >= count :: shards[n] == {}
  }

  lemma HomeShard(shards: map<nat, set<string>>, digest: string -> nat, active: set<string>, count: nat, s: string)
    requires count > 0 && Computed(shards, digest, active, count) && s in active
    ensures digest(s) % count in shards && s in shards[digest(s) % count]
  {
  }

  lemma PartitionsIfNoStale(shards: map<nat, set<string>>, digest: string -> nat, active: set<string>, count: nat)
    requires count > 0 && Computed(shards, digest, active, count) && NoStale(shards, count)
    ensures Partitions(shards, active)
  {
    forall s
      ensures s in active <==> exists n :: n in shards && s in shards[n]
    {
      if s in active { HomeShard(shards, digest, active, count, s); }
    }
  }

  lemma NoStaleIfPartitions(shards: map<nat, set<string>>, digest: string -> nat, active: set<string>, count: nat)
    requires count > 0 && Computed(shards, digest, active, count) && Partitions(shards, active)
    ensures NoStale(shards, count)
  {
    forall n: nat, s | n in shards && n >= count && s in active
      ensures s !in shards[n]
    {
      HomeShard(shards, digest, active, count, s);
    }
  }

  // After any non-empty run of publishes with one shard count, the version has grown by one per
  // publish, and the stored shards partition the last active symbols exactly when every shard
  // left over from a larger count was already empty.
  lemma PublishesPartition(t: Typed, digest: string -> nat, runs: seq<set<string>>, count: nat)
    requires count > 0 && runs != [] && TypedVersion(t).Some?
    ensures TypedVersion(PublishAll(t, digest, runs, count)) == Some(TypedVersion(t).value + |runs|)
    ensures Partitions(PublishAll(t, digest, runs, count).shards, runs[|runs| - 1]) <==> NoStale(t.shards, count)
  {
    var init, last := runs[..|runs| - 1], runs[|runs| - 1];
    PublishesCount(t, digest, runs, count);
    PublishOnceWrites(PublishAll(t, digest, init, count), digest, last, count);
    var shards := PublishAll(t, digest, runs, count).shards;
    assert NoStale(shards, count) <==> NoStale(t.shards, count);
    if NoStale(shards, count) {
      PartitionsIfNoStale(shards, digest, last, count);
    }
    if Partitions(shards, last) {
      NoStaleIfPartitions(shards, digest, last, count);
    }
  }

  // ---------- the same run on the flat store

  // One publish as the source issues it: the next version is read from the store.
  function FlatPublishOnce(f: Flat, prefix: string, digest: string -> nat, symbols: set<string>, count: nat): (r: Flat)
    requires StoredVersion(f, prefix).Some?
    ensures StoredVersion(r, prefix) == Some(StoredVersion(f, prefix).value + 1)
  {
    var version := StoredVersion(f, prefix).value + 1;
    IntRoundTrip(version);
    ShardsKeepValues(FlatSet(f, Render(prefix, VersionKey), TextPayload(IntText(version))), prefix, Items(digest, symbols, count));
    FlatStep(f, prefix, PublishOp(IntText(version), Items(digest, symbols, count))).0
  }

  function FlatPublishAll(f: Flat, prefix: string, digest: string -> nat, runs: seq<set<string>>, count: nat): (r: Flat)
    requires StoredVersion(f, prefix).Some?
    ensures StoredVersion(r, prefix) == Some(StoredVersion(f, prefix).value + |runs|)
    decreases |runs|
  {
    if runs == [] then f
    else FlatPublishOnce(FlatPublishAll(f, prefix, digest, runs[..|runs| - 1], count), prefix, digest, runs[|runs| - 1], count)
  }

  lemma {:induction false} ShardsKeepValues(f: Flat, prefix: string, items: seq<(nat, set<string>)>)
    ensures FlatShards(f, prefix, items).values == f.values
    decreases |items|
  {
    if items != [] {
      ShardsKeepValues(FlatSetMembers(f, Render(prefix, ShardKey(items[0].0)), items[0].1), prefix, items[1..]);
    }
  }

  // The version the source reads is the typed one.
  lemma VersionsAgree(f: Flat, prefix: string, t: Typed)
    requires Refines(f, prefix, t)
    ensures StoredVersion(f, prefix) == TypedVersion(t)
  {
    assert FlatGet(f, Render(prefix, VersionKey)) == TypedGet(t, VersionKey);
  }

  lemma {:induction false} FlatPublishesRefine(f: Flat, prefix: string, t: Typed, digest: string -> nat,
                                               runs: seq<set<string>>, count: nat)
    requires Refines(f, prefix, t) && StoredVersion(f, prefix).Some?
    ensures TypedVersion(t).Some?
    ensures Refines(FlatPublishAll(f, prefix, digest, runs, count), prefix, PublishAll(t, digest, runs, count))
    decreases |runs|
  {
    hide FlatStep, TypedStep, Refines, StoredVersion, Items;
    VersionsAgree(f, prefix, t);
    if runs != [] {
      var init := runs[..|runs| - 1];
      FlatPublishesRefine(f, prefix, t, digest, init, count);
      var f', t' := FlatPublishAll(f, prefix, digest, init, count), PublishAll(t, digest, init, count);
      StepRefines(f', prefix, t', PublishOp(IntText(TypedVersion(t').value + 1), Items(digest, runs[|runs| - 1], count)));
    }
  }

  // The shard sets at the keys of `prefix`, as get_shard_assignments returns them.
  function StoredShard(f: Flat, prefix: string, n: nat): set<string> { FlatMembers(f, Render(prefix, ShardKey(n))) }

  ghost predicate StoredPartition(f: Flat, prefix: string, active: set<string>) {
    && (forall s :: s in active <==> exists n: nat :: s in StoredShard(f, prefix, n))
    && (forall m: nat, n: nat, s | s in StoredShard(f, prefix, m) && s in StoredShard(f, prefix, n) :: m == n)
  }

  // On the store itself: each publish raises the version the next one reads by one, and after the
  // last one the point lookups of the shards partition its active symbols exactly when no shard at
  // or above the count held a symbol before.
  lemma FlatPublishesPartition(f: Flat, prefix: string, t: Typed, digest: string -> nat, runs: seq<set<string>>, count: nat)
    requires Refines(f, prefix, t) && StoredVersion(f, prefix).Some? && count > 0 && runs != []
    ensures StoredVersion(FlatPublishAll(f, prefix, digest, runs, count), prefix) == Some(StoredVersion(f, prefix).value + |runs|)
    ensures StoredPartition(FlatPublishAll(f, prefix, digest, runs, count), prefix, runs[|runs| - 1])
            <==> forall n: nat | n >= count :: StoredShard(f, prefix, n) == {}
  {
    FlatPublishesRefine(f, prefix, t, digest, runs, count);
    PublishesPartition(t, digest, runs, count);
    PartitionIsStored(FlatPublishAll(f, prefix, digest, runs, count), prefix, PublishAll(t, digest, runs, count), runs[|runs| - 1]);
    forall n: nat
      ensures StoredShard(f, prefix, n) == if n in t.shards then t.shards[n] else {}
    {
      ShardKeyStored(f, prefix, t, n);
    }
  }

  lemma PartitionIsStored(f: Flat, prefix: string, t: Typed, active: set<string>)
    requires Refines(f, prefix, t)
    ensures StoredPartition(f, prefix, active) <==> Partitions(t.shards, active)
  {
    forall n: nat
      ensures StoredShard(f, prefix, n) == if n in t.shards then t.shards[n] else {}
    {
      ShardKeyStored(f, prefix, t, n);
    }
    assert forall n: nat, s :: s in StoredShard(f, prefix, n) <==> n in t.shards && s in t.shards[n];
  }
}
