// The stores of live/leases.py, live/assignments.py and live/control_flags.py, as objects that
// write through the shared backend.
module LiveStores {
  import opened Common
  import opened Ordering
  import opened Text
  import opened Leases
  import opened Backend
  import opened JsonText
  import opened LiveKeys

  // The lease slot of a symbol holds a lease or nothing: no other store writes there.
  ghost predicate LeaseSlot(f: Flat, prefix: string, symbol: string) {
    var raw := FlatGet(f, Render(prefix, LeaseKey(symbol)));
    raw.None? || raw.value.LeasePayload?
  }

  // A key found by a prefix scan is that prefix followed by what is left of it.
  lemma SuffixOf(prefix: string, key: string)
    requires prefix <= key
    ensures prefix + key[|prefix|..] == key
  {
  }

  class RedisLeaseStore {
    const backend: InMemoryRedisBackend
    const keyPrefix: string

    constructor (backend: InMemoryRedisBackend, keyPrefix: string)
      ensures this.backend == backend && this.keyPrefix == keyPrefix
    {
      this.backend := backend;
      this.keyPrefix := keyPrefix;
    }

    method GetSymbolLease(symbol: string) returns (lease: Option<Lease>)
      requires LeaseSlot(backend.State(), keyPrefix, symbol)
      ensures lease == FlatLease(backend.State(), keyPrefix, symbol)
    {
      var raw := backend.Get(Render(keyPrefix, LeaseKey(symbol)));
      lease := if raw.None? then None else Some(raw.value.lease);
    }

    method AcquireSymbolLease(req: AcquireRequest) returns (reply: Reply)
      requires LeaseSlot(backend.State(), keyPrefix, req.symbolKey)
      modifies backend
      ensures (backend.State(), reply) == FlatStep(old(backend.State()), keyPrefix, AcquireOp(req))
      ensures reply.granted <==> Grantable(FlatLease(old(backend.State()), keyPrefix, req.symbolKey), Acquire(req))
      ensures FlatLease(backend.State(), keyPrefix, req.symbolKey) == reply.lease
      ensures if reply.granted then reply.lease.Some? && IsGranted(None, Acquire(req), reply.lease.value)
              else backend.State() == old(backend.State()) && reply.reason == "lease already held"
    {
      var existing := GetSymbolLease(req.symbolKey);
      if existing.Some? && existing.value.expiresAt > req.leasedAt {
        return Reply(false, existing, "lease already held");
      }
      var lease := Lease(req.workerId, req.podName, req.shardId, req.symbolKey, req.assignmentVersion,
                         req.leasedAt, req.expiresAt);
      backend.Set(Render(keyPrefix, LeaseKey(req.symbolKey)), LeasePayload(lease));
      reply := Reply(true, Some(lease), "");
    }

    method RenewSymbolLease(req: RenewRequest) returns (reply: Reply)
      requires LeaseSlot(backend.State(), keyPrefix, req.symbolKey)
      modifies backend
      ensures (backend.State(), reply) == FlatStep(old(backend.State()), keyPrefix, RenewOp(req))
      ensures reply.granted <==> Grantable(FlatLease(old(backend.State()), keyPrefix, req.symbolKey), Renew(req))
      ensures FlatLease(backend.State(), keyPrefix, req.symbolKey) == reply.lease
      ensures if reply.granted then
                reply.lease.Some? && IsGranted(FlatLease(old(backend.State()), keyPrefix, req.symbolKey), Renew(req), reply.lease.value)
              else
                && backend.State() == old(backend.State())
                && reply.reason == (if reply.lease.None? then "lease missing" else "lease owned by another worker")
    {
      var current := GetSymbolLease(req.symbolKey);
      if current.None? {
        return Reply(false, None, "lease missing");
      }
      if current.value.workerId != req.workerId {
        return Reply(false, current, "lease owned by another worker");
      }
      var lease := Lease(current.value.workerId, current.value.podName, current.value.shardId, current.value.symbolKey,
                         req.assignmentVersion, req.leasedAt, req.expiresAt);
      backend.Set(Render(keyPrefix, LeaseKey(req.symbolKey)), LeasePayload(lease));
      reply := Reply(true, Some(lease), "");
    }

    method ReleaseSymbolLease(symbol: string, worker: string)
      requires LeaseSlot(backend.State(), keyPrefix, symbol)
      modifies backend
      ensures backend.State() == FlatStep(old(backend.State()), keyPrefix, ReleaseOp(symbol, worker)).0
      ensures var stored := FlatLease(old(backend.State()), keyPrefix, symbol);
              FlatLease(backend.State(), keyPrefix, symbol)
              == if stored.Some? && stored.value.workerId == worker then None else stored
    {
      var current := GetSymbolLease(symbol);
      if current.Some? && current.value.workerId == worker {
        backend.Delete(Render(keyPrefix, LeaseKey(symbol)));
      }
    }

    method ListActiveLeases(now: int) returns (leases: seq<Lease>)
      requires forall s :: LeaseSlot(backend.State(), keyPrefix, s)
      ensures exists keys :: IsScan(backend.State(), keyPrefix + LEASES + "*", keys)
                             && leases == ActiveLeases(backend.State(), keyPrefix, now, keys)
    {
      var prefix := keyPrefix + LEASES;
      var scanned := backend.ScanKeys(prefix + "*");
      leases := [];
      for i := 0 to |scanned|
        invariant leases == ActiveLeases(backend.State(), keyPrefix, now, scanned[..i])
      {
        assert scanned[..i + 1][..i] == scanned[..i];
        assert scanned[i] in scanned;
        PrefixPattern(prefix, scanned[i]);
        var lease := GetSymbolLease(scanned[i][|prefix|..]);
        if lease.Some? && lease.value.expiresAt > now {
          leases := leases + [lease.value];
        }
      }
      assert scanned[..|scanned|] == scanned;
    }
  }

  // The symbol a scanned lease key is for.
  function SymbolAt(prefix: string, key: string): string {
    if prefix + LEASES <= key then key[|prefix + LEASES|..] else key
  }

  function ActiveLeases(f: Flat, prefix: string, now: int, keys: seq<string>): seq<Lease> {
    if keys == [] then []
    else
      var lease := FlatLease(f, prefix, SymbolAt(prefix, keys[|keys| - 1]));
      ActiveLeases(f, prefix, now, keys[..|keys| - 1]) + if Active(lease, now) then [lease.value] else []
  }

  // Of the scanned keys, the symbols whose point lookup is an active lease.
  function ActiveSymbols(f: Flat, prefix: string, now: int, keys: seq<string>): seq<string> {
    if keys == [] then []
    else
      var symbol := SymbolAt(prefix, keys[|keys| - 1]);
      ActiveSymbols(f, prefix, now, keys[..|keys| - 1]) + if Active(FlatLease(f, prefix, symbol), now) then [symbol] else []
  }

  lemma {:induction false} ActiveSymbolsListed(f: Flat, prefix: string, now: int, keys: seq<string>)
    requires Increasing(StrLe, keys) && forall k | k in keys :: prefix + LEASES <= k
    ensures var symbols := ActiveSymbols(f, prefix, now, keys);
            && |symbols| == |ActiveLeases(f, prefix, now, keys)|
            && Increasing(StrLe, symbols)
            && (forall s | s in symbols :: prefix + LEASES + s in keys && Active(FlatLease(f, prefix, s), now))
            && (forall i | 0 <= i < |symbols| :: Some(ActiveLeases(f, prefix, now, keys)[i]) == FlatLease(f, prefix, symbols[i]))
  {
    hide FlatLease, StrLe;
    if keys != [] {
      var init, last := keys[..|keys| - 1], keys[|keys| - 1];
      assert forall k | k in init :: k in keys;
      assert last in keys;
      ActiveSymbolsListed(f, prefix, now, init);
      var symbols, symbol := ActiveSymbols(f, prefix, now, init), SymbolAt(prefix, last);
      SuffixOf(prefix + LEASES, last);
      forall j | 0 <= j < |symbols|
        ensures StrLe(symbols[j], symbol) && symbols[j] != symbol
      {
        assert symbols[j] in symbols;
        var m :| 0 <= m < |init| && init[m] == prefix + LEASES + symbols[j];
        assert StrLe(keys[m], last) && keys[m] != last;
        StrLePrefixed(prefix + LEASES, symbols[j], symbol);
      }
    }
  }

  lemma {:induction false} ActiveSymbolsComplete(f: Flat, prefix: string, now: int, keys: seq<string>, s: string)
    requires prefix + LEASES + s in keys && Active(FlatLease(f, prefix, s), now)
    ensures s in ActiveSymbols(f, prefix, now, keys)
  {
    var init, last := keys[..|keys| - 1], keys[|keys| - 1];
    if last == prefix + LEASES + s {
      assert SymbolAt(prefix, last) == s;
    } else {
      ActiveSymbolsComplete(f, prefix, now, init, s);
    }
  }

  lemma ActiveIsStored(f: Flat, prefix: string, now: int, s: string)
    requires Active(FlatLease(f, prefix, s), now)
    ensures HasKey(f, prefix + LEASES + s)
  {
    assert Render(prefix, LeaseKey(s)) == prefix + LEASES + s;
  }

  // list_active_leases returns, in symbol order, one lease for each symbol whose point lookup is
  // an active lease, and that lease.
  lemma ActiveLeasesAgreeWithLookups(f: Flat, prefix: string, now: int, keys: seq<string>)
    returns (symbols: seq<string>)
    requires IsScan(f, prefix + LEASES + "*", keys)
    ensures |symbols| == |ActiveLeases(f, prefix, now, keys)| && Increasing(StrLe, symbols)
    ensures forall s :: s in symbols <==> Active(FlatLease(f, prefix, s), now)
    ensures forall i | 0 <= i < |symbols| :: Some(ActiveLeases(f, prefix, now, keys)[i]) == FlatLease(f, prefix, symbols[i])
  {
    hide FlatLease, ActiveLeases, ActiveSymbols, Active, Increasing;
    forall k | k in keys
      ensures prefix + LEASES <= k
    {
      PrefixPattern(prefix + LEASES, k);
    }
    ActiveSymbolsListed(f, prefix, now, keys);
    symbols := ActiveSymbols(f, prefix, now, keys);
    forall s | Active(FlatLease(f, prefix, s), now)
      ensures s in symbols
    {
      ActiveIsStored(f, prefix, now, s);
      PrefixPattern(prefix + LEASES, prefix + LEASES + s);
      ActiveSymbolsComplete(f, prefix, now, keys, s);
    }
  }

  predicate Active(lease: Option<Lease>, now: int) { lease.Some? && lease.value.expiresAt > now }

  class RedisAssignmentStore {
    const backend: InMemoryRedisBackend
    const keyPrefix: string

    constructor (backend: InMemoryRedisBackend, keyPrefix: string)
      ensures this.backend == backend && this.keyPrefix == keyPrefix
    {
      this.backend := backend;
      this.keyPrefix := keyPrefix;
    }

    // 0 before the first publish; None models the ValueError of a stored text that is no int.
    method GetAssignmentVersion() returns (version: Option<int>)
      requires var raw := FlatGet(backend.State(), Render(keyPrefix, VersionKey)); raw.None? || raw.value.TextPayload?
      ensures version == StoredVersion(backend.State(), keyPrefix)
    {
      var raw := backend.Get(Render(keyPrefix, VersionKey));
      version := if raw.None? then Some(0) else PyInt(raw.value.text);
    }

    method PublishAssignments(version: int, shards: seq<(nat, set<string>)>)
      modifies backend
      ensures backend.State() == FlatStep(old(backend.State()), keyPrefix, PublishOp(IntText(version), shards)).0
    {
      backend.Set(Render(keyPrefix, VersionKey), TextPayload(IntText(version)));
      ghost var goal := FlatShards(backend.State(), keyPrefix, shards);
      for i := 0 to |shards|
        invariant FlatShards(backend.State(), keyPrefix, shards[i..]) == goal
      {
        assert shards[i..][0] == shards[i] && shards[i..][1..] == shards[i + 1..];
        backend.SetMembers(Render(keyPrefix, ShardKey(shards[i].0)), shards[i].1);
      }
    }

    method GetShardAssignments(shard: nat) returns (symbols: set<string>)
      ensures symbols == FlatMembers(backend.State(), Render(keyPrefix, ShardKey(shard)))
    {
      symbols := backend.GetMembers(Render(keyPrefix, ShardKey(shard)));
    }

    method SetWorkerHeartbeat(beat: Heartbeat)
      modifies backend
      ensures backend.State() == FlatStep(old(backend.State()), keyPrefix, BeatOp(beat)).0
    {
      backend.Set(Render(keyPrefix, HeartbeatKey(beat.workerId)), HeartbeatPayload(beat));
    }

    method ClearWorkerHeartbeat(worker: string)
      modifies backend
      ensures backend.State() == FlatStep(old(backend.State()), keyPrefix, ClearBeatOp(worker)).0
    {
      backend.Delete(Render(keyPrefix, HeartbeatKey(worker)));
    }

    // None models the ValueError of a key whose shard id is no int.
    method ListShardAssignments() returns (listed: Option<map<int, set<string>>>)
      ensures exists keys :: IsScan(backend.State(), keyPrefix + SHARDS + "*", keys)
                             && listed == ListedShards(backend.State(), keyPrefix, keys)
    {
      var prefix := keyPrefix + SHARDS;
      var scanned := backend.ScanKeys(prefix + "*");
      var found: map<int, set<string>> := map[];
      for i := 0 to |scanned|
        invariant ListedShards(backend.State(), keyPrefix, scanned[..i]) == Some(found)
      {
        assert scanned[..i + 1][..i] == scanned[..i];
        assert scanned[i] in scanned && Matches(prefix + "*", scanned[i]);
        PrefixPattern(prefix, scanned[i]);
        var shard := PyInt(scanned[i][|prefix|..]);
        if shard.None? {
          ListingFails(backend.State(), keyPrefix, scanned, i);
          return None;
        }
        var members := backend.GetMembers(scanned[i]);
        found := found[shard.value := members];
      }
      assert scanned[..|scanned|] == scanned;
      listed := Some(found);
    }
  }

  lemma PrefixPattern(prefix: string, key: string)
    ensures Matches(prefix + "*", key) <==> prefix <= key
  {
  }

  // list_shard_assignments over the scanned keys: later keys overwrite earlier ones.
  function ListedShards(f: Flat, prefix: string, keys: seq<string>): Option<map<int, set<string>>> {
    if keys == [] then Some(map[])
    else
      var key := keys[|keys| - 1];
      match ListedShards(f, prefix, keys[..|keys| - 1])
      case None => None
      case Some(found) =>
        match PyInt(if prefix + SHARDS <= key then key[|prefix + SHARDS|..] else key)
        case None => None
        case Some(shard) => Some(found[shard := FlatMembers(f, key)])
  }

  lemma {:induction false} ListingFails(f: Flat, prefix: string, keys: seq<string>, i: nat)
    requires i < |keys| && prefix + SHARDS <= keys[i] && PyInt(keys[i][|prefix + SHARDS|..]).None?
    ensures ListedShards(f, prefix, keys).None?
  {
    if i < |keys| - 1 {
      ListingFails(f, prefix, keys[..|keys| - 1], i);
    }
  }

  function StoredVersion(f: Flat, prefix: string): Option<int> {
    match FlatGet(f, Render(prefix, VersionKey))
    case None => Some(0)
    case Some(TextPayload(text)) => PyInt(text)
    case Some(_) => None
  }

  // Every key under the shard prefix is a key publish writes.
  ghost predicate OnlyPublishedShards(f: Flat, prefix: string) {
    forall key | HasKey(f, key) && prefix + SHARDS <= key :: exists n: nat :: key == Render(prefix, ShardKey(n))
  }

  lemma ShardTextReadsBack(prefix: string, n: nat, key: string)
    requires key == Render(prefix, ShardKey(n))
    ensures prefix + SHARDS <= key && PyInt(key[|prefix + SHARDS|..]) == Some(n)
  {
    assert key == prefix + SHARDS + Decimal(n);
    assert key[|prefix + SHARDS|..] == Decimal(n);
    IntRoundTrip(n);
  }

  ghost predicate ListedUpTo(f: Flat, prefix: string, keys: seq<string>, found: map<int, set<string>>) {
    && (forall n | n in found :: n >= 0)
    && (forall n: nat :: n in found <==> Render(prefix, ShardKey(n)) in keys)
    && (forall n: nat | n in found :: found[n] == FlatMembers(f, Render(prefix, ShardKey(n))))
  }

  lemma ListOneMore(f: Flat, prefix: string, keys: seq<string>, n: nat, found: map<int, set<string>>)
    requires ListedUpTo(f, prefix, keys, found)
    ensures ListedUpTo(f, prefix, keys + [Render(prefix, ShardKey(n))],
                       found[n as int := FlatMembers(f, Render(prefix, ShardKey(n)))])
  {
    var key := Render(prefix, ShardKey(n));
    forall m: nat
      ensures m in found[n as int := FlatMembers(f, key)] <==> Render(prefix, ShardKey(m)) in keys + [key]
    {
      if Render(prefix, ShardKey(m)) == key { RenderInjective(prefix, ShardKey(m), ShardKey(n)); }
    }
  }

  lemma {:induction false} ListedPrefix(f: Flat, prefix: string, keys: seq<string>)
    requires forall k | k in keys :: exists n: nat :: k == Render(prefix, ShardKey(n))
    ensures ListedShards(f, prefix, keys).Some? && ListedUpTo(f, prefix, keys, ListedShards(f, prefix, keys).value)
  {
    hide PyInt, FlatMembers, Render;
    if keys != [] {
      var init, last := keys[..|keys| - 1], keys[|keys| - 1];
      assert keys == init + [last] && last in keys;
      assert forall k | k in init :: k in keys;
      ListedPrefix(f, prefix, init);
      var n: nat :| last == Render(prefix, ShardKey(n));
      ShardTextReadsBack(prefix, n, last);
      ListOneMore(f, prefix, init, n, ListedShards(f, prefix, init).value);
    }
  }

  lemma ShardKeyStored(f: Flat, prefix: string, t: Typed, n: nat)
    requires Refines(f, prefix, t)
    ensures HasKey(f, Render(prefix, ShardKey(n))) <==> n in t.shards
    ensures n in t.shards ==> FlatMembers(f, Render(prefix, ShardKey(n))) == t.shards[n]
  {
  }

  lemma OnlyShardKeysScanned(f: Flat, prefix: string, keys: seq<string>)
    requires OnlyPublishedShards(f, prefix) && IsScan(f, prefix + SHARDS + "*", keys)
    ensures forall k | k in keys :: exists n: nat :: k == Render(prefix, ShardKey(n))
  {
  }

  // The prefix scan agrees with the typed shard map whenever publish wrote all the shard keys.
  lemma ListingIsTheShardMap(f: Flat, prefix: string, t: Typed, keys: seq<string>)
    requires Refines(f, prefix, t) && OnlyPublishedShards(f, prefix)
    requires IsScan(f, prefix + SHARDS + "*", keys)
    ensures ListedShards(f, prefix, keys).Some?
    ensures forall n: int :: n in ListedShards(f, prefix, keys).value <==> n in t.shards
    ensures forall n: nat | n in t.shards :: ListedShards(f, prefix, keys).value[n] == t.shards[n]
  {
    OnlyShardKeysScanned(f, prefix, keys);
    ListedPrefix(f, prefix, keys);
    var found := ListedShards(f, prefix, keys).value;
    forall n: nat
      ensures n in found <==> n in t.shards
      ensures n in found ==> found[n] == t.shards[n]
    {
      ListedShard(f, prefix, t, keys, found, n);
    }
  }

  lemma ListedShard(f: Flat, prefix: string, t: Typed, keys: seq<string>, found: map<int, set<string>>, n: nat)
    requires Refines(f, prefix, t) && IsScan(f, prefix + SHARDS + "*", keys) && ListedUpTo(f, prefix, keys, found)
    ensures n in found <==> n in t.shards
    ensures n in found ==> found[n] == t.shards[n]
  {
  }

  // ---------- control flags

  // _decode_enabled_flag
  function Enabled(raw: Option<RawFlag>): bool {
    match raw
    case None => false
    case Some(RawBool(b)) => b
    case Some(RawText(text)) =>
      match Decode(text)
      case None => Lower(text) in {"1", "true", "yes", "on"}
      case Some(JObject(fields)) => Codes("enabled") in fields && Truthy(fields[Codes("enabled")])
      case Some(JBool(b)) => b
      case Some(_) => false
  }

  function FlagAt(f: Flat, prefix: string, key: Key): Option<RawFlag> {
    match FlatGet(f, Render(prefix, key))
    case Some(FlagPayload(raw)) => Some(raw)
    case _ => None
  }

  predicate Paused(f: Flat, prefix: string, scope: Scope, id: string) {
    Enabled(FlagAt(f, prefix, PauseKey(scope, id)))
  }

  datatype FlagSnapshot = FlagSnapshot(
    killSwitch: bool,
    contracts: seq<string>,
    symbols: seq<string>,
    shards: seq<int>
  )

  // Only flags are stored under the pause prefix.
  ghost predicate PauseSlots(f: Flat, prefix: string) {
    forall key | key in f.values && prefix + PAUSES <= key :: f.values[key].FlagPayload?
  }

  class RedisControlFlagStore {
    const backend: InMemoryRedisBackend
    const keyPrefix: string

    constructor (backend: InMemoryRedisBackend, keyPrefix: string)
      ensures this.backend == backend && this.keyPrefix == keyPrefix
    {
      this.backend := backend;
      this.keyPrefix := keyPrefix;
    }

    method IsGlobalKillSwitchEnabled() returns (on: bool)
      requires var raw := FlatGet(backend.State(), Render(keyPrefix, KillSwitchKey)); raw.None? || raw.value.FlagPayload?
      ensures on == Enabled(FlagAt(backend.State(), keyPrefix, KillSwitchKey))
    {
      var raw := backend.Get(Render(keyPrefix, KillSwitchKey));
      on := Enabled(if raw.None? then None else Some(raw.value.flag));
    }

    method IsPaused(scope: Scope, id: string) returns (on: bool)
      requires PauseSlots(backend.State(), keyPrefix)
      ensures on == Paused(backend.State(), keyPrefix, scope, id)
    {
      var raw := backend.Get(Render(keyPrefix, PauseKey(scope, id)));
      assert Render(keyPrefix, PauseKey(scope, id)) == keyPrefix + PAUSES + (ScopeTag(scope) + id);
      on := Enabled(if raw.None? then None else Some(raw.value.flag));
    }

    // None models the ValueError of an enabled shard pause whose id is no int.
    method Snapshot() returns (snapshot: Option<FlagSnapshot>)
      requires PauseSlots(backend.State(), keyPrefix)
      requires var raw := FlatGet(backend.State(), Render(keyPrefix, KillSwitchKey)); raw.None? || raw.value.FlagPayload?
      ensures exists keys :: IsScan(backend.State(), keyPrefix + PAUSES + "*", keys)
                             && snapshot == SnapshotOf(backend.State(), keyPrefix, keys)
    {
      var prefix := keyPrefix + PAUSES;
      var scanned := backend.ScanKeys(prefix + "*");
      var found := PauseLists([], [], []);
      for i := 0 to |scanned|
        invariant CollectPauses(backend.State(), keyPrefix, scanned[..i]) == Some(found)
      {
        assert scanned[..i + 1][..i] == scanned[..i];
        assert scanned[i] in scanned;
        PrefixPattern(prefix, scanned[i]);
        var raw := backend.Get(scanned[i]);
        if Enabled(if raw.None? then None else Some(raw.value.flag)) {
          var scopeKey := scanned[i][|prefix|..];
          if ScopeTag(ContractScope) <= scopeKey {
            found := found.(contracts := found.contracts + [scopeKey[|ScopeTag(ContractScope)|..]]);
          } else if ScopeTag(SymbolScope) <= scopeKey {
            found := found.(symbols := found.symbols + [scopeKey[|ScopeTag(SymbolScope)|..]]);
          } else if ScopeTag(ShardScope) <= scopeKey {
            var shard := PyInt(scopeKey[|ScopeTag(ShardScope)|..]);
            if shard.None? {
              assert CollectPauses(backend.State(), keyPrefix, scanned[..i + 1]).None?;
              CollectFails(backend.State(), keyPrefix, scanned, i + 1);
              return None;
            }
            found := found.(shards := found.shards + [shard.value]);
          }
        }
      }
      assert scanned[..|scanned|] == scanned;
      var kill := IsGlobalKillSwitchEnabled();
      snapshot := Some(FlagSnapshot(kill, Sorted(StrLe, found.contracts), Sorted(StrLe, found.symbols),
                                    Sorted(IntLe, found.shards)));
    }
  }

  datatype PauseLists = PauseLists(contracts: seq<string>, symbols: seq<string>, shards: seq<int>)

  function RawAt(f: Flat, key: string): Option<RawFlag> {
    match FlatGet(f, key) case Some(FlagPayload(raw)) => Some(raw) case _ => None
  }

  // The three lists one key adds to.
  function AddPause(found: PauseLists, scopeKey: string): Option<PauseLists> {
    if ScopeTag(ContractScope) <= scopeKey then
      Some(found.(contracts := found.contracts + [scopeKey[|ScopeTag(ContractScope)|..]]))
    else if ScopeTag(SymbolScope) <= scopeKey then
      Some(found.(symbols := found.symbols + [scopeKey[|ScopeTag(SymbolScope)|..]]))
    else if ScopeTag(ShardScope) <= scopeKey then
      match PyInt(scopeKey[|ScopeTag(ShardScope)|..])
      case None => None
      case Some(shard) => Some(found.(shards := found.shards + [shard]))
    else Some(found)
  }

  function CollectPauses(f: Flat, prefix: string, keys: seq<string>): Option<PauseLists> {
    if keys == [] then Some(PauseLists([], [], []))
    else
      var key := keys[|keys| - 1];
      match CollectPauses(f, prefix, keys[..|keys| - 1])
      case None => None
      case Some(found) =>
        if Enabled(RawAt(f, key)) && prefix + PAUSES <= key then AddPause(found, key[|prefix + PAUSES|..]) else Some(found)
  }

  function SnapshotOf(f: Flat, prefix: string, keys: seq<string>): Option<FlagSnapshot> {
    match CollectPauses(f, prefix, keys)
    case None => None
    case Some(found) =>
      Some(FlagSnapshot(Enabled(FlagAt(f, prefix, KillSwitchKey)), Sorted(StrLe, found.contracts),
                        Sorted(StrLe, found.symbols), Sorted(IntLe, found.shards)))
  }

  lemma {:induction false} CollectFails(f: Flat, prefix: string, keys: seq<string>, i: nat)
    requires i <= |keys| && CollectPauses(f, prefix, keys[..i]).None?
    ensures CollectPauses(f, prefix, keys).None?
  {
    if i == |keys| {
      assert keys[..i] == keys;
    } else {
      assert keys[..|keys| - 1][..i] == keys[..i];
      CollectFails(f, prefix, keys[..|keys| - 1], i);
    }
  }

  // A pause among the first scanned keys.
  ghost predicate Seen(f: Flat, prefix: string, keys: seq<string>, scope: Scope, id: string) {
    Render(prefix, PauseKey(scope, id)) in keys && Paused(f, prefix, scope, id)
  }

  ghost predicate CollectedUpTo(f: Flat, prefix: string, keys: seq<string>, found: Option<PauseLists>) {
    if found.None? then exists text :: Seen(f, prefix, keys, ShardScope, text) && PyInt(text).None?
    else
      && (forall id :: id in found.value.contracts <==> Seen(f, prefix, keys, ContractScope, id))
      && (forall id :: id in found.value.symbols <==> Seen(f, prefix, keys, SymbolScope, id))
      && (forall n :: n in found.value.shards <==> exists text :: PyInt(text) == Some(n) && Seen(f, prefix, keys, ShardScope, text))
      && (forall text | Seen(f, prefix, keys, ShardScope, text) :: PyInt(text).Some?)
  }

  // The branch the source takes on a scope key is the only scope the key can belong to.
  lemma SplitScope(scopeKey: string, scope: Scope, s: Scope, id: string)
    requires ScopeTag(scope) <= scopeKey
    ensures scopeKey == ScopeTag(s) + id <==> s == scope && id == scopeKey[|ScopeTag(scope)|..]
  {
    SuffixOf(ScopeTag(scope), scopeKey);
    if scopeKey == ScopeTag(s) + id {
      ScopeInjective(s, id, scope, scopeKey[|ScopeTag(scope)|..]);
    }
  }

  lemma SeenOneMore(f: Flat, prefix: string, keys: seq<string>, key: string, scope: Scope, id: string)
    requires prefix + PAUSES <= key
    ensures Seen(f, prefix, keys + [key], scope, id)
            <==> Seen(f, prefix, keys, scope, id) || (Enabled(RawAt(f, key)) && key[|prefix + PAUSES|..] == ScopeTag(scope) + id)
  {
    var p := prefix + PAUSES;
    assert Render(prefix, PauseKey(scope, id)) == p + (ScopeTag(scope) + id);
    SuffixOf(p, key);
    if p + (ScopeTag(scope) + id) == key {
      PrefixCancels(p, ScopeTag(scope) + id, key[|p|..]);
    }
  }

  // Adding one enabled key adds exactly its own scope and id.
  lemma AddPauseAdds(found: PauseLists, scopeKey: string)
    ensures AddPause(found, scopeKey).None? <==> exists text :: scopeKey == ScopeTag(ShardScope) + text && PyInt(text).None?
    ensures AddPause(found, scopeKey).Some? ==>
            var r := AddPause(found, scopeKey).value;
            && (forall id :: id in r.contracts <==> id in found.contracts || scopeKey == ScopeTag(ContractScope) + id)
            && (forall id :: id in r.symbols <==> id in found.symbols || scopeKey == ScopeTag(SymbolScope) + id)
            && (forall n :: n in r.shards <==>
                  n in found.shards || exists text :: scopeKey == ScopeTag(ShardScope) + text && PyInt(text) == Some(n))
  {
    forall scope, s, id | ScopeTag(scope) <= scopeKey
      ensures scopeKey == ScopeTag(s) + id <==> s == scope && id == scopeKey[|ScopeTag(scope)|..]
    {
      SplitScope(scopeKey, scope, s, id);
    }
    forall s, id | scopeKey == ScopeTag(s) + id
      ensures ScopeTag(s) <= scopeKey
    {
    }
  }

  lemma CollectOneMore(f: Flat, prefix: string, keys: seq<string>, key: string, found: PauseLists)
    requires prefix + PAUSES <= key && CollectedUpTo(f, prefix, keys, Some(found))
    ensures CollectedUpTo(f, prefix, keys + [key],
                          if Enabled(RawAt(f, key)) then AddPause(found, key[|prefix + PAUSES|..]) else Some(found))
  {
    forall scope, id
      ensures Seen(f, prefix, keys + [key], scope, id)
              <==> Seen(f, prefix, keys, scope, id) || (Enabled(RawAt(f, key)) && key[|prefix + PAUSES|..] == ScopeTag(scope) + id)
    {
      SeenOneMore(f, prefix, keys, key, scope, id);
    }
    if Enabled(RawAt(f, key)) {
      AddPauseAdds(found, key[|prefix + PAUSES|..]);
    }
  }

  lemma {:induction false} CollectedPrefix(f: Flat, prefix: string, keys: seq<string>)
    requires forall k | k in keys :: prefix + PAUSES <= k
    ensures CollectedUpTo(f, prefix, keys, CollectPauses(f, prefix, keys))
  {
    if keys != [] {
      var init, last := keys[..|keys| - 1], keys[|keys| - 1];
      assert keys == init + [last] && last in keys;
      assert forall k | k in init :: k in keys;
      CollectedPrefix(f, prefix, init);
      if CollectPauses(f, prefix, init).Some? {
        CollectOneMore(f, prefix, init, last, CollectPauses(f, prefix, init).value);
      } else {
        var text :| Seen(f, prefix, init, ShardScope, text) && PyInt(text).None?;
        assert Seen(f, prefix, keys, ShardScope, text);
      }
    }
  }

  lemma AddPauseOnce(found: PauseLists, scopeKey: string)
    requires NoRepeats(found.contracts) && NoRepeats(found.symbols) && AddPause(found, scopeKey).Some?
    requires forall id | scopeKey == ScopeTag(ContractScope) + id :: id !in found.contracts
    requires forall id | scopeKey == ScopeTag(SymbolScope) + id :: id !in found.symbols
    ensures NoRepeats(AddPause(found, scopeKey).value.contracts) && NoRepeats(AddPause(found, scopeKey).value.symbols)
  {
    if ScopeTag(ContractScope) <= scopeKey {
      SuffixOf(ScopeTag(ContractScope), scopeKey);
      NoRepeatsUpTo(found.contracts, scopeKey[|ScopeTag(ContractScope)|..]);
    } else if ScopeTag(SymbolScope) <= scopeKey {
      SuffixOf(ScopeTag(SymbolScope), scopeKey);
      NoRepeatsUpTo(found.symbols, scopeKey[|ScopeTag(SymbolScope)|..]);
    }
  }

  // A key that is not among the scanned ones adds something new.
  lemma NotSeenYet(f: Flat, prefix: string, keys: seq<string>, key: string, scope: Scope, id: string)
    requires prefix + PAUSES <= key && key !in keys && key[|prefix + PAUSES|..] == ScopeTag(scope) + id
    ensures !Seen(f, prefix, keys, scope, id)
  {
    hide Paused, Tail;
    SuffixOf(prefix + PAUSES, key);
    PauseKeyText(prefix, scope, id);
  }

  lemma PauseKeyText(prefix: string, scope: Scope, id: string)
    ensures Render(prefix, PauseKey(scope, id)) == prefix + PAUSES + (ScopeTag(scope) + id)
  {
    hide ScopeTag;
  }

  // Each contract and each symbol is collected once.
  lemma {:induction false} CollectedOnce(f: Flat, prefix: string, keys: seq<string>)
    requires NoRepeats(keys) && CollectPauses(f, prefix, keys).Some? && forall k | k in keys :: prefix + PAUSES <= k
    ensures NoRepeats(CollectPauses(f, prefix, keys).value.contracts) && NoRepeats(CollectPauses(f, prefix, keys).value.symbols)
  {
    if keys != [] {
      hide Seen, Enabled, AddPause, RawAt;
      var init, key := keys[..|keys| - 1], keys[|keys| - 1];
      assert keys == init + [key] && key in keys;
      assert forall k | k in init :: k in keys;
      NoRepeatsUpTo(init, key);
      CollectedOnce(f, prefix, init);
      CollectedPrefix(f, prefix, init);
      var found := CollectPauses(f, prefix, init).value;
      if Enabled(RawAt(f, key)) {
        forall scope, id | key[|prefix + PAUSES|..] == ScopeTag(scope) + id
          ensures !Seen(f, prefix, init, scope, id)
        {
          NotSeenYet(f, prefix, init, key, scope, id);
        }
        AddPauseOnce(found, key[|prefix + PAUSES|..]);
      }
    }
  }

  lemma ScannedPauses(f: Flat, prefix: string, keys: seq<string>, scope: Scope, id: string)
    requires IsScan(f, prefix + PAUSES + "*", keys)
    ensures Seen(f, prefix, keys, scope, id) <==> Paused(f, prefix, scope, id)
  {
  }

  // The scan finds exactly what the point queries report as paused.
  lemma CollectedAgreesWithQueries(f: Flat, prefix: string, keys: seq<string>)
    requires IsScan(f, prefix + PAUSES + "*", keys)
    ensures var found := CollectPauses(f, prefix, keys);
            if found.None? then exists text :: Paused(f, prefix, ShardScope, text) && PyInt(text).None?
            else
              && (forall id :: id in found.value.contracts <==> Paused(f, prefix, ContractScope, id))
              && (forall id :: id in found.value.symbols <==> Paused(f, prefix, SymbolScope, id))
              && (forall n :: n in found.value.shards <==>
                    exists text :: PyInt(text) == Some(n) && Paused(f, prefix, ShardScope, text))
              && (forall text | Paused(f, prefix, ShardScope, text) :: PyInt(text).Some?)
  {
    forall k | k in keys
      ensures prefix + PAUSES <= k
    {
      PrefixPattern(prefix + PAUSES, k);
    }
    CollectedPrefix(f, prefix, keys);
    forall scope, id
      ensures Seen(f, prefix, keys, scope, id) <==> Paused(f, prefix, scope, id)
    {
      ScannedPauses(f, prefix, keys, scope, id);
    }
  }

  // The snapshot shows the kill switch as its query does, and lists, sorted and each contract and
  // symbol once, exactly what the point queries report as paused.
  lemma SnapshotAgreesWithQueries(f: Flat, prefix: string, keys: seq<string>)
    requires IsScan(f, prefix + PAUSES + "*", keys)
    ensures SnapshotOf(f, prefix, keys).None? <==> exists text :: Paused(f, prefix, ShardScope, text) && PyInt(text).None?
    ensures SnapshotOf(f, prefix, keys).Some? ==>
            var s := SnapshotOf(f, prefix, keys).value;
            && (s.killSwitch <==> Enabled(FlagAt(f, prefix, KillSwitchKey)))
            && Increasing(StrLe, s.contracts) && Increasing(StrLe, s.symbols) && Ascending(IntLe, s.shards)
            && (forall id :: id in s.contracts <==> Paused(f, prefix, ContractScope, id))
            && (forall id :: id in s.symbols <==> Paused(f, prefix, SymbolScope, id))
            && (forall n :: n in s.shards <==> exists text :: PyInt(text) == Some(n) && Paused(f, prefix, ShardScope, text))
  {
    CollectedAgreesWithQueries(f, prefix, keys);
    var found := CollectPauses(f, prefix, keys);
    if found.Some? {
      StrLeTotal();
      IntLeTotal();
      SortedMembers(StrLe, found.value.contracts);
      SortedMembers(StrLe, found.value.symbols);
      SortedMembers(IntLe, found.value.shards);
      forall k | k in keys
        ensures prefix + PAUSES <= k
      {
        PrefixPattern(prefix + PAUSES, k);
      }
      CollectedOnce(f, prefix, keys);
      SortedIncreases(StrLe, found.value.contracts);
      SortedIncreases(StrLe, found.value.symbols);
    }
  }

  // With canonical shard ids, a shard is listed exactly when its point query says paused.
  lemma ListedShardsArePaused(f: Flat, prefix: string, keys: seq<string>, n: int)
    requires IsScan(f, prefix + PAUSES + "*", keys)
    requires forall text | Paused(f, prefix, ShardScope, text) :: exists m :: text == IntText(m)
    ensures SnapshotOf(f, prefix, keys).Some?
    ensures n in SnapshotOf(f, prefix, keys).value.shards <==> Paused(f, prefix, ShardScope, IntText(n))
  {
    forall text | Paused(f, prefix, ShardScope, text)
      ensures PyInt(text).Some? && text == IntText(PyInt(text).value)
    {
      var m :| text == IntText(m);
      IntRoundTrip(m);
    }
    SnapshotAgreesWithQueries(f, prefix, keys);
    IntRoundTrip(n);
  }

  // A JSON object whose last "enabled" member is truthy.
  predicate EnabledObject(text: string) {
    var json := Decode(text);
    json.Some? && json.value.JObject? && Codes("enabled") in json.value.fields && Truthy(json.value.fields[Codes("enabled")])
  }

  // Which of the fallback words reach the fallback: "1" is the JSON number one and "true" the JSON
  // value; the others, in any case, are not JSON.
  lemma WordsDecode(text: string)
    ensures Lower(text) == "1" ==> Decode(text) == Some(JNumber(false))
    ensures Lower(text) == "true" ==> Decode(text) == if text == "true" then Some(JBool(true)) else None
    ensures Lower(text) == "yes" || Lower(text) == "on" ==> Decode(text).None?
  {
    if Lower(text) in {"1", "true", "yes", "on"} {
      assert |text| == |Lower(text)| && LowerChar(text[0]) == Lower(text)[0];
      if Lower(text) == "1" {
        assert text[0] == '1';
        DigitDecodes(text);
      } else if text[0] == 't' {
        TrueWord(text);
      } else {
        assert text[0] in "TyYoO";
        NotJson(text);
      }
    }
  }

  lemma TrueWord(text: string)
    requires Lower(text) == "true" && text[0] == 't'
    ensures Decode(text) == if text == "true" then Some(JBool(true)) else None
  {
    assert |text| == 4;
    if "true" <= text {
      assert text == "true" && text[4..] == "";
    }
    assert text != "true" ==> !("true" <= text);
  }

  // For every stored text: it enables its flag exactly when it is one of the words true, yes and on
  // in any case, the JSON value true, or a JSON object whose "enabled" is truthy. The listed word
  // "1" is not among them.
  lemma EnabledIff(text: string)
    ensures Enabled(Some(RawText(text)))
            <==> Lower(text) in {"true", "yes", "on"} || Padded(text, "true") || EnabledObject(text)
  {
    TrueIff(text);
    WordsDecode(text);
  }

  // No text that reads as "1" enables anything.
  lemma OneIsNotEnabled(text: string)
    requires Lower(text) == "1"
    ensures !Enabled(Some(RawText(text)))
  {
    WordsDecode(text);
  }

  // The text the flag is written with turns it on or off.
  lemma WrittenFlagReadsBack(b: bool, text: string)
    requires text == "{\"enabled\": " + (if b then "true" else "false") + "}"
    ensures Enabled(Some(RawText(text))) == b
  {
    var key := "enabled";
    assert text == "{\"" + key + "\": " + (if b then "true" else "false") + "}";
    BoolMemberReadsBack(key, b, text);
  }
}
