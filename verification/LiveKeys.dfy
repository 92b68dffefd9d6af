// The key scheme the live stores share, and the independent typed maps it is meant to encode.
module LiveKeys {
  import opened Common
  import opened Text
  import opened Leases
  import opened Backend

  datatype Scope = ContractScope | SymbolScope | ShardScope

  datatype Key =
    | LeaseKey(symbol: string)
    | VersionKey
    | ShardKey(shard: nat)
    | HeartbeatKey(worker: string)
    | KillSwitchKey
    | PauseKey(scope: Scope, id: string)

  const LEASES := ":lease:symbol:"
  const VERSION := ":assignments:version"
  const SHARDS := ":assignments:shard:"
  const WORKERS := ":worker:"
  const HEARTBEAT := ":heartbeat"
  const KILL_SWITCH := ":control:kill_switch"
  const PAUSES := ":control:pause:"

  function ScopeTag(scope: Scope): string {
    match scope
    case ContractScope => "contract:"
    case SymbolScope => "symbol:"
    case ShardScope => "shard:"
  }

  function Tail(key: Key): string {
    match key
    case LeaseKey(symbol) => LEASES + symbol
    case VersionKey => VERSION
    case ShardKey(shard) => SHARDS + Decimal(shard)
    case HeartbeatKey(worker) => WORKERS + worker + HEARTBEAT
    case KillSwitchKey => KILL_SWITCH
    case PauseKey(scope, id) => PAUSES + (ScopeTag(scope) + id)
  }

  function Render(prefix: string, key: Key): string { prefix + Tail(key) }

  lemma PrefixCancels(p: string, a: string, b: string)
    requires p + a == p + b
    ensures a == b
  {
    assert (p + a)[|p|..] == a && (p + b)[|p|..] == b;
  }

  // The character that tells the six families of keys apart.
  function Family(key: Key): (char, char) {
    match key
    case LeaseKey(_) => ('l', ' ')
    case VersionKey => ('a', 'v')
    case ShardKey(_) => ('a', 's')
    case HeartbeatKey(_) => ('w', ' ')
    case KillSwitchKey => ('c', 'k')
    case PauseKey(_, _) => ('c', 'p')
  }

  lemma FamilyFromTail(key: Key)
    ensures |Tail(key)| > 1 && Tail(key)[1] == Family(key).0
    ensures Family(key).0 == 'a' ==> |Tail(key)| > 13 && Tail(key)[13] == Family(key).1
    ensures Family(key).0 == 'c' ==> |Tail(key)| > 9 && Tail(key)[9] == Family(key).1
  {
  }

  lemma ScopeInjective(a: Scope, x: string, b: Scope, y: string)
    requires ScopeTag(a) + x == ScopeTag(b) + y
    ensures a == b && x == y
  {
    assert (ScopeTag(a) + x)[0] == ScopeTag(a)[0] && (ScopeTag(b) + y)[0] == ScopeTag(b)[0];
    assert (ScopeTag(a) + x)[1] == ScopeTag(a)[1] && (ScopeTag(b) + y)[1] == ScopeTag(b)[1];
    assert a == b;
    PrefixCancels(ScopeTag(a), x, y);
  }

  // No two keys of the stores share a slot of the flat backend.
  lemma RenderInjective(prefix: string, a: Key, b: Key)
    requires Render(prefix, a) == Render(prefix, b)
    ensures a == b
  {
    PrefixCancels(prefix, Tail(a), Tail(b));
    FamilyFromTail(a);
    FamilyFromTail(b);
    assert Family(a) == Family(b);
    match a
    case LeaseKey(x) =>
      PrefixCancels(LEASES, x, b.symbol);
    case ShardKey(x) =>
      PrefixCancels(SHARDS, Decimal(x), Decimal(b.shard));
      DecimalInjective(x, b.shard);
    case HeartbeatKey(x) =>
      assert Tail(a) == WORKERS + (x + HEARTBEAT) && Tail(b) == WORKERS + (b.worker + HEARTBEAT);
      PrefixCancels(WORKERS, x + HEARTBEAT, b.worker + HEARTBEAT);
      assert (x + HEARTBEAT)[..|x|] == x && (b.worker + HEARTBEAT)[..|b.worker|] == b.worker;
    case PauseKey(s, x) =>
      PrefixCancels(PAUSES, ScopeTag(s) + x, ScopeTag(b.scope) + b.id);
      ScopeInjective(s, x, b.scope, b.id);
    case _ =>
  }

  // ---------- the typed maps

  datatype Typed = Typed(
    leases: LeaseMap,
    version: Option<string>,
    shards: map<nat, set<string>>,
    heartbeats: map<string, Heartbeat>,
    killSwitch: Option<RawFlag>,
    pauses: map<(Scope, string), RawFlag>
  )

  function TypedGet(t: Typed, key: Key): Option<Payload> {
    match key
    case LeaseKey(s) => if s in t.leases then Some(LeasePayload(t.leases[s])) else None
    case VersionKey => if t.version.Some? then Some(TextPayload(t.version.value)) else None
    case ShardKey(_) => None
    case HeartbeatKey(w) => if w in t.heartbeats then Some(HeartbeatPayload(t.heartbeats[w])) else None
    case KillSwitchKey => if t.killSwitch.Some? then Some(FlagPayload(t.killSwitch.value)) else None
    case PauseKey(scope, id) => if (scope, id) in t.pauses then Some(FlagPayload(t.pauses[(scope, id)])) else None
  }

  function TypedSetAt(t: Typed, key: Key): Option<set<string>> {
    if key.ShardKey? && key.shard in t.shards then Some(t.shards[key.shard]) else None
  }

  // The flat store holds exactly the typed maps at the keys of `prefix`; any other key is free.
  ghost predicate Refines(f: Flat, prefix: string, t: Typed) {
    forall key: Key ::
      FlatGet(f, Render(prefix, key)) == TypedGet(t, key) && FlatSetAt(f, Render(prefix, key)) == TypedSetAt(t, key)
  }

  // ---------- operations of every live store, on both representations

  datatype Op =
    | AcquireOp(acquire: AcquireRequest)
    | RenewOp(renew: RenewRequest)
    | ReleaseOp(symbol: string, worker: string)
    | PublishOp(version: string, shards: seq<(nat, set<string>)>)
    | BeatOp(heartbeat: Heartbeat)
    | ClearBeatOp(worker: string)
    | KillSwitchOp(raw: RawFlag)
    | PauseOp(scope: Scope, id: string, raw: RawFlag)
    | UnpauseOp(scope: Scope, id: string)

  const NO_REPLY := Reply(true, None, "")

  function FlatLease(f: Flat, prefix: string, symbol: string): Option<Lease> {
    match FlatGet(f, Render(prefix, LeaseKey(symbol)))
    case Some(LeasePayload(lease)) => Some(lease)
    case _ => None
  }

  function FlatGrant(f: Flat, prefix: string, symbol: string, reply: Reply): Flat {
    if reply.granted && reply.lease.Some? then
      FlatSet(f, Render(prefix, LeaseKey(symbol)), LeasePayload(reply.lease.value))
    else f
  }

  function FlatRelease(f: Flat, prefix: string, symbol: string, worker: string): Flat {
    match FlatLease(f, prefix, symbol)
    case Some(lease) => if lease.workerId == worker then FlatDelete(f, Render(prefix, LeaseKey(symbol))) else f
    case None => f
  }

  function FlatShards(f: Flat, prefix: string, shards: seq<(nat, set<string>)>): Flat
    decreases |shards|
  {
    if shards == [] then f
    else FlatShards(FlatSetMembers(f, Render(prefix, ShardKey(shards[0].0)), shards[0].1), prefix, shards[1..])
  }

  function FlatPublish(f: Flat, prefix: string, version: string, shards: seq<(nat, set<string>)>): Flat {
    FlatShards(FlatSet(f, Render(prefix, VersionKey), TextPayload(version)), prefix, shards)
  }

  function FlatStep(f: Flat, prefix: string, op: Op): (Flat, Reply) {
    match op
    case AcquireOp(req) =>
      var reply := AcquireReply(FlatLease(f, prefix, req.symbolKey), req);
      (FlatGrant(f, prefix, req.symbolKey, reply), reply)
    case RenewOp(req) =>
      var reply := RenewReply(FlatLease(f, prefix, req.symbolKey), req);
      (FlatGrant(f, prefix, req.symbolKey, reply), reply)
    case ReleaseOp(symbol, worker) => (FlatRelease(f, prefix, symbol, worker), NO_REPLY)
    case PublishOp(version, shards) => (FlatPublish(f, prefix, version, shards), NO_REPLY)
    case BeatOp(beat) => (FlatSet(f, Render(prefix, HeartbeatKey(beat.workerId)), HeartbeatPayload(beat)), NO_REPLY)
    case ClearBeatOp(worker) => (FlatDelete(f, Render(prefix, HeartbeatKey(worker))), NO_REPLY)
    case KillSwitchOp(raw) => (FlatSet(f, Render(prefix, KillSwitchKey), FlagPayload(raw)), NO_REPLY)
    case PauseOp(scope, id, raw) => (FlatSet(f, Render(prefix, PauseKey(scope, id)), FlagPayload(raw)), NO_REPLY)
    case UnpauseOp(scope, id) => (FlatDelete(f, Render(prefix, PauseKey(scope, id))), NO_REPLY)
  }

  function TypedShards(shards: map<nat, set<string>>, items: seq<(nat, set<string>)>): map<nat, set<string>>
    decreases |items|
  {
    if items == [] then shards else TypedShards(shards[items[0].0 := items[0].1], items[1..])
  }

  // Each operation touches one of the typed maps and nothing else.
  function TypedStep(t: Typed, op: Op): (Typed, Reply) {
    match op
    case AcquireOp(req) =>
      var reply := AcquireReply(Find(t.leases, req.symbolKey), req);
      (t.(leases := Granted(t.leases, req.symbolKey, reply)), reply)
    case RenewOp(req) =>
      var reply := RenewReply(Find(t.leases, req.symbolKey), req);
      (t.(leases := Granted(t.leases, req.symbolKey, reply)), reply)
    case ReleaseOp(symbol, worker) => (t.(leases := Released(t.leases, symbol, worker)), NO_REPLY)
    case PublishOp(version, shards) =>
      (t.(version := Some(version), shards := TypedShards(t.shards, shards)), NO_REPLY)
    case BeatOp(beat) => (t.(heartbeats := t.heartbeats[beat.workerId := beat]), NO_REPLY)
    case ClearBeatOp(worker) => (t.(heartbeats := t.heartbeats - {worker}), NO_REPLY)
    case KillSwitchOp(raw) => (t.(killSwitch := Some(raw)), NO_REPLY)
    case PauseOp(scope, id, raw) => (t.(pauses := t.pauses[(scope, id) := raw]), NO_REPLY)
    case UnpauseOp(scope, id) => (t.(pauses := t.pauses - {(scope, id)}), NO_REPLY)
  }

  function FlatRun(f: Flat, prefix: string, ops: seq<Op>): Flat
    decreases |ops|
  {
    if ops == [] then f else FlatRun(FlatStep(f, prefix, ops[0]).0, prefix, ops[1..])
  }

  function TypedRun(t: Typed, ops: seq<Op>): Typed
    decreases |ops|
  {
    if ops == [] then t else TypedRun(TypedStep(t, ops[0]).0, ops[1..])
  }

  // What each operation of a run answers, in order.
  function FlatReplies(f: Flat, prefix: string, ops: seq<Op>): seq<Reply>
    decreases |ops|
  {
    if ops == [] then [] else [FlatStep(f, prefix, ops[0]).1] + FlatReplies(FlatStep(f, prefix, ops[0]).0, prefix, ops[1..])
  }

  function TypedReplies(t: Typed, ops: seq<Op>): seq<Reply>
    decreases |ops|
  {
    if ops == [] then [] else [TypedStep(t, ops[0]).1] + TypedReplies(TypedStep(t, ops[0]).0, ops[1..])
  }

  // ---------- the refinement

  // A flat write under one key is a typed change at that key and at no other.
  lemma WriteRefines(f: Flat, f': Flat, prefix: string, t: Typed, t': Typed, key: Key)
    requires Refines(f, prefix, t)
    requires forall k | k != Render(prefix, key) :: FlatGet(f', k) == FlatGet(f, k) && FlatSetAt(f', k) == FlatSetAt(f, k)
    requires FlatGet(f', Render(prefix, key)) == TypedGet(t', key)
    requires FlatSetAt(f', Render(prefix, key)) == TypedSetAt(t', key)
    requires forall k: Key | k != key :: TypedGet(t', k) == TypedGet(t, k) && TypedSetAt(t', k) == TypedSetAt(t, k)
    ensures Refines(f', prefix, t')
  {
    forall k: Key
      ensures FlatGet(f', Render(prefix, k)) == TypedGet(t', k) && FlatSetAt(f', Render(prefix, k)) == TypedSetAt(t', k)
    {
      if k != key {
        if Render(prefix, k) == Render(prefix, key) {
          RenderInjective(prefix, k, key);
          assert false;
        }
        assert FlatGet(f', Render(prefix, k)) == FlatGet(f, Render(prefix, k));
      }
    }
  }

  lemma LeaseLookupsAgree(f: Flat, prefix: string, t: Typed, symbol: string)
    requires Refines(f, prefix, t)
    ensures FlatLease(f, prefix, symbol) == Find(t.leases, symbol)
  {
  }

  lemma LeaseOpRefines(f: Flat, prefix: string, t: Typed, symbol: string, reply: Reply)
    requires Refines(f, prefix, t)
    ensures Refines(FlatGrant(f, prefix, symbol, reply), prefix, t.(leases := Granted(t.leases, symbol, reply)))
  {
    if reply.granted && reply.lease.Some? {
      assert TypedSetAt(t, LeaseKey(symbol)) == FlatSetAt(f, Render(prefix, LeaseKey(symbol)));
      WriteRefines(f, FlatGrant(f, prefix, symbol, reply), prefix, t,
                   t.(leases := Granted(t.leases, symbol, reply)), LeaseKey(symbol));
    }
  }

  lemma ReleaseRefines(f: Flat, prefix: string, t: Typed, symbol: string, worker: string)
    requires Refines(f, prefix, t)
    ensures Refines(FlatRelease(f, prefix, symbol, worker), prefix, t.(leases := Released(t.leases, symbol, worker)))
  {
    LeaseLookupsAgree(f, prefix, t, symbol);
    if symbol in t.leases && t.leases[symbol].workerId == worker {
      WriteRefines(f, FlatRelease(f, prefix, symbol, worker), prefix, t,
                   t.(leases := Released(t.leases, symbol, worker)), LeaseKey(symbol));
    }
  }

  lemma {:induction false} ShardsRefine(f: Flat, prefix: string, t: Typed, items: seq<(nat, set<string>)>)
    requires Refines(f, prefix, t)
    ensures Refines(FlatShards(f, prefix, items), prefix, t.(shards := TypedShards(t.shards, items)))
    decreases |items|
  {
    if items != [] {
      var key := ShardKey(items[0].0);
      var f' := FlatSetMembers(f, Render(prefix, key), items[0].1);
      var t' := t.(shards := t.shards[items[0].0 := items[0].1]);
      assert TypedGet(t, key) == FlatGet(f, Render(prefix, key));
      WriteRefines(f, f', prefix, t, t', key);
      ShardsRefine(f', prefix, t', items[1..]);
    }
  }

  lemma PublishRefines(f: Flat, prefix: string, t: Typed, version: string, items: seq<(nat, set<string>)>)
    requires Refines(f, prefix, t)
    ensures Refines(FlatPublish(f, prefix, version, items), prefix,
                    t.(version := Some(version), shards := TypedShards(t.shards, items)))
  {
    var f' := FlatSet(f, Render(prefix, VersionKey), TextPayload(version));
    assert TypedSetAt(t, VersionKey) == FlatSetAt(f, Render(prefix, VersionKey));
    WriteRefines(f, f', prefix, t, t.(version := Some(version)), VersionKey);
    ShardsRefine(f', prefix, t.(version := Some(version)), items);
  }

  // Setting or deleting the value at a key that never holds a set.
  lemma ValueRefines(f: Flat, f': Flat, prefix: string, t: Typed, t': Typed, key: Key, value: Option<Payload>)
    requires Refines(f, prefix, t) && !key.ShardKey?
    requires f' == if value.Some? then FlatSet(f, Render(prefix, key), value.value) else FlatDelete(f, Render(prefix, key))
    requires TypedGet(t', key) == value
    requires forall k: Key | k != key :: TypedGet(t', k) == TypedGet(t, k)
    requires t'.shards == t.shards
    ensures Refines(f', prefix, t')
  {
    assert TypedSetAt(t, key) == FlatSetAt(f, Render(prefix, key));
    WriteRefines(f, f', prefix, t, t', key);
  }

  // One operation: the flat store and the typed maps give the same reply and stay in step.
  lemma StepRefines(f: Flat, prefix: string, t: Typed, op: Op)
    requires Refines(f, prefix, t)
    ensures FlatStep(f, prefix, op).1 == TypedStep(t, op).1
    ensures Refines(FlatStep(f, prefix, op).0, prefix, TypedStep(t, op).0)
  {
    var f', t' := FlatStep(f, prefix, op).0, TypedStep(t, op).0;
    match op
    case AcquireOp(req) =>
      LeaseLookupsAgree(f, prefix, t, req.symbolKey);
      LeaseOpRefines(f, prefix, t, req.symbolKey, AcquireReply(Find(t.leases, req.symbolKey), req));
    case RenewOp(req) =>
      LeaseLookupsAgree(f, prefix, t, req.symbolKey);
      LeaseOpRefines(f, prefix, t, req.symbolKey, RenewReply(Find(t.leases, req.symbolKey), req));
    case ReleaseOp(symbol, worker) =>
      ReleaseRefines(f, prefix, t, symbol, worker);
    case PublishOp(version, shards) =>
      PublishRefines(f, prefix, t, version, shards);
    case BeatOp(beat) =>
      ValueRefines(f, f', prefix, t, t', HeartbeatKey(beat.workerId), Some(HeartbeatPayload(beat)));
    case ClearBeatOp(worker) =>
      ValueRefines(f, f', prefix, t, t', HeartbeatKey(worker), None);
    case KillSwitchOp(raw) =>
      ValueRefines(f, f', prefix, t, t', KillSwitchKey, Some(FlagPayload(raw)));
    case PauseOp(scope, id, raw) =>
      ValueRefines(f, f', prefix, t, t', PauseKey(scope, id), Some(FlagPayload(raw)));
    case UnpauseOp(scope, id) =>
      ValueRefines(f, f', prefix, t, t', PauseKey(scope, id), None);
  }

  // Every interleaving of the live stores' operations under one prefix acts on the flat store
  // exactly as on the independent maps, and is answered the same.
  lemma {:induction false} RunRefines(f: Flat, prefix: string, t: Typed, ops: seq<Op>)
    requires Refines(f, prefix, t)
    ensures Refines(FlatRun(f, prefix, ops), prefix, TypedRun(t, ops))
    ensures FlatReplies(f, prefix, ops) == TypedReplies(t, ops)
    decreases |ops|
  {
    hide FlatStep, TypedStep, Refines;
    if ops != [] {
      StepRefines(f, prefix, t, ops[0]);
      RunRefines(FlatStep(f, prefix, ops[0]).0, prefix, TypedStep(t, ops[0]).0, ops[1..]);
    }
  }

  // An empty backend is the empty typed maps.
  lemma EmptyRefines(prefix: string)
    ensures Refines(Flat(map[], map[]), prefix, Typed(map[], None, map[], map[], None, map[]))
  {
  }
}
