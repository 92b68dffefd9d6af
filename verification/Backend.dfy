// The flat key-value store behind every live store (InMemoryRedisBackend in
// live/assignments.py). The JSON text of a lease or a heartbeat is modelled by the value it decodes
// to; a control flag keeps its text.
module Backend {
  import opened Common
  import opened Ordering
  import opened Text
  import opened Leases

  datatype Heartbeat = Heartbeat(
    workerId: string,
    podName: string,
    shardId: int,
    status: string,
    ownedSymbolCount: int,
    updatedAt: int
  )

  // What a control-flag value may be: a Python bool or a text.
  datatype RawFlag = RawBool(b: bool) | RawText(text: string)

  datatype Payload =
    | LeasePayload(lease: Lease)
    | HeartbeatPayload(heartbeat: Heartbeat)
    | TextPayload(text: string)
    | FlagPayload(flag: RawFlag)

  // The backend's two dictionaries, `_values` and `_sets`.
  datatype Flat = Flat(values: map<string, Payload>, sets: map<string, set<string>>)

  function FlatGet(f: Flat, key: string): Option<Payload> {
    if key in f.values then Some(f.values[key]) else None
  }

  function FlatSetAt(f: Flat, key: string): Option<set<string>> {
    if key in f.sets then Some(f.sets[key]) else None
  }

  function FlatMembers(f: Flat, key: string): set<string> {
    if key in f.sets then f.sets[key] else {}
  }

  function FlatSet(f: Flat, key: string, value: Payload): Flat { f.(values := f.values[key := value]) }

  function FlatSetMembers(f: Flat, key: string, members: set<string>): Flat { f.(sets := f.sets[key := members]) }

  function FlatDelete(f: Flat, key: string): Flat { Flat(f.values - {key}, f.sets - {key}) }

  predicate HasKey(f: Flat, key: string) { key in f.values || key in f.sets }

  // A pattern ending in '*' selects by prefix; any other pattern selects itself.
  predicate Matches(pattern: string, key: string) {
    if pattern != "" && pattern[|pattern| - 1] == '*' then pattern[..|pattern| - 1] <= key else key == pattern
  }

  // The one sorted listing of the selected keys.
  ghost predicate IsScan(f: Flat, pattern: string, keys: seq<string>) {
    && Increasing(StrLe, keys)
    && forall k :: k in keys <==> HasKey(f, k) && Matches(pattern, k)
  }

  lemma ScanUnique(f: Flat, pattern: string, a: seq<string>, b: seq<string>)
    requires IsScan(f, pattern, a) && IsScan(f, pattern, b)
    ensures a == b
  {
    StrLeTotal();
    IncreasingUnique(StrLe, a, b);
  }

  class InMemoryRedisBackend {
    var values: map<string, Payload>
    var sets: map<string, set<string>>

    ghost function State(): Flat
      reads this
    {
      Flat(values, sets)
    }

    constructor ()
      ensures State() == Flat(map[], map[])
    {
      values := map[];
      sets := map[];
    }

    method Get(key: string) returns (value: Option<Payload>)
      ensures value == FlatGet(State(), key)
    {
      value := if key in values then Some(values[key]) else None;
    }

    method Set(key: string, value: Payload)
      modifies this
      ensures State() == FlatSet(old(State()), key, value)
    {
      values := values[key := value];
    }

    method Delete(key: string)
      modifies this
      ensures State() == FlatDelete(old(State()), key)
    {
      values := values - {key};
      sets := sets - {key};
    }

    method SetMembers(key: string, members: set<string>)
      modifies this
      ensures State() == FlatSetMembers(old(State()), key, members)
    {
      sets := sets[key := members];
    }

    method GetMembers(key: string) returns (members: set<string>)
      ensures members == FlatMembers(State(), key)
    {
      members := if key in sets then sets[key] else {};
    }

    method ScanKeys(pattern: string) returns (keys: seq<string>)
      ensures IsScan(State(), pattern, keys)
    {
      var all := values.Keys + sets.Keys;
      var rest := all;
      keys := [];
      StrLeTotal();
      while rest != {}
        invariant rest <= all
        invariant Increasing(StrLe, keys)
        invariant forall k :: k in keys <==> k in all - rest && Matches(pattern, k)
        decreases |rest|
      {
        var key :| key in rest;
        rest := rest - {key};
        if Matches(pattern, key) {
          InsertSpec(StrLe, key, keys);
          keys := Insert(StrLe, key, keys);
        }
      }
    }
  }
}
