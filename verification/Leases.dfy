// The symbol-lease protocol of live/leases.py on its own typed map, and its safety over whole
// runs of many workers whose clocks may be skewed. Each store method is one atomic step.
module Leases {
  import opened Common

  datatype Lease = Lease(
    workerId: string,
    podName: string,
    shardId: int,
    symbolKey: string,
    assignmentVersion: int,
    leasedAt: int,
    expiresAt: int
  )

  datatype AcquireRequest = AcquireRequest(
    workerId: string,
    podName: string,
    shardId: int,
    symbolKey: string,
    assignmentVersion: int,
    leasedAt: int,
    expiresAt: int
  )

  datatype RenewRequest = RenewRequest(
    workerId: string,
    symbolKey: string,
    assignmentVersion: int,
    leasedAt: int,
    expiresAt: int
  )

  // `granted` is the source's `acquired` / `renewed`.
  datatype Reply = Reply(granted: bool, lease: Option<Lease>, reason: string)

  type LeaseMap = map<string, Lease>

  function Find(leases: LeaseMap, symbol: string): Option<Lease> {
    if symbol in leases then Some(leases[symbol]) else None
  }

  function RequestedLease(req: AcquireRequest): Lease {
    Lease(req.workerId, req.podName, req.shardId, req.symbolKey, req.assignmentVersion, req.leasedAt, req.expiresAt)
  }

  function RenewedLease(current: Lease, req: RenewRequest): Lease {
    current.(assignmentVersion := req.assignmentVersion, leasedAt := req.leasedAt, expiresAt := req.expiresAt)
  }

  // What each method answers, given the lease now stored for the symbol.
  function AcquireReply(existing: Option<Lease>, req: AcquireRequest): Reply {
    if existing.Some? && existing.value.expiresAt > req.leasedAt then
      Reply(false, existing, "lease already held")
    else
      Reply(true, Some(RequestedLease(req)), "")
  }

  function RenewReply(existing: Option<Lease>, req: RenewRequest): Reply {
    if existing.None? then Reply(false, None, "lease missing")
    else if existing.value.workerId != req.workerId then
      Reply(false, existing, "lease owned by another worker")
    else Reply(true, Some(RenewedLease(existing.value, req)), "")
  }

  // The typed lease map after each method.
  function Granted(leases: LeaseMap, symbol: string, reply: Reply): LeaseMap {
    if reply.granted && reply.lease.Some? then leases[symbol := reply.lease.value] else leases
  }

  function Released(leases: LeaseMap, symbol: string, worker: string): LeaseMap {
    if symbol in leases && leases[symbol].workerId == worker then leases - {symbol} else leases
  }

  // ---------- whole runs

  datatype Action =
    | Acquire(acquire: AcquireRequest)
    | Renew(renew: RenewRequest)
    | Release(symbol: string)

  // One step: true time advances by `elapsed`, then `worker`, reading `clock`, calls the store.
  datatype Event = Event(elapsed: nat, worker: string, clock: int, action: Action)

  // `held` is what each worker was last told it holds; `takeover` is the true time of the last
  // successful acquire of each symbol.
  datatype World = World(
    now: int,
    leases: LeaseMap,
    held: map<(string, string), Lease>,
    takeover: map<string, int>
  )

  ghost predicate ReadsWithin(now: int, clock: int, skew: nat) { now - skew <= clock <= now + skew }

  // Workers put their own id and their own clock reading into their requests.
  ghost predicate ValidEvent(w: World, e: Event, skew: nat) {
    && ReadsWithin(w.now + e.elapsed, e.clock, skew)
    && match e.action
       case Acquire(req) => req.workerId == e.worker && req.leasedAt == e.clock
       case Renew(req) => req.workerId == e.worker && req.leasedAt == e.clock
       case Release(_) => true
  }

  // The worker is told it now holds `lease`; `acquired` tells an acquire from a renewal.
  function Grant(w: World, now: int, worker: string, symbol: string, lease: Lease, acquired: bool): World {
    World(now, w.leases[symbol := lease], w.held[(worker, symbol) := lease],
          if acquired then w.takeover[symbol := now] else w.takeover)
  }

  function Drop(w: World, now: int, worker: string, symbol: string): World {
    World(now, Released(w.leases, symbol, worker), w.held - {(worker, symbol)}, w.takeover)
  }

  function Idle(w: World, now: int): World { w.(now := now) }

  function Step(w: World, e: Event): World {
    var now := w.now + e.elapsed;
    match e.action
    case Acquire(req) =>
      if AcquireReply(Find(w.leases, req.symbolKey), req).granted then
        Grant(w, now, e.worker, req.symbolKey, RequestedLease(req), true)
      else Idle(w, now)
    case Renew(req) =>
      if RenewReply(Find(w.leases, req.symbolKey), req).granted then
        Grant(w, now, e.worker, req.symbolKey, RenewedLease(w.leases[req.symbolKey], req), false)
      else Idle(w, now)
    case Release(symbol) => Drop(w, now, e.worker, symbol)
  }

  function Run(w: World, events: seq<Event>): World
    decreases |events|
  {
    if events == [] then w else Run(Step(w, events[0]), events[1..])
  }

  ghost predicate ValidRun(w: World, events: seq<Event>, skew: nat)
    decreases |events|
  {
    events == [] || (ValidEvent(w, events[0], skew) && ValidRun(Step(w, events[0]), events[1..], skew))
  }

  // A store may start with leases left by an earlier life; no worker believes anything yet.
  ghost predicate Initial(w: World) { w.held == map[] && w.takeover == map[] }

  // A worker that reads `clock` takes itself to hold an unexpired granted lease.
  ghost predicate Holds(w: World, worker: string, symbol: string, clock: int) {
    (worker, symbol) in w.held && w.held[(worker, symbol)].expiresAt > clock
  }

  // The inductive invariant: a belief either is the stored record, or expired (up to the skew)
  // before the last takeover of its symbol.
  ghost predicate Invariant(w: World, skew: nat) {
    && (forall k | k in w.held :: w.held[k].workerId == k.0 && Accounted(w, k.0, k.1, skew))
    && (forall s | s in w.takeover :: w.takeover[s] <= w.now)
  }

  ghost predicate Accounted(w: World, worker: string, symbol: string, skew: nat)
    requires (worker, symbol) in w.held
  {
    || (symbol in w.leases && w.leases[symbol] == w.held[(worker, symbol)])
    || (symbol in w.takeover && w.held[(worker, symbol)].expiresAt <= w.takeover[symbol] + skew)
  }

  // A store write of `lease` by its own worker: a takeover when it acquires, else a renewal.
  lemma GrantInvariant(w: World, now: int, worker: string, symbol: string, lease: Lease, acquired: bool, skew: nat)
    requires Invariant(w, skew) && w.now <= now && lease.workerId == worker
    requires if acquired then symbol in w.leases ==> w.leases[symbol].expiresAt <= now + skew
             else symbol in w.leases && w.leases[symbol].workerId == worker
    ensures Invariant(Grant(w, now, worker, symbol, lease, acquired), skew)
  {
  }

  lemma ReleaseInvariant(w: World, now: int, worker: string, symbol: string, skew: nat)
    requires Invariant(w, skew) && w.now <= now
    ensures Invariant(Drop(w, now, worker, symbol), skew)
  {
  }

  lemma IdleInvariant(w: World, now: int, skew: nat)
    requires Invariant(w, skew) && w.now <= now
    ensures Invariant(Idle(w, now), skew)
  {
  }

  lemma StepInvariant(w: World, e: Event, skew: nat)
    requires Invariant(w, skew) && ValidEvent(w, e, skew)
    ensures Invariant(Step(w, e), skew)
  {
    var now := w.now + e.elapsed;
    match e.action
    case Acquire(req) =>
      if AcquireReply(Find(w.leases, req.symbolKey), req).granted {
        GrantInvariant(w, now, e.worker, req.symbolKey, RequestedLease(req), true, skew);
      } else {
        IdleInvariant(w, now, skew);
      }
    case Renew(req) =>
      if RenewReply(Find(w.leases, req.symbolKey), req).granted {
        GrantInvariant(w, now, e.worker, req.symbolKey, RenewedLease(w.leases[req.symbolKey], req), false, skew);
      } else {
        IdleInvariant(w, now, skew);
      }
    case Release(symbol) =>
      ReleaseInvariant(w, now, e.worker, symbol, skew);
  }

  lemma {:induction false} RunInvariant(w: World, events: seq<Event>, skew: nat)
    requires Invariant(w, skew) && ValidRun(w, events, skew)
    ensures Invariant(Run(w, events), skew)
    decreases |events|
  {
    if events != [] {
      StepInvariant(w, events[0], skew);
      RunInvariant(Step(w, events[0]), events[1..], skew);
    }
  }

  // Two workers can both take themselves to hold a symbol only during the 2 * skew time units that
  // follow its last takeover. Every takeover opens such a period anew.
  lemma OverlapNeedsRecentTakeover(w: World, events: seq<Event>, skew: nat,
                               a: string, b: string, symbol: string, clockA: int, clockB: int)
    requires Initial(w) && ValidRun(w, events, skew)
    requires a != b
    requires ReadsWithin(Run(w, events).now, clockA, skew) && ReadsWithin(Run(w, events).now, clockB, skew)
    requires Holds(Run(w, events), a, symbol, clockA) && Holds(Run(w, events), b, symbol, clockB)
    ensures symbol in Run(w, events).takeover
    ensures Run(w, events).takeover[symbol] <= Run(w, events).now < Run(w, events).takeover[symbol] + 2 * skew
  {
    RunInvariant(w, events, skew);
    var w' := Run(w, events);
    assert Accounted(w', a, symbol, skew) && Accounted(w', b, symbol, skew);
    assert w'.held[(a, symbol)].workerId == a && w'.held[(b, symbol)].workerId == b;
  }

  // Mutual exclusion with one shared clock, although renew never looks at the expiry.
  lemma MutualExclusion(w: World, events: seq<Event>, a: string, b: string, symbol: string)
    requires Initial(w) && ValidRun(w, events, 0)
    requires Holds(Run(w, events), a, symbol, Run(w, events).now)
    requires Holds(Run(w, events), b, symbol, Run(w, events).now)
    ensures a == b
  {
    if a != b {
      OverlapNeedsRecentTakeover(w, events, 0, a, b, symbol, Run(w, events).now, Run(w, events).now);
      assert false;
    }
  }

  // ---------- how long a superseded worker goes on

  // The event tells `worker` that it now holds `symbol`.
  predicate Grants(w: World, e: Event, worker: string, symbol: string) {
    e.worker == worker &&
    match e.action
    case Acquire(req) => req.symbolKey == symbol && AcquireReply(Find(w.leases, symbol), req).granted
    case Renew(req) => req.symbolKey == symbol && RenewReply(Find(w.leases, symbol), req).granted
    case Release(_) => false
  }

  predicate GrantedAgain(w: World, events: seq<Event>, worker: string, symbol: string)
    decreases |events|
  {
    events != [] && (Grants(w, events[0], worker, symbol) || GrantedAgain(Step(w, events[0]), events[1..], worker, symbol))
  }

  // The event takes `symbol` over for its worker.
  predicate TakesOver(w: World, e: Event, symbol: string) {
    e.action.Acquire? && e.action.acquire.symbolKey == symbol
    && AcquireReply(Find(w.leases, symbol), e.action.acquire).granted
  }

  // Until it is granted the symbol again, a worker's belief stays as it is or is given up.
  lemma {:induction false} BeliefKept(w: World, events: seq<Event>, skew: nat, worker: string, symbol: string)
    requires ValidRun(w, events, skew) && !GrantedAgain(w, events, worker, symbol)
    ensures w.now <= Run(w, events).now
    ensures (worker, symbol) in Run(w, events).held
            ==> (worker, symbol) in w.held && Run(w, events).held[(worker, symbol)] == w.held[(worker, symbol)]
    decreases |events|
  {
    if events != [] {
      BeliefKept(Step(w, events[0]), events[1..], skew, worker, symbol);
    }
  }

  // Whatever another worker believed before a takeover expires within the skew of it.
  lemma TakeoverExpiresBelief(w: World, e: Event, skew: nat, worker: string, symbol: string)
    requires Invariant(w, skew) && ValidEvent(w, e, skew) && TakesOver(w, e, symbol) && (worker, symbol) in w.held
    ensures w.held[(worker, symbol)].expiresAt <= w.now + e.elapsed + skew
  {
    assert Accounted(w, worker, symbol, skew);
  }

  // Once an acquire by another worker takes the symbol over at t0, a superseded worker takes
  // itself to hold it only before t0 + 2 * skew, until it is granted the symbol again.
  lemma SupersededWorkerStops(w: World, before: seq<Event>, e: Event, after: seq<Event>, skew: nat,
                              worker: string, symbol: string, clock: int)
    requires Initial(w) && ValidRun(w, before, skew)
    requires var t := Run(w, before);
             && ValidEvent(t, e, skew) && TakesOver(t, e, symbol) && e.worker != worker
             && ValidRun(Step(t, e), after, skew) && !GrantedAgain(Step(t, e), after, worker, symbol)
             && ReadsWithin(Run(Step(t, e), after).now, clock, skew) && Holds(Run(Step(t, e), after), worker, symbol, clock)
    ensures Run(Step(Run(w, before), e), after).now < Run(w, before).now + e.elapsed + 2 * skew
  {
    var t := Run(w, before);
    RunInvariant(w, before, skew);
    BeliefKept(Step(t, e), after, skew, worker, symbol);
    TakeoverExpiresBelief(t, e, skew, worker, symbol);
  }

  // The bound is exact: for every positive skew some run still has two holders at the very last
  // moment the bound allows.
  lemma OverlapBoundIsTight(skew: nat) returns (w: World, events: seq<Event>)
    requires skew > 0
    ensures Initial(w) && ValidRun(w, events, skew)
    ensures var w' := Run(w, events);
            && "S" in w'.takeover && w'.now == w'.takeover["S"] + 2 * skew - 1
            && ReadsWithin(w'.now, w'.now - skew, skew) && Holds(w', "A", "S", w'.now - skew)
            && Holds(w', "B", "S", w'.now)
  {
    w := World(0, map[], map[], map[]);
    // A's lease runs to `skew`; B reads a clock that is `skew` ahead and takes it over at once;
    // A reads a clock that is `skew` behind and still holds just before 2 * skew.
    var first := Event(0, "A", 0, Acquire(AcquireRequest("A", "", 0, "S", 0, 0, skew)));
    var second := Event(0, "B", skew, Acquire(AcquireRequest("B", "", 0, "S", 0, skew, 3 * skew)));
    var idle := Event(2 * skew - 1, "C", 2 * skew - 1, Release("other"));
    events := [first, second, idle];
    var w1 := Step(w, first);
    var w2 := Step(w1, second);
    assert w1.leases["S"].expiresAt == skew;
    assert events[1..] == [second, idle] && events[1..][1..] == [idle] && [idle][1..] == [];
    assert Run(w, events) == Run(w1, [second, idle]) == Run(w2, [idle]) == Run(Step(w2, idle), []) == Step(w2, idle);
    assert ValidRun(Step(w2, idle), [], skew);
    assert ValidRun(w2, [idle], skew);
    assert ValidRun(w1, [second, idle], skew);
  }

  // ---------- what a step stores, and how long a granted lease stands

  // The action may have its symbol: an acquire when no unexpired lease is stored, a renewal when
  // the stored lease is the worker's own.
  predicate Grantable(stored: Option<Lease>, action: Action) {
    match action
    case Acquire(req) => stored.None? || stored.value.expiresAt <= req.leasedAt
    case Renew(req) => stored.Some? && stored.value.workerId == req.workerId
    case Release(_) => false
  }

  // What is then stored: an acquire's own data, or the stored lease with the renewal's times.
  predicate IsGranted(stored: Option<Lease>, action: Action, lease: Lease) {
    match action
    case Acquire(req) =>
      && lease.workerId == req.workerId && lease.podName == req.podName && lease.shardId == req.shardId
      && lease.symbolKey == req.symbolKey && lease.assignmentVersion == req.assignmentVersion
      && lease.leasedAt == req.leasedAt && lease.expiresAt == req.expiresAt
    case Renew(req) =>
      && stored.Some? && lease.workerId == stored.value.workerId && lease.podName == stored.value.podName
      && lease.shardId == stored.value.shardId && lease.symbolKey == stored.value.symbolKey
      && lease.assignmentVersion == req.assignmentVersion && lease.leasedAt == req.leasedAt && lease.expiresAt == req.expiresAt
    case Release(_) => false
  }

  function SymbolOf(e: Event): string {
    match e.action
    case Acquire(req) => req.symbolKey
    case Renew(req) => req.symbolKey
    case Release(symbol) => symbol
  }

  // Each step changes one symbol at most. A granted one stores the lease and tells the worker; a
  // refused one changes nothing; a release removes the worker's own lease and its belief only.
  lemma StepMeaning(w: World, e: Event)
    ensures var w', symbol := Step(w, e), SymbolOf(e);
            && w'.now == w.now + e.elapsed
            && (forall s | s != symbol :: Find(w'.leases, s) == Find(w.leases, s))
            && (forall k | k != (e.worker, symbol) :: k in w'.held <==> k in w.held)
            && (forall k | k != (e.worker, symbol) && k in w.held :: w'.held[k] == w.held[k])
            && match e.action
               case Release(_) =>
                 && (e.worker, symbol) !in w'.held
                 && Find(w'.leases, symbol) == (if symbol in w.leases && w.leases[symbol].workerId == e.worker then None
                                                else Find(w.leases, symbol))
               case _ =>
                 if Grantable(Find(w.leases, symbol), e.action) then
                   && symbol in w'.leases && IsGranted(Find(w.leases, symbol), e.action, w'.leases[symbol])
                   && (e.worker, symbol) in w'.held && w'.held[(e.worker, symbol)] == w'.leases[symbol]
                 else w'.leases == w.leases && w'.held == w.held
  {
    var now, symbol := w.now + e.elapsed, SymbolOf(e);
    match e.action
    case Acquire(req) =>
      GrantChanges(w, now, e.worker, symbol, RequestedLease(req), true);
      hide Grant;
    case Renew(req) =>
      if symbol in w.leases {
        GrantChanges(w, now, e.worker, symbol, RenewedLease(w.leases[symbol], req), false);
      }
      hide Grant;
    case Release(_) =>
  }

  lemma GrantChanges(w: World, now: int, worker: string, symbol: string, lease: Lease, acquired: bool)
    ensures var w' := Grant(w, now, worker, symbol, lease, acquired);
            && w'.now == now && symbol in w'.leases && w'.leases[symbol] == lease
            && (worker, symbol) in w'.held && w'.held[(worker, symbol)] == lease
            && (forall s | s != symbol :: Find(w'.leases, s) == Find(w.leases, s))
            && (forall k | k != (worker, symbol) :: k in w'.held <==> k in w.held)
            && (forall k | k != (worker, symbol) && k in w.held :: w'.held[k] == w.held[k])
  {
  }

  // The event releases or renews `symbol` in the name of `worker`.
  predicate Touches(e: Event, worker: string, symbol: string) {
    match e.action
    case Acquire(_) => false
    case Renew(req) => req.workerId == worker && req.symbolKey == symbol
    case Release(s) => e.worker == worker && s == symbol
  }

  // While its worker neither releases nor renews it, a stored lease stands, and every acquire of
  // its symbol stamped before it expires is refused.
  lemma LeaseStands(w: World, e: Event, symbol: string)
    requires symbol in w.leases && !Touches(e, w.leases[symbol].workerId, symbol)
    requires e.action.Acquire? && e.action.acquire.symbolKey == symbol ==> e.action.acquire.leasedAt < w.leases[symbol].expiresAt
    ensures !TakesOver(w, e, symbol) && Find(Step(w, e).leases, symbol) == Some(w.leases[symbol])
    ensures var k := (w.leases[symbol].workerId, symbol);
            k in w.held ==> k in Step(w, e).held && Step(w, e).held[k] == w.held[k]
  {
  }

  predicate Untouched(events: seq<Event>, worker: string, symbol: string) {
    forall e | e in events :: !Touches(e, worker, symbol)
  }

  // Some event of the run takes `symbol` over.
  predicate TakenOver(w: World, events: seq<Event>, symbol: string)
    decreases |events|
  {
    events != [] && (TakesOver(w, events[0], symbol) || TakenOver(Step(w, events[0]), events[1..], symbol))
  }

  // The acquires of `symbol` in the run are stamped before `expiry`.
  predicate StampedBefore(events: seq<Event>, symbol: string, expiry: int) {
    forall e | e in events :: e.action.Acquire? && e.action.acquire.symbolKey == symbol ==> e.action.acquire.leasedAt < expiry
  }

  lemma {:induction false} RunKeepsLease(w: World, events: seq<Event>, symbol: string)
    requires symbol in w.leases && Untouched(events, w.leases[symbol].workerId, symbol)
    requires StampedBefore(events, symbol, w.leases[symbol].expiresAt)
    ensures !TakenOver(w, events, symbol) && Find(Run(w, events).leases, symbol) == Some(w.leases[symbol])
    ensures var k := (w.leases[symbol].workerId, symbol);
            k in w.held ==> k in Run(w, events).held && Run(w, events).held[k] == w.held[k]
    decreases |events|
  {
    if events != [] {
      assert events[0] in events && forall e | e in events[1..] :: e in events;
      LeaseStands(w, events[0], symbol);
      hide Step, Touches, TakesOver;
      RunKeepsLease(Step(w, events[0]), events[1..], symbol);
    }
  }

  lemma {:induction false} ClocksBeforeEnd(w: World, events: seq<Event>, skew: nat)
    requires ValidRun(w, events, skew)
    ensures w.now <= Run(w, events).now
    ensures forall e | e in events && e.action.Acquire? :: e.action.acquire.leasedAt <= Run(w, events).now + skew
    decreases |events|
  {
    if events != [] {
      ClocksBeforeEnd(Step(w, events[0]), events[1..], skew);
      assert forall e | e in events :: e == events[0] || e in events[1..];
    }
  }

  // A granted worker keeps its symbol to the expiry it asked for, up to the skew: in any valid run
  // after the grant in which it neither releases nor renews, nobody takes the symbol over before
  // that, and the worker still holds it.
  lemma GrantLasts(w: World, e: Event, after: seq<Event>, skew: nat, symbol: string, clock: int)
    requires e.action.Acquire? || e.action.Renew?
    requires ValidEvent(w, e, skew) && SymbolOf(e) == symbol && Grantable(Find(w.leases, symbol), e.action)
    requires ValidRun(Step(w, e), after, skew) && Untouched(after, e.worker, symbol)
    requires ReadsWithin(Run(Step(w, e), after).now, clock, skew)
    requires Run(Step(w, e), after).now + skew < (if e.action.Acquire? then e.action.acquire.expiresAt else e.action.renew.expiresAt)
    ensures !TakenOver(Step(w, e), after, symbol)
    ensures Holds(Run(Step(w, e), after), e.worker, symbol, clock)
  {
    StepMeaning(w, e);
    var w' := Step(w, e);
    ClocksBeforeEnd(w', after, skew);
    RunKeepsLease(w', after, symbol);
  }

  // ---------- the total overlap is not bounded

  lemma {:induction false} RunAppend(w: World, events: seq<Event>, e: Event, skew: nat)
    ensures Run(w, events + [e]) == Step(Run(w, events), e)
    ensures ValidRun(w, events, skew) && ValidEvent(Run(w, events), e, skew) ==> ValidRun(w, events + [e], skew)
    decreases |events|
  {
    if events == [] {
      assert events + [e] == [e] && [e][1..] == [];
    } else {
      assert (events + [e])[1..] == events[1..] + [e];
      RunAppend(Step(w, events[0]), events[1..], e, skew);
    }
  }

  function TurnOf(n: nat): string { if n % 2 == 0 then "A" else "B" }

  // Two workers that take the symbol from each other every `skew` time units: each reads a clock
  // that is ahead when its turn comes, so that the other's lease looks expired.
  function Turns(skew: nat, n: nat): seq<Event> {
    if n == 0 then
      [Event(0, "B", 0, Acquire(AcquireRequest("B", "", 0, "S", 0, 0, skew))),
       Event(0, "A", skew, Acquire(AcquireRequest("A", "", 0, "S", 0, skew, 2 * skew)))]
    else
      var now := n * skew;
      Turns(skew, n - 1)
      + [Event(skew, TurnOf(n), now + skew, Acquire(AcquireRequest(TurnOf(n), "", 0, "S", 0, now + skew, now + 2 * skew)))]
  }

  // After turn n, the worker whose turn it was has a lease for 2 * skew, the other one for skew.
  ghost predicate AtTurn(w: World, skew: nat, n: nat) {
    && w.now == n * skew && "S" in w.leases && w.leases["S"].expiresAt == w.now + 2 * skew
    && (TurnOf(n), "S") in w.held && w.held[(TurnOf(n), "S")] == w.leases["S"]
    && (TurnOf(n + 1), "S") in w.held && w.held[(TurnOf(n + 1), "S")].expiresAt == w.now + skew
  }

  // The first turn: both acquire, the second on a clock that is ahead.
  lemma FirstTurn(skew: nat)
    ensures ValidRun(World(0, map[], map[], map[]), Turns(skew, 0), skew)
    ensures AtTurn(Run(World(0, map[], map[], map[]), Turns(skew, 0)), skew, 0)
  {
    var w, events := World(0, map[], map[], map[]), Turns(skew, 0);
    var w1 := Step(w, events[0]);
    assert w1.leases["S"].expiresAt == skew;
    var w2 := Step(w1, events[1]);
    assert AtTurn(w2, skew, 0) && ValidEvent(w, events[0], skew) && ValidEvent(w1, events[1], skew);
    assert events == [events[0], events[1]] && events[1..] == [events[1]] && events[1..][1..] == [];
    hide Step, ValidEvent, AtTurn;
    assert Run(w, events) == Run(w1, [events[1]]) == Run(w2, []) == w2;
    assert ValidRun(w2, [], skew) && ValidRun(w1, [events[1]], skew);
  }

  lemma {:induction false} TurnsAreValid(skew: nat, n: nat)
    ensures ValidRun(World(0, map[], map[], map[]), Turns(skew, n), skew)
    ensures AtTurn(Run(World(0, map[], map[], map[]), Turns(skew, n)), skew, n)
  {
    var w := World(0, map[], map[], map[]);
    if n == 0 {
      FirstTurn(skew);
    } else {
      hide Run, ValidRun, AtTurn, Step, ValidEvent;
      TurnsAreValid(skew, n - 1);
      var before := Run(w, Turns(skew, n - 1));
      var e := Turns(skew, n)[|Turns(skew, n - 1)|];
      assert n * skew == (n - 1) * skew + skew;
      RunAppend(w, Turns(skew, n - 1), e, skew);
      TurnStep(before, e, skew, n);
    }
  }

  lemma TurnStep(w: World, e: Event, skew: nat, n: nat)
    requires n > 0 && AtTurn(w, skew, n - 1) && n * skew == (n - 1) * skew + skew
    requires e == Event(skew, TurnOf(n), n * skew + skew,
                        Acquire(AcquireRequest(TurnOf(n), "", 0, "S", 0, n * skew + skew, n * skew + 2 * skew)))
    ensures ValidEvent(w, e, skew) && AtTurn(Step(w, e), skew, n)
  {
  }

  // No run time bounds the overlap: in these runs, each one continuing the one before, both
  // workers take themselves to hold the symbol at every instant from the start to the end of
  // turn n, on clocks that are within the skew.
  lemma OverlapIsUnbounded(skew: nat, n: nat, later: nat)
    requires 0 < skew && later <= skew
    ensures var start := World(0, map[], map[], map[]);
            var w := Run(start, Turns(skew, n));
            && Initial(start) && ValidRun(start, Turns(skew, n), skew) && Turns(skew, n) <= Turns(skew, n + 1)
            && w.now == n * skew
            && ReadsWithin(w.now + later, w.now + later - skew, skew)
            && Holds(w, "A", "S", w.now + later - skew) && Holds(w, "B", "S", w.now + later - skew)
  {
    TurnsAreValid(skew, n);
    assert {TurnOf(n), TurnOf(n + 1)} == {"A", "B"};
  }

  // ---------- the atomicity assumption is needed

  // acquire as the source issues it to a remote store: a read, then a separate write.
  function AcquireWithStaleRead(w: World, e: Event, seen: Option<Lease>): World
    requires e.action.Acquire?
  {
    var req := e.action.acquire;
    if AcquireReply(seen, req).granted then
      Grant(w, w.now + e.elapsed, e.worker, req.symbolKey, RequestedLease(req), true)
    else Idle(w, w.now + e.elapsed)
  }

  // If two workers both read before either writes, both hold the symbol, on one shared clock.
  lemma InterleavedAcquiresBothHold(w: World, a: Event, b: Event)
    requires Initial(w) && a.action.Acquire? && b.action.Acquire?
    requires ValidEvent(w, a, 0) && ValidEvent(w, b, 0) && a.elapsed == b.elapsed == 0
    requires a.worker != b.worker && a.action.acquire.symbolKey == b.action.acquire.symbolKey
    requires a.action.acquire.expiresAt > w.now && b.action.acquire.expiresAt > w.now
    requires a.action.acquire.symbolKey !in w.leases
    ensures var seen := Find(w.leases, a.action.acquire.symbolKey);
            var w' := AcquireWithStaleRead(AcquireWithStaleRead(w, a, seen), b, seen);
            && Holds(w', a.worker, a.action.acquire.symbolKey, w'.now)
            && Holds(w', b.worker, a.action.acquire.symbolKey, w'.now)
    ensures !Holds(Step(Step(w, a), b), b.worker, a.action.acquire.symbolKey, w.now)
  {
  }
}
