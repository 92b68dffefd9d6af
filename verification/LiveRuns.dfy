// Lease safety where it matters: on the flat store, with every other live operation interleaved.
module LiveRuns {
  import opened Common
  import opened Leases
  import opened Backend
  import opened LiveKeys

  datatype LiveStep = LeaseStep(event: Event) | OtherStep(elapsed: nat, op: Op)

  // The flat store, true time, what each worker was told, and the last takeover of each symbol.
  datatype LiveWorld = LiveWorld(
    now: int,
    store: Flat,
    held: map<(string, string), Lease>,
    takeover: map<string, int>
  )

  predicate IsLeaseOp(op: Op) { op.AcquireOp? || op.RenewOp? || op.ReleaseOp? }

  function OpOf(e: Event): Op {
    match e.action
    case Acquire(req) => AcquireOp(req)
    case Renew(req) => RenewOp(req)
    case Release(symbol) => ReleaseOp(symbol, e.worker)
  }

  function Advance(w: LiveWorld, prefix: string, step: LiveStep): LiveWorld {
    match step
    case OtherStep(elapsed, op) => w.(now := w.now + elapsed, store := FlatStep(w.store, prefix, op).0)
    case LeaseStep(e) =>
      var now := w.now + e.elapsed;
      var (store, reply) := FlatStep(w.store, prefix, OpOf(e));
      match e.action
      case Acquire(req) =>
        if reply.granted && reply.lease.Some? then
          LiveWorld(now, store, w.held[(e.worker, req.symbolKey) := reply.lease.value], w.takeover[req.symbolKey := now])
        else w.(now := now, store := store)
      case Renew(req) =>
        if reply.granted && reply.lease.Some? then
          LiveWorld(now, store, w.held[(e.worker, req.symbolKey) := reply.lease.value], w.takeover)
        else w.(now := now, store := store)
      case Release(symbol) => LiveWorld(now, store, w.held - {(e.worker, symbol)}, w.takeover)
  }

  function LiveRun(w: LiveWorld, prefix: string, steps: seq<LiveStep>): LiveWorld
    decreases |steps|
  {
    if steps == [] then w else LiveRun(Advance(w, prefix, steps[0]), prefix, steps[1..])
  }

  // Each worker stamps its requests with its own id and clock; the other steps are not lease steps.
  ghost predicate ValidSteps(w: LiveWorld, prefix: string, steps: seq<LiveStep>, skew: nat)
    decreases |steps|
  {
    steps != [] ==>
    && (match steps[0]
        case OtherStep(_, op) => !IsLeaseOp(op)
        case LeaseStep(e) => ValidEvent(Protocol(w, map[]), e, skew))
    && ValidSteps(Advance(w, prefix, steps[0]), prefix, steps[1..], skew)
  }

  // The lease protocol's view of the live world, given the typed leases its store encodes.
  function Protocol(w: LiveWorld, leases: LeaseMap): World { World(w.now, leases, w.held, w.takeover) }

  function TypedAfter(t: Typed, step: LiveStep): Typed {
    TypedStep(t, match step case OtherStep(_, op) => op case LeaseStep(e) => OpOf(e)).0
  }

  lemma AcquireMatches(w: LiveWorld, prefix: string, t: Typed, e: Event)
    requires e.action.Acquire? && FlatLease(w.store, prefix, SymbolOf(e)) == Find(t.leases, SymbolOf(e))
    ensures Protocol(Advance(w, prefix, LeaseStep(e)), TypedAfter(t, LeaseStep(e)).leases) == Step(Protocol(w, t.leases), e)
  {
    hide FlatLease, FlatGrant;
  }

  lemma RenewMatches(w: LiveWorld, prefix: string, t: Typed, e: Event)
    requires e.action.Renew? && FlatLease(w.store, prefix, SymbolOf(e)) == Find(t.leases, SymbolOf(e))
    ensures Protocol(Advance(w, prefix, LeaseStep(e)), TypedAfter(t, LeaseStep(e)).leases) == Step(Protocol(w, t.leases), e)
  {
    hide FlatLease, FlatGrant;
  }

  lemma ReleaseMatches(w: LiveWorld, prefix: string, t: Typed, e: Event)
    requires e.action.Release?
    ensures Protocol(Advance(w, prefix, LeaseStep(e)), TypedAfter(t, LeaseStep(e)).leases) == Step(Protocol(w, t.leases), e)
  {
    hide FlatRelease;
  }

  // On the flat store, a lease step is a step of the protocol.
  lemma LeaseStepMatches(w: LiveWorld, prefix: string, t: Typed, e: Event)
    requires FlatLease(w.store, prefix, SymbolOf(e)) == Find(t.leases, SymbolOf(e))
    ensures Protocol(Advance(w, prefix, LeaseStep(e)), TypedAfter(t, LeaseStep(e)).leases)
            == Step(Protocol(w, t.leases), e)
  {
    hide *;
    match e.action
    case Acquire(_) => AcquireMatches(w, prefix, t, e);
    case Renew(_) => RenewMatches(w, prefix, t, e);
    case Release(_) => ReleaseMatches(w, prefix, t, e);
  }

  // Any other step leaves the leases alone.
  lemma OtherStepMatches(w: LiveWorld, prefix: string, t: Typed, elapsed: nat, op: Op)
    requires !IsLeaseOp(op)
    ensures Protocol(Advance(w, prefix, OtherStep(elapsed, op)), TypedAfter(t, OtherStep(elapsed, op)).leases)
            == Idle(Protocol(w, t.leases), w.now + elapsed)
  {
  }

  lemma AdvanceInvariant(w: LiveWorld, prefix: string, t: Typed, step: LiveStep, skew: nat)
    requires Refines(w.store, prefix, t) && Invariant(Protocol(w, t.leases), skew)
    requires match step case OtherStep(_, op) => !IsLeaseOp(op)
                        case LeaseStep(e) => ValidEvent(Protocol(w, map[]), e, skew)
    ensures Invariant(Protocol(Advance(w, prefix, step), TypedAfter(t, step).leases), skew)
  {
    match step
    case OtherStep(elapsed, op) =>
      OtherStepMatches(w, prefix, t, elapsed, op);
      IdleInvariant(Protocol(w, t.leases), w.now + elapsed, skew);
    case LeaseStep(e) =>
      LeaseLookupsAgree(w.store, prefix, t, SymbolOf(e));
      LeaseStepMatches(w, prefix, t, e);
      StepInvariant(Protocol(w, t.leases), e, skew);
  }

  lemma AdvanceRefines(w: LiveWorld, prefix: string, t: Typed, step: LiveStep)
    requires Refines(w.store, prefix, t)
    ensures Refines(Advance(w, prefix, step).store, prefix, TypedAfter(t, step))
  {
    StepRefines(w.store, prefix, t, match step case OtherStep(_, op) => op case LeaseStep(e) => OpOf(e));
  }

  lemma {:induction false} LiveRunInvariant(w: LiveWorld, prefix: string, t: Typed, steps: seq<LiveStep>, skew: nat)
    returns (t': Typed)
    requires Refines(w.store, prefix, t) && Invariant(Protocol(w, t.leases), skew)
    requires ValidSteps(w, prefix, steps, skew)
    ensures Refines(LiveRun(w, prefix, steps).store, prefix, t')
    ensures Invariant(Protocol(LiveRun(w, prefix, steps), t'.leases), skew)
    decreases |steps|
  {
    if steps == [] {
      t' := t;
    } else {
      AdvanceInvariant(w, prefix, t, steps[0], skew);
      AdvanceRefines(w, prefix, t, steps[0]);
      t' := LiveRunInvariant(Advance(w, prefix, steps[0]), prefix, TypedAfter(t, steps[0]), steps[1..], skew);
    }
  }

  // Over any run of the live system on one flat store, whatever heartbeats, publishes and control
  // flags are interleaved, two workers both take themselves to hold a symbol only within
  // 2 * skew of its last takeover, and never when their clocks agree.
  lemma LiveLeasesAreExclusive(w: LiveWorld, prefix: string, t: Typed, steps: seq<LiveStep>, skew: nat,
                               a: string, b: string, symbol: string, clockA: int, clockB: int)
    requires Refines(w.store, prefix, t) && w.held == map[] && w.takeover == map[]
    requires ValidSteps(w, prefix, steps, skew)
    requires a != b
    requires var w' := LiveRun(w, prefix, steps);
             && ReadsWithin(w'.now, clockA, skew) && ReadsWithin(w'.now, clockB, skew)
             && Holds(Protocol(w', map[]), a, symbol, clockA) && Holds(Protocol(w', map[]), b, symbol, clockB)
    ensures skew > 0
    ensures var w' := LiveRun(w, prefix, steps);
            symbol in w'.takeover && w'.takeover[symbol] <= w'.now < w'.takeover[symbol] + 2 * skew
  {
    var t' := LiveRunInvariant(w, prefix, t, steps, skew);
    var p := Protocol(LiveRun(w, prefix, steps), t'.leases);
    assert p.held[(a, symbol)].workerId == a && p.held[(b, symbol)].workerId == b;
    assert Accounted(p, a, symbol, skew) && Accounted(p, b, symbol, skew);
  }

  // ---------- how long a superseded worker goes on

  // The step tells `worker` that it now holds `symbol`.
  predicate LiveGrants(w: LiveWorld, prefix: string, step: LiveStep, worker: string, symbol: string) {
    && step.LeaseStep? && step.event.worker == worker && SymbolOf(step.event) == symbol && !step.event.action.Release?
    && FlatStep(w.store, prefix, OpOf(step.event)).1.granted
  }

  predicate LiveGrantedAgain(w: LiveWorld, prefix: string, steps: seq<LiveStep>, worker: string, symbol: string)
    decreases |steps|
  {
    steps != [] && (LiveGrants(w, prefix, steps[0], worker, symbol)
                    || LiveGrantedAgain(Advance(w, prefix, steps[0]), prefix, steps[1..], worker, symbol))
  }

  lemma StepKeepsBelief(w: LiveWorld, prefix: string, step: LiveStep, worker: string, symbol: string)
    requires !LiveGrants(w, prefix, step, worker, symbol)
    ensures var w' := Advance(w, prefix, step);
            && w.now <= w'.now
            && ((worker, symbol) in w'.held ==> (worker, symbol) in w.held && w'.held[(worker, symbol)] == w.held[(worker, symbol)])
  {
    hide FlatStep;
  }

  lemma {:induction false} LiveBeliefKept(w: LiveWorld, prefix: string, steps: seq<LiveStep>, worker: string, symbol: string)
    requires !LiveGrantedAgain(w, prefix, steps, worker, symbol)
    ensures var w' := LiveRun(w, prefix, steps);
            && w.now <= w'.now
            && ((worker, symbol) in w'.held ==> (worker, symbol) in w.held && w'.held[(worker, symbol)] == w.held[(worker, symbol)])
    decreases |steps|
  {
    hide Advance, LiveGrants;
    if steps != [] {
      StepKeepsBelief(w, prefix, steps[0], worker, symbol);
      LiveBeliefKept(Advance(w, prefix, steps[0]), prefix, steps[1..], worker, symbol);
    }
  }

  // The live step takes `symbol` over for its worker.
  predicate LiveTakesOver(w: LiveWorld, prefix: string, e: Event, symbol: string) {
    && e.action.Acquire? && e.action.acquire.symbolKey == symbol
    && FlatStep(w.store, prefix, OpOf(e)).1.granted
  }

  // On the flat store, with any other live operation interleaved: a worker that lost a symbol to
  // another one's acquire at t0 takes itself to hold it only before t0 + 2 * skew, until it is
  // granted the symbol again.
  lemma SupersededLiveWorkerStops(w: LiveWorld, prefix: string, t: Typed, before: seq<LiveStep>, e: Event,
                                  after: seq<LiveStep>, skew: nat, worker: string, symbol: string, clock: int)
    requires Refines(w.store, prefix, t) && w.held == map[] && w.takeover == map[]
    requires ValidSteps(w, prefix, before, skew)
    requires var v := LiveRun(w, prefix, before);
             && ValidEvent(Protocol(v, map[]), e, skew) && LiveTakesOver(v, prefix, e, symbol) && e.worker != worker
             && !LiveGrantedAgain(Advance(v, prefix, LeaseStep(e)), prefix, after, worker, symbol)
    requires var w' := LiveRun(Advance(LiveRun(w, prefix, before), prefix, LeaseStep(e)), prefix, after);
             && ReadsWithin(w'.now, clock, skew) && Holds(Protocol(w', map[]), worker, symbol, clock)
    ensures LiveRun(Advance(LiveRun(w, prefix, before), prefix, LeaseStep(e)), prefix, after).now
            < LiveRun(w, prefix, before).now + e.elapsed + 2 * skew
  {
    var v := LiveRun(w, prefix, before);
    var t' := LiveRunInvariant(w, prefix, t, before, skew);
    LiveTakeoverExpires(v, prefix, t', e, skew, worker, symbol);
    LiveBeliefKept(Advance(v, prefix, LeaseStep(e)), prefix, after, worker, symbol);
    StepKeepsBelief(v, prefix, LeaseStep(e), worker, symbol);
  }

  lemma LiveTakeoverExpires(w: LiveWorld, prefix: string, t: Typed, e: Event, skew: nat, worker: string, symbol: string)
    requires Refines(w.store, prefix, t) && Invariant(Protocol(w, t.leases), skew)
    requires ValidEvent(Protocol(w, map[]), e, skew) && LiveTakesOver(w, prefix, e, symbol)
    ensures (worker, symbol) in w.held ==> w.held[(worker, symbol)].expiresAt <= w.now + e.elapsed + skew
  {
    LeaseLookupsAgree(w.store, prefix, t, symbol);
    if (worker, symbol) in w.held {
      TakeoverExpiresBelief(Protocol(w, t.leases), e, skew, worker, symbol);
    }
  }

  // ---------- what a lease call stores, and how long it stands, on the flat store

  lemma LiveStepMeaning(w: LiveWorld, prefix: string, t: Typed, e: Event)
    requires Refines(w.store, prefix, t)
    ensures var w', symbol := Advance(w, prefix, LeaseStep(e)), SymbolOf(e);
            var stored, stored' := FlatLease(w.store, prefix, symbol), FlatLease(w'.store, prefix, symbol);
            && (forall s | s != symbol :: FlatLease(w'.store, prefix, s) == FlatLease(w.store, prefix, s))
            && match e.action
               case Release(_) =>
                 && (e.worker, symbol) !in w'.held
                 && stored' == (if stored.Some? && stored.value.workerId == e.worker then None else stored)
               case _ =>
                 if Grantable(stored, e.action) then
                   && stored'.Some? && IsGranted(stored, e.action, stored'.value)
                   && (e.worker, symbol) in w'.held && w'.held[(e.worker, symbol)] == stored'.value
                 else stored' == stored && w'.held == w.held
  {
    var t' := TypedAfter(t, LeaseStep(e));
    forall s
      ensures FlatLease(w.store, prefix, s) == Find(t.leases, s)
      ensures FlatLease(Advance(w, prefix, LeaseStep(e)).store, prefix, s) == Find(t'.leases, s)
    {
      LeaseLookupsAgree(w.store, prefix, t, s);
      AdvanceRefines(w, prefix, t, LeaseStep(e));
      LeaseLookupsAgree(Advance(w, prefix, LeaseStep(e)).store, prefix, t', s);
    }
    LeaseStepMatches(w, prefix, t, e);
    StepMeaning(Protocol(w, t.leases), e);
    hide Advance, TypedAfter, Step, FlatLease, IsGranted, Grantable;
  }

  predicate LiveUntouched(steps: seq<LiveStep>, worker: string, symbol: string) {
    forall s | s in steps :: s.LeaseStep? ==> !Touches(s.event, worker, symbol)
  }

  predicate LiveTakenOver(w: LiveWorld, prefix: string, steps: seq<LiveStep>, symbol: string)
    decreases |steps|
  {
    steps != [] && ((steps[0].LeaseStep? && LiveTakesOver(w, prefix, steps[0].event, symbol))
                    || LiveTakenOver(Advance(w, prefix, steps[0]), prefix, steps[1..], symbol))
  }

  predicate StepStampedBefore(step: LiveStep, symbol: string, expiry: int) {
    step.LeaseStep? && step.event.action.Acquire? && step.event.action.acquire.symbolKey == symbol ==>
      step.event.action.acquire.leasedAt < expiry
  }

  // One step of the live system leaves a lease that its worker neither releases nor renews.
  lemma LiveLeaseStands(w: LiveWorld, prefix: string, t: Typed, step: LiveStep, lease: Lease, symbol: string)
    requires Refines(w.store, prefix, t) && FlatLease(w.store, prefix, symbol) == Some(lease)
    requires step.LeaseStep? ==> !Touches(step.event, lease.workerId, symbol)
    requires step.OtherStep? ==> !IsLeaseOp(step.op)
    requires StepStampedBefore(step, symbol, lease.expiresAt)
    ensures FlatLease(Advance(w, prefix, step).store, prefix, symbol) == Some(lease)
    ensures step.LeaseStep? ==> !LiveTakesOver(w, prefix, step.event, symbol)
    ensures var k := (lease.workerId, symbol);
            k in w.held ==> k in Advance(w, prefix, step).held && Advance(w, prefix, step).held[k] == w.held[k]
  {
    LeaseLookupsAgree(w.store, prefix, t, symbol);
    AdvanceRefines(w, prefix, t, step);
    LeaseLookupsAgree(Advance(w, prefix, step).store, prefix, TypedAfter(t, step), symbol);
    match step
    case OtherStep(elapsed, op) =>
      OtherStepMatches(w, prefix, t, elapsed, op);
    case LeaseStep(e) =>
      LeaseLookupsAgree(w.store, prefix, t, SymbolOf(e));
      LeaseStepMatches(w, prefix, t, e);
      LeaseStands(Protocol(w, t.leases), e, symbol);
      hide Advance, TypedAfter, Step, Refines;
  }

  lemma {:induction false} LiveRunKeepsLease(w: LiveWorld, prefix: string, t: Typed, steps: seq<LiveStep>, skew: nat,
                                             lease: Lease, symbol: string)
    requires Refines(w.store, prefix, t) && FlatLease(w.store, prefix, symbol) == Some(lease)
    requires ValidSteps(w, prefix, steps, skew) && LiveUntouched(steps, lease.workerId, symbol)
    requires LiveRun(w, prefix, steps).now + skew < lease.expiresAt
    ensures !LiveTakenOver(w, prefix, steps, symbol)
    ensures FlatLease(LiveRun(w, prefix, steps).store, prefix, symbol) == Some(lease)
    ensures var k := (lease.workerId, symbol);
            k in w.held ==> k in LiveRun(w, prefix, steps).held && LiveRun(w, prefix, steps).held[k] == w.held[k]
    decreases |steps|
  {
    if steps != [] {
      assert steps[0] in steps && forall s | s in steps[1..] :: s in steps;
      LiveTimeMovesOn(Advance(w, prefix, steps[0]), prefix, steps[1..]);
      StepTime(w, prefix, steps[0]);
      hide Advance, FlatLease, Touches;
      LiveLeaseStands(w, prefix, t, steps[0], lease, symbol);
      AdvanceRefines(w, prefix, t, steps[0]);
      LiveRunKeepsLease(Advance(w, prefix, steps[0]), prefix, TypedAfter(t, steps[0]), steps[1..], skew, lease, symbol);
    }
  }

  lemma StepTime(w: LiveWorld, prefix: string, step: LiveStep)
    ensures Advance(w, prefix, step).now == w.now + if step.LeaseStep? then step.event.elapsed else step.elapsed
  {
    hide FlatStep;
  }

  lemma {:induction false} LiveTimeMovesOn(w: LiveWorld, prefix: string, steps: seq<LiveStep>)
    ensures w.now <= LiveRun(w, prefix, steps).now
    decreases |steps|
  {
    if steps != [] {
      StepTime(w, prefix, steps[0]);
      hide Advance;
      LiveTimeMovesOn(Advance(w, prefix, steps[0]), prefix, steps[1..]);
    }
  }

  // On the flat store, with any other live operation interleaved: after a granted acquire or
  // renewal, and until its expiry less the skew, nobody takes the symbol over and its worker still
  // holds it, as long as the worker neither releases nor renews.
  lemma LiveGrantLasts(w: LiveWorld, prefix: string, t: Typed, e: Event, after: seq<LiveStep>, skew: nat, clock: int)
    requires Refines(w.store, prefix, t) && (e.action.Acquire? || e.action.Renew?)
    requires ValidEvent(Protocol(w, map[]), e, skew) && Grantable(FlatLease(w.store, prefix, SymbolOf(e)), e.action)
    requires var w' := Advance(w, prefix, LeaseStep(e));
             && ValidSteps(w', prefix, after, skew) && LiveUntouched(after, e.worker, SymbolOf(e))
             && ReadsWithin(LiveRun(w', prefix, after).now, clock, skew)
             && LiveRun(w', prefix, after).now + skew < (if e.action.Acquire? then e.action.acquire.expiresAt else e.action.renew.expiresAt)
    ensures !LiveTakenOver(Advance(w, prefix, LeaseStep(e)), prefix, after, SymbolOf(e))
    ensures Holds(Protocol(LiveRun(Advance(w, prefix, LeaseStep(e)), prefix, after), map[]), e.worker, SymbolOf(e), clock)
  {
    LiveStepMeaning(w, prefix, t, e);
    AdvanceRefines(w, prefix, t, LeaseStep(e));
    var w' := Advance(w, prefix, LeaseStep(e));
    hide Advance;
    LiveRunKeepsLease(w', prefix, TypedAfter(t, LeaseStep(e)), after, skew, FlatLease(w'.store, prefix, SymbolOf(e)).value, SymbolOf(e));
  }
}
