// live/executor.py: the bar-by-bar executor as a step machine against a broker. The strategy core
// is an oracle; the broker fills every accepted order before the executor's next call. Bar times
// are whole seconds, so an order's timestamp text is its bar time.
module Executor {
  import opened Common
  import opened Ordering

  datatype Bar = Bar(ts: int, close: real, isComplete: bool)

  datatype Position = Position(
    isOpen: bool,
    size: real,
    entryPrice: Option<real>,
    entryBarIndex: Option<int>,
    entryTime: Option<int>,
    barsHeld: int
  )

  const FLAT := Position(false, 0.0, None, None, None, 0)

  // core is what the strategy core's dump_state returns.
  datatype Snapshot = Snapshot(lastBar: Option<int>, position: Position, core: string)

  const NEW_SNAPSHOT := Snapshot(None, FLAT, "")

  datatype Action = Hold | Buy | Close | Trim

  datatype Decision = Decision(action: Action, size: Option<real>, portion: Option<real>)

  datatype Context = Context(bars: seq<Bar>, benchmark: Option<seq<Bar>>, position: Position)

  // on_bar, with the core's state before and after.
  type Core = (Context, string) -> (Decision, string)

  datatype OrderId = OrderId(action: Action, ts: int)

  datatype Order = Order(buy: bool, qty: real, id: OrderId)

  datatype Status = Accepted | Rejected | Canceled | Expired

  // What the outside world supplies to one call: the bars, the reply to an order if there is one,
  // and the average entry price the broker reports after a fill.
  datatype Tick = Tick(bars: seq<Bar>, benchmark: Option<seq<Bar>>, status: Status, fillPrice: real)

  function OrZero(x: Option<real>): real { if x.Some? then x.value else 0.0 }

  // ---------- the pieces of process_latest_bar

  function Complete(bars: seq<Bar>): seq<Bar> {
    if bars == [] then [] else Complete(bars[..|bars| - 1]) + if bars[|bars| - 1].isComplete then [bars[|bars| - 1]] else []
  }

  // _sync_position_from_broker
  function Synced(p: Position, qty: real, avg: real): Position {
    if qty == 0.0 then FLAT else Position(true, qty, Some(avg), p.entryBarIndex, p.entryTime, p.barsHeld)
  }

  function IndexOfTime(bars: seq<Bar>, ts: int, from: nat): Option<int>
    requires from <= |bars|
    decreases |bars| - from
  {
    if from == |bars| then None else if bars[from].ts == ts then Some(from) else IndexOfTime(bars, ts, from + 1)
  }

  // _position_for_history
  function PositionForHistory(p: Position, bars: seq<Bar>): Position {
    if !p.isOpen then FLAT
    else
      var index := if p.entryBarIndex.None? && p.entryTime.Some? then IndexOfTime(bars, p.entryTime.value, 0) else p.entryBarIndex;
      p.(entryBarIndex := index, barsHeld := if index.None? then 0 else Max(0, |bars| - 1 - index.value))
  }

  // A trim sells a portion of the position, a close all of it.
  function SellQty(d: Decision, p: Position): real {
    if d.action == Trim then AbsR(p.size) * OrZero(d.portion) else AbsR(p.size)
  }

  // The order a decision asks for, if any.
  function OrderFor(d: Decision, p: Position, ts: int): Option<Order> {
    if d.action == Buy && !p.isOpen then Some(Order(true, OrZero(d.size), OrderId(Buy, ts)))
    else if (d.action == Close || d.action == Trim) && p.isOpen then
      Some(Order(false, SellQty(d, p), OrderId(d.action, ts)))
    else None
  }

  function Signed(o: Order): real { if o.buy then o.qty else -o.qty }

  // ---------- the world: broker, saved file, executor, and logs of what happened

  datatype World = World(
    qty: real,
    avg: real,
    accepted: seq<Order>,
    submitted: seq<Order>,
    saved: Option<Snapshot>,
    snapshot: Snapshot,
    core: string,
    seen: set<OrderId>,
    processed: seq<int>
  )

  // The constructor: load the saved snapshot, remember the open orders, sync with the broker.
  function Load(saved: Option<Snapshot>, qty: real, avg: real): Snapshot {
    var s := if saved.Some? then saved.value else NEW_SNAPSHOT;
    s.(position := Synced(s.position, qty, avg))
  }

  function Start(saved: Option<Snapshot>, qty: real, avg: real, open: set<OrderId>): World {
    var s := Load(saved, qty, avg);
    World(qty, avg, [], [], saved, s, s.core, open, [])
  }

  // A new process over the same broker and saved file: filled orders are no longer open.
  function Restart(w: World): World {
    var s := Load(w.saved, w.qty, w.avg);
    w.(snapshot := s, core := s.core, seen := {})
  }

  function Submit(w: World, o: Order, t: Tick): World {
    if t.status == Accepted then
      w.(qty := w.qty + Signed(o), avg := t.fillPrice, accepted := w.accepted + [o], submitted := w.submitted + [o],
         seen := w.seen + {o.id})
    else w.(submitted := w.submitted + [o])
  }

  predicate HasNewBar(w: World, t: Tick) {
    t.bars != [] && t.bars[|t.bars| - 1].isComplete && w.snapshot.lastBar != Some(t.bars[|t.bars| - 1].ts)
  }

  function Process(core: Core, w: World, t: Tick): World {
    if !HasNewBar(w, t) then w
    else
      var bars, ts := Complete(t.bars), t.bars[|t.bars| - 1].ts;
      var position := PositionForHistory(Synced(w.snapshot.position, w.qty, w.avg), bars);
      var (decision, core') := core(Context(bars, t.benchmark, position), w.core);
      var order := OrderFor(decision, position, ts);
      var w' := if order.Some? && order.value.id !in w.seen then Submit(w, order.value, t) else w;
      var s := Snapshot(Some(ts), position, core');
      w'.(saved := Some(s), snapshot := s, core := core', processed := w.processed + [ts])
  }

  // The event a call reports when the broker turns its order down.
  datatype ExecutionEvent = OrderRejected(ts: int, status: Status, isBuy: bool, size: real, price: real, value: real, id: OrderId)

  function Rejection(o: Order, t: Tick): ExecutionEvent
    requires t.bars != []
  {
    var latest := t.bars[|t.bars| - 1];
    OrderRejected(latest.ts, t.status, o.buy, o.qty, latest.close, o.qty * latest.close, o.id)
  }

  // ---------- the executor, as the source's object

  class Broker {
    var qty: real
    var avg: real
    var accepted: seq<Order>
    ghost var submitted: seq<Order>

    constructor (qty: real, avg: real)
      ensures this.qty == qty && this.avg == avg && accepted == [] && submitted == []
    {
      this.qty := qty;
      this.avg := avg;
      accepted := [];
      submitted := [];
    }

    // None when there is no position or its quantity is zero.
    method GetPosition() returns (p: Option<(real, real)>)
      ensures p == if qty == 0.0 then None else Some((qty, avg))
    {
      p := if qty == 0.0 then None else Some((qty, avg));
    }

    method SubmitMarketOrder(o: Order, status: Status, fillPrice: real) returns (reply: Status)
      modifies this
      ensures reply == status && submitted == old(submitted) + [o]
      ensures if status == Accepted then qty == old(qty) + Signed(o) && avg == fillPrice && accepted == old(accepted) + [o]
              else qty == old(qty) && avg == old(avg) && accepted == old(accepted)
    {
      submitted := submitted + [o];
      if status == Accepted {
        qty := qty + Signed(o);
        avg := fillPrice;
        accepted := accepted + [o];
      }
      reply := status;
    }
  }

  // The saved snapshot file of each run id.
  class RuntimeStateStore {
    var files: map<string, Snapshot>

    constructor ()
      ensures files == map[]
    {
      files := map[];
    }

    method Load(runId: string) returns (s: Snapshot)
      ensures s == if runId in files then files[runId] else NEW_SNAPSHOT
    {
      s := if runId in files then files[runId] else NEW_SNAPSHOT;
    }

    method Save(runId: string, s: Snapshot)
      modifies this
      ensures files == old(files)[runId := s]
    {
      files := files[runId := s];
    }
  }

  class AlpacaStrategyExecutor {
    const runId: string
    const core: Core
    const broker: Broker
    const store: RuntimeStateStore
    var snapshot: Snapshot
    var coreState: string
    var seen: set<OrderId>
    ghost var processed: seq<int>

    ghost function View(): World
      reads this, broker, store
    {
      World(broker.qty, broker.avg, broker.accepted, broker.submitted,
            if runId in store.files then Some(store.files[runId]) else None, snapshot, coreState, seen, processed)
    }

    constructor (runId: string, core: Core, broker: Broker, store: RuntimeStateStore, open: set<OrderId>)
      requires broker.accepted == broker.submitted == []
      ensures this.runId == runId && this.core == core && this.broker == broker && this.store == store
      ensures View() == Start(if runId in store.files then Some(store.files[runId]) else None, broker.qty, broker.avg, open)
    {
      this.runId, this.core, this.broker, this.store := runId, core, broker, store;
      var s := store.Load(runId);
      snapshot, coreState, seen, processed := s, s.core, open, [];
      new;
      SyncPositionFromBroker();
    }

    method SyncPositionFromBroker()
      modifies this`snapshot
      ensures snapshot == Snapshot(old(snapshot).lastBar, Synced(old(snapshot).position, broker.qty, broker.avg), coreState)
    {
      var live := broker.GetPosition();
      if live.None? {
        snapshot := Snapshot(snapshot.lastBar, FLAT, coreState);
      } else {
        var current := snapshot.position;
        snapshot := Snapshot(snapshot.lastBar,
                             Position(true, live.value.0, Some(live.value.1), current.entryBarIndex, current.entryTime, current.barsHeld),
                             coreState);
      }
    }

    // Submit unless the id was seen; remember the id unless the broker turns the order down.
    method PlaceOrder(o: Order, t: Tick) returns (events: seq<ExecutionEvent>)
      requires t.bars != []
      modifies broker, this`seen
      ensures events == if o.id !in old(seen) && t.status != Accepted then [Rejection(o, t)] else []
      ensures if o.id !in old(seen) && t.status == Accepted then
                && broker.qty == old(broker.qty) + Signed(o) && broker.avg == t.fillPrice
                && broker.accepted == old(broker.accepted) + [o] && seen == old(seen) + {o.id}
              else
                broker.qty == old(broker.qty) && broker.avg == old(broker.avg)
                && broker.accepted == old(broker.accepted) && seen == old(seen)
      ensures broker.submitted == old(broker.submitted) + if o.id in old(seen) then [] else [o]
    {
      events := [];
      if o.id !in seen {
        var reply := broker.SubmitMarketOrder(o, t.status, t.fillPrice);
        if reply == Accepted {
          seen := seen + {o.id};
        } else {
          events := [Rejection(o, t)];
        }
      }
    }

    method ProcessLatestBar(t: Tick) returns (events: seq<ExecutionEvent>)
      modifies this, broker, store
      ensures View() == Process(core, old(View()), t)
      ensures events == var placed := Placed(core, old(View()), t);
                        if placed.Some? && t.status != Accepted then [Rejection(placed.value, t)] else []
      ensures forall id | id != runId :: (id in store.files <==> id in old(store.files))
                                         && (id in store.files ==> store.files[id] == old(store.files)[id])
    {
      hide Rejection;
      events := [];
      if t.bars == [] || !t.bars[|t.bars| - 1].isComplete {
        return;
      }
      var bars, ts := Complete(t.bars), t.bars[|t.bars| - 1].ts;
      if snapshot.lastBar == Some(ts) {
        return;
      }
      SyncPositionFromBroker();
      var position := PositionForHistory(snapshot.position, bars);
      var (decision, after) := core(Context(bars, t.benchmark, position), coreState);
      coreState := after;
      if decision.action == Buy && !position.isOpen {
        events := PlaceOrder(Order(true, OrZero(decision.size), OrderId(Buy, ts)), t);
      } else if (decision.action == Close || decision.action == Trim) && position.isOpen {
        events := PlaceOrder(Order(false, SellQty(decision, position), OrderId(decision.action, ts)), t);
      }
      snapshot := Snapshot(Some(ts), position, coreState);
      processed := processed + [ts];
      store.Save(runId, snapshot);
    }
  }

  // ---------- whole runs

  datatype Step = Call(tick: Tick) | NewProcess

  function Advance(core: Core, w: World, step: Step): World {
    match step
    case Call(t) => Process(core, w, t)
    case NewProcess => Restart(w)
  }

  function Run(core: Core, w: World, steps: seq<Step>): World
    decreases |steps|
  {
    if steps == [] then w else Run(core, Advance(core, w, steps[0]), steps[1..])
  }

  // The bar source never goes back in time.
  predicate InOrder(w: World, step: Step) {
    step.Call? && HasNewBar(w, step.tick) && w.snapshot.lastBar.Some? ==>
      w.snapshot.lastBar.value <= step.tick.bars[|step.tick.bars| - 1].ts
  }

  predicate OrderlyRun(core: Core, w: World, steps: seq<Step>)
    decreases |steps|
  {
    steps != [] ==> InOrder(w, steps[0]) && OrderlyRun(core, Advance(core, w, steps[0]), steps[1..])
  }

  // Decisions carry no negative size, and portions between nothing and everything.
  ghost predicate SoundCore(core: Core) {
    forall c, s :: var d := core(c, s).0; OrZero(d.size) >= 0.0 && 0.0 <= OrZero(d.portion) <= 1.0
  }

  function Net(orders: seq<Order>): real {
    if orders == [] then 0.0 else Net(orders[..|orders| - 1]) + Signed(orders[|orders| - 1])
  }

  // Bars, accepted orders and the saved file are in step with the last processed bar.
  ghost predicate Timeline(w: World) {
    Advancing(w.processed, w.accepted, w.snapshot.lastBar) && w.snapshot.lastBar == SavedBar(w.saved)
  }

  ghost predicate Advancing(bars: seq<int>, orders: seq<Order>, last: Option<int>) {
    && (forall i, j | 0 <= i < j < |bars| :: bars[i] < bars[j])
    && (forall i, j | 0 <= i < j < |orders| :: orders[i].id.ts < orders[j].id.ts)
    && (forall i | 0 <= i < |bars| :: last.Some? && bars[i] <= last.value)
    && (forall i | 0 <= i < |orders| :: last.Some? && orders[i].id.ts <= last.value)
  }

  function SavedBar(saved: Option<Snapshot>): Option<int> { if saved.Some? then saved.value.lastBar else None }

  // The broker's quantity is accounted for by the accepted orders.
  ghost predicate Ledger(w: World, initialQty: real) {
    && (forall i | 0 <= i < |w.accepted| :: w.accepted[i].qty >= 0.0)
    && w.qty == initialQty + Net(w.accepted) && w.qty >= 0.0
  }

  lemma OrderIsCovered(d: Decision, p: Position, bars: seq<Bar>, qty: real, avg: real, ts: int)
    requires qty >= 0.0 && OrZero(d.size) >= 0.0 && 0.0 <= OrZero(d.portion) <= 1.0
    requires OrderFor(d, PositionForHistory(Synced(p, qty, avg), bars), ts).Some?
    ensures var o := OrderFor(d, PositionForHistory(Synced(p, qty, avg), bars), ts).value;
            o.id.ts == ts && o.qty >= 0.0 && qty + Signed(o) >= 0.0
  {
    var p' := PositionForHistory(Synced(p, qty, avg), bars);
    assert p'.isOpen ==> AbsR(p'.size) == qty;
    if p'.isOpen && d.action == Trim {
      var full, portion := AbsR(p'.size), OrZero(d.portion);
      PortionOf(full, portion);
      assert SellQty(d, p') == full * portion;
    }
  }

  lemma PortionOf(qty: real, portion: real)
    requires qty >= 0.0 && 0.0 <= portion <= 1.0
    ensures 0.0 <= qty * portion <= qty
  {
  }

  lemma NetAppend(orders: seq<Order>, o: Order)
    ensures Net(orders + [o]) == Net(orders) + Signed(o)
  {
  }

  // The order one call submits, if it submits one: never for an id it has seen.
  function Placed(core: Core, w: World, t: Tick): Option<Order> {
    if !HasNewBar(w, t) then None
    else
      var bars, ts := Complete(t.bars), t.bars[|t.bars| - 1].ts;
      var position := PositionForHistory(Synced(w.snapshot.position, w.qty, w.avg), bars);
      var order := OrderFor(core(Context(bars, t.benchmark, position), w.core).0, position, ts);
      if order.Some? && order.value.id !in w.seen then order else None
  }

  // A call submits at most one order, and only an accepted one reaches the ledger.
  lemma ProcessEffects(core: Core, w: World, t: Tick)
    ensures var w', placed := Process(core, w, t), Placed(core, w, t);
            && w'.submitted == w.submitted + (if placed.Some? then [placed.value] else [])
            && w'.accepted == w.accepted + (if placed.Some? && t.status == Accepted then [placed.value] else [])
            && w'.qty == w.qty + (if placed.Some? && t.status == Accepted then Signed(placed.value) else 0.0)
            && w'.processed == w.processed + (if HasNewBar(w, t) then [t.bars[|t.bars| - 1].ts] else [])
            && w'.snapshot.lastBar == (if HasNewBar(w, t) then Some(t.bars[|t.bars| - 1].ts) else w.snapshot.lastBar)
            && (HasNewBar(w, t) ==> w'.saved == Some(w'.snapshot))
            && (!HasNewBar(w, t) ==> w'.saved == w.saved)
    ensures Placed(core, w, t).Some? ==> Placed(core, w, t).value.id.ts == t.bars[|t.bars| - 1].ts
  {
  }

  lemma PlacedIsCovered(core: Core, w: World, t: Tick)
    requires SoundCore(core) && w.qty >= 0.0 && Placed(core, w, t).Some?
    ensures Placed(core, w, t).value.qty >= 0.0 && w.qty + Signed(Placed(core, w, t).value) >= 0.0
  {
    var bars, ts := Complete(t.bars), t.bars[|t.bars| - 1].ts;
    var position := PositionForHistory(Synced(w.snapshot.position, w.qty, w.avg), bars);
    OrderIsCovered(core(Context(bars, t.benchmark, position), w.core).0, w.snapshot.position, bars, w.qty, w.avg, ts);
  }

  // ---------- what a decision does to the broker's quantity

  // The complete bars of a list, in their order: those at the listed positions.
  ghost predicate AreComplete(bars: seq<Bar>, all: seq<Bar>) { exists at: seq<nat> :: ListsComplete(at, bars, all) }

  ghost predicate ListsComplete(at: seq<nat>, bars: seq<Bar>, all: seq<Bar>) {
    && |at| == |bars| && (forall i, j | 0 <= i < j < |at| :: at[i] < at[j])
    && (forall i | 0 <= i < |at| :: at[i] < |all| && bars[i] == all[at[i]])
    && forall k | 0 <= k < |all| :: all[k].isComplete <==> k in at
  }

  lemma OneBarMore(at: seq<nat>, bars: seq<Bar>, all: seq<Bar>, b: Bar)
    requires ListsComplete(at, bars, all)
    ensures if b.isComplete then ListsComplete(at + [|all|], bars + [b], all + [b]) else ListsComplete(at, bars, all + [b])
  {
    var all' := all + [b];
    forall k | 0 <= k < |all|
      ensures all'[k] == all[k] && (k in at + [|all|] <==> k in at)
    {
    }
    forall i | 0 <= i < |at|
      ensures at[i] < |all| && bars[i] == all'[at[i]]
    {
    }
    assert (at + [|all|])[|at|] == |all|;
  }

  lemma {:induction false} CompleteMeaning(all: seq<Bar>) returns (at: seq<nat>)
    ensures ListsComplete(at, Complete(all), all)
  {
    if all == [] {
      at := [];
    } else {
      var n := |all| - 1;
      assert all == all[..n] + [all[n]];
      at := CompleteMeaning(all[..n]);
      OneBarMore(at, Complete(all[..n]), all[..n], all[n]);
      hide ListsComplete;
      if all[n].isComplete {
        at := at + [n];
      } else {
        assert Complete(all[..n]) + [] == Complete(all[..n]);
      }
    }
  }

  // The first of the bars with a time.
  lemma {:induction false} IndexOfTimeMeaning(bars: seq<Bar>, ts: int, from: nat)
    requires from <= |bars|
    ensures var index := IndexOfTime(bars, ts, from);
            if index.Some? then
              from <= index.value < |bars| && bars[index.value].ts == ts && forall k | from <= k < index.value :: bars[k].ts != ts
            else forall k | from <= k < |bars| :: bars[k].ts != ts
    decreases |bars| - from
  {
    if from < |bars| && bars[from].ts != ts {
      IndexOfTimeMeaning(bars, ts, from + 1);
    }
  }

  // The position a core is shown: flat, or what the broker holds, with the bars since its entry.
  ghost predicate ShowsPosition(p: Position, w: World, bars: seq<Bar>) {
    if w.qty == 0.0 then p == FLAT
    else
      && p.isOpen && p.size == w.qty && p.entryPrice == Some(w.avg) && p.entryTime == w.snapshot.position.entryTime
      && p.barsHeld == (if p.entryBarIndex.None? || p.entryBarIndex.value >= |bars| then 0 else |bars| - 1 - p.entryBarIndex.value)
      && (w.snapshot.position.entryBarIndex.Some? ==> p.entryBarIndex == w.snapshot.position.entryBarIndex)
      && (w.snapshot.position.entryBarIndex.None? && p.entryBarIndex.Some? ==>
            && 0 <= p.entryBarIndex.value < |bars| && Some(bars[p.entryBarIndex.value].ts) == p.entryTime
            && forall k | 0 <= k < p.entryBarIndex.value :: Some(bars[k].ts) != p.entryTime)
      && (w.snapshot.position.entryBarIndex.None? && p.entryBarIndex.None? && p.entryTime.Some? ==>
            forall k | 0 <= k < |bars| :: Some(bars[k].ts) != p.entryTime)
  }

  // The order a decision calls for at quantity `qty`: buys only when flat, sells only when not.
  ghost predicate CallsFor(d: Decision, qty: real, o: Order) {
    match d.action
    case Hold => false
    case Buy => qty == 0.0 && o.buy && o.qty == OrZero(d.size)
    case Close => qty != 0.0 && !o.buy && o.qty == AbsR(qty)
    case Trim => qty != 0.0 && !o.buy && o.qty == OrZero(d.portion) * AbsR(qty)
  }

  // The core sees the complete bars, the benchmark, and the broker's position.
  ghost predicate Sees(c: Context, w: World, t: Tick) {
    AreComplete(c.bars, t.bars) && c.benchmark == t.benchmark && ShowsPosition(c.position, w, c.bars)
  }

  function Shown(w: World, t: Tick): Context {
    Context(Complete(t.bars), t.benchmark, PositionForHistory(Synced(w.snapshot.position, w.qty, w.avg), Complete(t.bars)))
  }

  lemma ContextMeaning(w: World, t: Tick)
    ensures Sees(Shown(w, t), w, t)
  {
    var at := CompleteMeaning(t.bars);
    PositionShown(w, Complete(t.bars));
    hide Complete, PositionForHistory, Synced, ShowsPosition;
  }

  // What a call with a new bar does: the core sees the complete bars and the broker's position; its
  // decision becomes one order of that bar unless its id is remembered; and what the core and the
  // position then are is saved. Without a new bar a call does nothing.
  lemma CallMeaning(core: Core, w: World, t: Tick) returns (c: Context, order: Option<Order>)
    ensures var w' := Process(core, w, t);
            && (!HasNewBar(w, t) ==> w' == w)
            && (HasNewBar(w, t) ==>
                  var ts := t.bars[|t.bars| - 1].ts;
                  && Sees(c, w, t) && Orders(core(c, w.core).0, w, ts, order)
                  && w'.core == core(c, w.core).1 && w'.snapshot == Snapshot(Some(ts), c.position, w'.core)
                  && w'.saved == Some(w'.snapshot) && w'.processed == w.processed + [ts]
                  && w'.submitted == w.submitted + (if order.Some? then [order.value] else [])
                  && w'.accepted == w.accepted + (if order.Some? && t.status == Accepted then [order.value] else [])
                  && w'.seen == w.seen + (if order.Some? && t.status == Accepted then {order.value.id} else {})
                  && w'.avg == (if order.Some? && t.status == Accepted then t.fillPrice else w.avg))
  {
    c := Shown(w, t);
    order := Placed(core, w, t);
    if HasNewBar(w, t) {
      ContextMeaning(w, t);
      hide Sees;
      OrderMeaning(core(c, w.core).0, w, t);
      hide Complete, PositionForHistory, Synced, OrderFor, Orders;
    }
  }

  // The decision's order, unless its id is remembered or it does not suit the position.
  ghost predicate Orders(d: Decision, w: World, ts: int, order: Option<Order>) {
    match order
    case Some(o) => o.id == OrderId(d.action, ts) && o.id !in w.seen && CallsFor(d, w.qty, o)
    case None => OrderId(d.action, ts) in w.seen || forall o :: !CallsFor(d, w.qty, o)
  }

  lemma OrderMeaning(d: Decision, w: World, t: Tick)
    requires t.bars != []
    ensures var ts := t.bars[|t.bars| - 1].ts;
            var order := OrderFor(d, Shown(w, t).position, ts);
            Orders(d, w, ts, if order.Some? && order.value.id !in w.seen then order else None)
  {
    hide Complete;
  }

  lemma PositionShown(w: World, bars: seq<Bar>)
    ensures ShowsPosition(PositionForHistory(Synced(w.snapshot.position, w.qty, w.avg), bars), w, bars)
  {
    var p := w.snapshot.position;
    if p.entryTime.Some? {
      IndexOfTimeMeaning(bars, p.entryTime.value, 0);
    }
  }

  // The broker's quantity after a call whose decision is d and whose order is accepted under an id
  // not seen before: a buy from flat leaves its size, a close of a long position leaves nothing, a
  // trim leaves the rest. A close of a short position sells its absolute size and doubles it.
  lemma DecisionEffect(core: Core, w: World, t: Tick) returns (c: Context)
    requires HasNewBar(w, t)
    ensures Sees(c, w, t)
    ensures var d, q, q' := core(c, w.core).0, w.qty, Process(core, w, t).qty;
            var fills := t.status == Accepted && OrderId(d.action, t.bars[|t.bars| - 1].ts) !in w.seen;
            match d.action
            case Hold => q' == q
            case Buy => q' == if fills && q == 0.0 then OrZero(d.size) else q
            case Close => q' == if fills then (if q >= 0.0 then 0.0 else 2.0 * q) else q
            case Trim => q' == if fills then (if q >= 0.0 then q - OrZero(d.portion) * q else q + OrZero(d.portion) * q) else q
  {
    var order: Option<Order>;
    c, order := CallMeaning(core, w, t);
    ProcessEffects(core, w, t);
    PlacedIsOrder(core, w, t, order);
    hide Process, Placed, Sees;
    var d := core(c, w.core).0;
    assert d.action == Hold || (d.action == Buy && w.qty != 0.0) ==> order.None?;
    if order.None? && OrderId(d.action, t.bars[|t.bars| - 1].ts) !in w.seen {
      WantsSome(d, w.qty);
    }
  }

  // A decision that suits the position calls for some order.
  lemma WantsSome(d: Decision, qty: real)
    requires forall o :: !CallsFor(d, qty, o)
    ensures d.action == Hold || (d.action == Buy && qty != 0.0) || (d.action != Buy && qty == 0.0)
  {
    var id := OrderId(d.action, 0);
    assert !CallsFor(d, qty, Order(true, OrZero(d.size), id));
    assert !CallsFor(d, qty, Order(false, AbsR(qty), id));
    assert !CallsFor(d, qty, Order(false, OrZero(d.portion) * AbsR(qty), id));
  }

  lemma PlacedIsOrder(core: Core, w: World, t: Tick, order: Option<Order>)
    requires HasNewBar(w, t)
    requires Process(core, w, t).submitted == w.submitted + if order.Some? then [order.value] else []
    ensures Placed(core, w, t) == order
  {
    ProcessEffects(core, w, t);
    hide Process;
    var placed := Placed(core, w, t);
    hide Placed;
    var n := |w.submitted|;
    assert placed.Some? ==> Process(core, w, t).submitted[n] == placed.value;
    assert order.Some? ==> Process(core, w, t).submitted[n] == order.value;
    assert |Process(core, w, t).submitted| == n + (if placed.Some? then 1 else 0);
  }

  lemma ProcessLedger(core: Core, w: World, t: Tick, initialQty: real)
    requires SoundCore(core) && Ledger(w, initialQty)
    ensures Ledger(Process(core, w, t), initialQty)
  {
    ProcessEffects(core, w, t);
    if Placed(core, w, t).Some? {
      PlacedIsCovered(core, w, t);
      NetAppend(w.accepted, Placed(core, w, t).value);
    }
  }

  lemma ProcessTimeline(core: Core, w: World, t: Tick)
    requires Timeline(w) && InOrder(w, Call(t))
    ensures Timeline(Process(core, w, t))
  {
    ProcessEffects(core, w, t);
  }

  lemma RestartTimeline(w: World, initialQty: real)
    requires Timeline(w) && Ledger(w, initialQty)
    ensures Timeline(Restart(w)) && Ledger(Restart(w), initialQty)
  {
    assert Restart(w).snapshot.lastBar == w.snapshot.lastBar;
  }

  // In time order, bars and accepted orders strictly advance, over restarts and all.
  lemma {:induction false} RunSafe(core: Core, w: World, steps: seq<Step>, initialQty: real)
    requires SoundCore(core) && Timeline(w) && Ledger(w, initialQty) && OrderlyRun(core, w, steps)
    ensures Timeline(Run(core, w, steps)) && Ledger(Run(core, w, steps), initialQty)
    decreases |steps|
  {
    hide Process, Restart, Timeline, Ledger;
    if steps != [] {
      if steps[0].Call? {
        ProcessTimeline(core, w, steps[0].tick);
        ProcessLedger(core, w, steps[0].tick, initialQty);
      } else {
        RestartTimeline(w, initialQty);
      }
      RunSafe(core, Advance(core, w, steps[0]), steps[1..], initialQty);
    }
  }

  // ---------- which bars are handled, for bar times in any order

  function AsSeq(last: Option<int>): seq<int> { if last.Some? then [last.value] else [] }

  // The times of the latest complete bars that the calls of a run are given.
  function TimeOf(step: Step): Option<int> {
    if step.Call? && step.tick.bars != [] && step.tick.bars[|step.tick.bars| - 1].isComplete
    then Some(step.tick.bars[|step.tick.bars| - 1].ts) else None
  }

  function Times(steps: seq<Step>): seq<int> {
    if steps == [] then [] else AsSeq(TimeOf(steps[0])) + Times(steps[1..])
  }

  // Immediate repeats, of `last` to begin with, are dropped.
  function Squeeze(last: Option<int>, times: seq<int>): seq<int>
    decreases |times|
  {
    if times == [] then []
    else if last == Some(times[0]) then Squeeze(last, times[1..])
    else [times[0]] + Squeeze(Some(times[0]), times[1..])
  }

  // The bars handled are exactly the squeezed input times, restarts included.
  lemma {:induction false} ProcessedIsSqueezed(core: Core, w: World, steps: seq<Step>)
    requires w.snapshot.lastBar == SavedBar(w.saved)
    ensures Run(core, w, steps).processed == w.processed + Squeeze(w.snapshot.lastBar, Times(steps))
    decreases |steps|
  {
    if steps != [] {
      var next := Advance(core, w, steps[0]);
      if steps[0].Call? {
        ProcessEffects(core, w, steps[0].tick);
      }
      ProcessedIsSqueezed(core, next, steps[1..]);
      SqueezeOne(w.snapshot.lastBar, TimeOf(steps[0]), Times(steps[1..]));
    }
  }

  lemma SqueezeOne(last: Option<int>, first: Option<int>, rest: seq<int>)
    ensures Squeeze(last, AsSeq(first) + rest)
            == if first.None? || last == first then Squeeze(last, rest) else AsSeq(first) + Squeeze(first, rest)
  {
    if first.None? {
      assert AsSeq(first) + rest == rest;
    } else {
      assert (AsSeq(first) + rest)[1..] == rest;
    }
  }

  // A bar time does not come back once a different one has come.
  predicate NeverReturns(times: seq<int>) {
    forall i, j, k | 0 <= i < j < k < |times| && times[i] == times[k] :: times[j] == times[i]
  }

  lemma {:induction false} SqueezeMembers(last: Option<int>, times: seq<int>)
    ensures forall t :: t in AsSeq(last) + Squeeze(last, times) <==> t in AsSeq(last) + times
    decreases |times|
  {
    if times != [] {
      var next := if last == Some(times[0]) then last else Some(times[0]);
      SqueezeMembers(next, times[1..]);
      assert times == [times[0]] + times[1..];
      forall t
        ensures t in AsSeq(last) + Squeeze(last, times) <==> t in AsSeq(last) + times
      {
        assert t in AsSeq(next) + Squeeze(next, times[1..]) <==> t in AsSeq(next) + times[1..];
      }
    }
  }

  lemma NeverReturnsFrom(x: int, y: int, rest: seq<int>)
    ensures x == y ==> (NeverReturns([x, y] + rest) <==> NeverReturns([y] + rest))
    ensures x != y ==> (NeverReturns([x, y] + rest) <==> x !in [y] + rest && NeverReturns([y] + rest))
  {
    var long, short := [x, y] + rest, [y] + rest;
    assert forall i | 0 <= i < |short| :: short[i] == long[i + 1];
    if NeverReturns(long) {
      forall i, j, k | 0 <= i < j < k < |short| && short[i] == short[k]
        ensures short[j] == short[i]
      {
        assert long[i + 1] == long[k + 1];
      }
      forall k | 0 <= k < |short|
        ensures short[k] == x ==> x == y
      {
        assert k > 0 && long[k + 1] == long[0] ==> long[1] == long[0];
      }
    }
    if NeverReturns(short) && (x == y || x !in short) {
      forall i, j, k | 0 <= i < j < k < |long| && long[i] == long[k]
        ensures long[j] == long[i]
      {
        assert long[k] == short[k - 1] && long[j] == short[j - 1];
        if i == 0 {
          assert short[k - 1] in short;
          assert j > 1 ==> short[0] == short[k - 1];
        } else {
          assert long[i] == short[i - 1];
        }
      }
    }
  }

  lemma ShortLists(xs: seq<int>)
    requires |xs| <= 1
    ensures NoRepeats(xs) && NeverReturns(xs)
  {
  }

  // No bar time is kept twice exactly when none comes back.
  lemma {:induction false} SqueezedOnceIff(last: Option<int>, times: seq<int>)
    ensures NoRepeats(AsSeq(last) + Squeeze(last, times)) <==> NeverReturns(AsSeq(last) + times)
    decreases |times|
  {
    hide NoRepeats, NeverReturns;
    if times == [] {
      ShortLists(AsSeq(last));
      assert AsSeq(last) + [] == AsSeq(last);
    } else {
      var y, rest := times[0], times[1..];
      assert times == [y] + rest;
      SqueezedOnceIff(Some(y), rest);
      if last.Some? {
        var x := last.value;
        assert AsSeq(last) + times == [x, y] + rest;
        NeverReturnsFrom(x, y, rest);
        if x != y {
          SqueezeMembers(Some(y), rest);
          var tail := [y] + Squeeze(Some(y), rest);
          assert AsSeq(last) + Squeeze(last, times) == [x] + tail;
          NoRepeatsFrom(x, tail);
          assert x in tail <==> x in [y] + rest;
        }
      } else {
        assert AsSeq(last) + times == [y] + rest;
        assert AsSeq(last) + Squeeze(last, times) == [y] + Squeeze(Some(y), rest);
      }
    }
  }

  // Over any run, restarts included, and counting the bar of the saved snapshot: no bar is
  // handled twice if and only if no bar time comes back once a different one has come.
  lemma BarsHandledOnceIff(core: Core, saved: Option<Snapshot>, qty: real, avg: real, open: set<OrderId>, steps: seq<Step>)
    ensures NoRepeats(AsSeq(SavedBar(saved)) + Run(core, Start(saved, qty, avg, open), steps).processed)
            <==> NeverReturns(AsSeq(SavedBar(saved)) + Times(steps))
  {
    var start := Start(saved, qty, avg, open);
    ProcessedIsSqueezed(core, start, steps);
    assert start.processed + Squeeze(SavedBar(saved), Times(steps)) == Squeeze(SavedBar(saved), Times(steps));
    SqueezedOnceIff(SavedBar(saved), Times(steps));
  }

  predicate NeverGoesBack(times: seq<int>) { forall i, j | 0 <= i < j < |times| :: times[i] <= times[j] }

  lemma GoesForward(last: Option<int>, first: Option<int>, rest: seq<int>)
    requires NeverGoesBack(AsSeq(if first.Some? then first else last) + rest)
    requires last.Some? && first.Some? ==> last.value <= first.value
    ensures NeverGoesBack(AsSeq(last) + (AsSeq(first) + rest))
  {
    var times, tail := AsSeq(last) + (AsSeq(first) + rest), AsSeq(if first.Some? then first else last) + rest;
    if last.None? || first.None? {
      assert times == tail;
    } else {
      assert tail[0] == first.value && times[0] == last.value;
      assert forall i | 0 < i < |times| :: times[i] == tail[i - 1];
    }
  }

  // Bar times that never go back never come back.
  lemma {:induction false} TimeOrderSuffices(core: Core, w: World, steps: seq<Step>)
    requires OrderlyRun(core, w, steps) && w.snapshot.lastBar == SavedBar(w.saved)
    ensures NeverGoesBack(AsSeq(w.snapshot.lastBar) + Times(steps))
    decreases |steps|
  {
    if steps != [] {
      hide Process, NeverGoesBack, AsSeq;
      var next := Advance(core, w, steps[0]);
      if steps[0].Call? {
        ProcessEffects(core, w, steps[0].tick);
      }
      TimeOrderSuffices(core, next, steps[1..]);
      GoesForward(w.snapshot.lastBar, TimeOf(steps[0]), Times(steps[1..]));
    }
  }

  // ---------- safety

  // Accepted orders belong to handled bars, at most one to each.
  ghost predicate OneOrderPerBar(w: World) {
    && (forall i | 0 <= i < |w.accepted| :: w.accepted[i].id.ts in w.processed)
    && (NoRepeats(w.processed) ==> forall i, j | 0 <= i < j < |w.accepted| :: w.accepted[i].id.ts != w.accepted[j].id.ts)
  }

  lemma ProcessKeepsOneOrder(core: Core, w: World, t: Tick)
    requires OneOrderPerBar(w)
    ensures OneOrderPerBar(Process(core, w, t))
  {
    ProcessEffects(core, w, t);
    hide Process;
    var w' := Process(core, w, t);
    if HasNewBar(w, t) {
      var ts := t.bars[|t.bars| - 1].ts;
      assert w'.processed == w.processed + [ts];
      NoRepeatsUpTo(w.processed, ts);
      forall i | 0 <= i < |w'.accepted|
        ensures w'.accepted[i].id.ts in w'.processed
        ensures if i < |w.accepted| then w'.accepted[i] == w.accepted[i] else i == |w.accepted| && w'.accepted[i].id.ts == ts
      {
      }
      if NoRepeats(w'.processed) {
        forall i, j | 0 <= i < j < |w'.accepted|
          ensures w'.accepted[i].id.ts != w'.accepted[j].id.ts
        {
          assert w'.accepted[i] == w.accepted[i] && w.accepted[i].id.ts in w.processed;
          assert j < |w.accepted| ==> w'.accepted[j] == w.accepted[j];
        }
      }
    } else {
      assert w'.accepted == w.accepted && w'.processed == w.processed;
    }
  }

  lemma {:induction false} RunLedger(core: Core, w: World, steps: seq<Step>, initialQty: real)
    requires SoundCore(core) && Ledger(w, initialQty) && OneOrderPerBar(w)
    ensures Ledger(Run(core, w, steps), initialQty) && OneOrderPerBar(Run(core, w, steps))
    decreases |steps|
  {
    if steps != [] {
      if steps[0].Call? {
        ProcessLedger(core, w, steps[0].tick, initialQty);
        ProcessKeepsOneOrder(core, w, steps[0].tick);
      }
      RunLedger(core, Advance(core, w, steps[0]), steps[1..], initialQty);
    }
  }

  // Executor safety, over whole runs with restarts anywhere: every accepted quantity is
  // non-negative, and the broker's position is the initial one plus accepted buys minus accepted
  // sells, and never negative. When no bar time comes back, no bar is handled twice and no order
  // id is accepted twice.
  lemma ExecutorSafety(core: Core, saved: Option<Snapshot>, qty: real, avg: real, open: set<OrderId>, steps: seq<Step>)
    requires SoundCore(core) && qty >= 0.0
    ensures var w := Run(core, Start(saved, qty, avg, open), steps);
            && (forall i | 0 <= i < |w.accepted| :: w.accepted[i].qty >= 0.0)
            && w.qty == qty + Net(w.accepted) && w.qty >= 0.0
            && (NeverReturns(AsSeq(SavedBar(saved)) + Times(steps)) ==>
                  NoRepeats(w.processed) && forall i, j | 0 <= i < j < |w.accepted| :: w.accepted[i].id != w.accepted[j].id)
  {
    RunLedger(core, Start(saved, qty, avg, open), steps, qty);
    BarsHandledOnceIff(core, saved, qty, avg, open, steps);
    var w := Run(core, Start(saved, qty, avg, open), steps);
    if SavedBar(saved).Some? {
      NoRepeatsFrom(SavedBar(saved).value, w.processed);
    } else {
      assert [] + w.processed == w.processed;
    }
  }

  // Every accepted id is remembered, and none was accepted twice.
  ghost predicate IdsRemembered(w: World) {
    && (forall i | 0 <= i < |w.accepted| :: w.accepted[i].id in w.seen)
    && (forall i, j | 0 <= i < j < |w.accepted| :: w.accepted[i].id != w.accepted[j].id)
  }

  // Within one process the remembered ids alone rule out a second order of one id, in whatever
  // order the bars come.
  lemma {:induction false} IdsAcceptedOnce(core: Core, w: World, steps: seq<Step>)
    requires IdsRemembered(w) && forall i | 0 <= i < |steps| :: steps[i].Call?
    ensures IdsRemembered(Run(core, w, steps))
    decreases |steps|
  {
    if steps != [] {
      IdsStayRemembered(core, w, steps[0].tick);
      IdsAcceptedOnce(core, Process(core, w, steps[0].tick), steps[1..]);
    }
  }

  lemma IdsStayRemembered(core: Core, w: World, t: Tick)
    requires IdsRemembered(w)
    ensures IdsRemembered(Process(core, w, t))
  {
    var w' := Process(core, w, t);
    assert forall i | 0 <= i < |w.accepted| :: w'.accepted[i] == w.accepted[i];
  }

  // ---------- restarts are invisible

  function Calls(steps: seq<Step>): seq<Step> {
    if steps == [] then [] else (if steps[0].Call? then [steps[0]] else []) + Calls(steps[1..])
  }

  // Two worlds an observer of the broker and the saved file cannot tell apart, now or later.
  ghost predicate Alike(a: World, b: World) {
    && a.qty == b.qty && a.avg == b.avg && a.accepted == b.accepted && a.submitted == b.submitted
    && a.saved == b.saved && a.processed == b.processed && a.core == b.core
    && a.snapshot.lastBar == b.snapshot.lastBar
    && Synced(a.snapshot.position, a.qty, a.avg) == Synced(b.snapshot.position, b.qty, b.avg)
    && Recalls(a) && Recalls(b)
  }

  // The executor remembers no order of a bar later than its last one, and its file is up to date.
  ghost predicate Recalls(w: World) {
    && (forall id | id in w.seen :: w.snapshot.lastBar.Some? && id.ts <= w.snapshot.lastBar.value)
    && var s := if w.saved.Some? then w.saved.value else NEW_SNAPSHOT;
       s.lastBar == w.snapshot.lastBar && s.core == w.core
       && Synced(s.position, w.qty, w.avg) == Synced(w.snapshot.position, w.qty, w.avg)
  }

  lemma SyncTwice(p: Position, qty: real, avg: real)
    ensures Synced(Synced(p, qty, avg), qty, avg) == Synced(p, qty, avg)
  {
  }

  lemma RestartAlike(a: World, b: World)
    requires Alike(a, b)
    ensures Alike(Restart(a), b)
  {
  }

  lemma ProcessAlike(core: Core, a: World, b: World, t: Tick)
    requires Alike(a, b) && InOrder(a, Call(t))
    ensures Alike(Process(core, a, t), Process(core, b, t))
  {
    if HasNewBar(a, t) {
      var ts := t.bars[|t.bars| - 1].ts;
      assert forall id | id in a.seen || id in b.seen :: id.ts < ts;
    }
  }

  lemma {:induction false} RunsAlike(core: Core, a: World, b: World, steps: seq<Step>)
    requires Alike(a, b) && OrderlyRun(core, a, steps)
    ensures Alike(Run(core, a, steps), Run(core, b, Calls(steps)))
    decreases |steps|
  {
    if steps != [] {
      if steps[0].Call? {
        ProcessAlike(core, a, b, steps[0].tick);
        assert Calls(steps)[1..] == Calls(steps[1..]);
        RunsAlike(core, Advance(core, a, steps[0]), Advance(core, b, steps[0]), steps[1..]);
      } else {
        RestartAlike(a, b);
        assert Calls(steps) == Calls(steps[1..]);
        RunsAlike(core, Restart(a), b, steps[1..]);
      }
    }
  }

  // Restarting the process at any points between calls changes nothing the broker ever sees: the
  // orders, their replies and the position are those of the run without restarts.
  lemma RestartsAreInvisible(core: Core, saved: Option<Snapshot>, qty: real, avg: real, steps: seq<Step>)
    requires OrderlyRun(core, Start(saved, qty, avg, {}), steps)
    ensures var start := Start(saved, qty, avg, {});
            var a, b := Run(core, start, steps), Run(core, start, Calls(steps));
            a.submitted == b.submitted && a.accepted == b.accepted && a.qty == b.qty && a.saved == b.saved && a.processed == b.processed
  {
    var start := Start(saved, qty, avg, {});
    var s := if saved.Some? then saved.value else NEW_SNAPSHOT;
    SyncTwice(s.position, qty, avg);
    RunsAlike(core, start, start, steps);
  }

  // The order of bar times is needed: the last-bar check compares for equality only, so a bar that
  // comes back after an older one is processed again.
  lemma UnorderedBarsRepeat(core: Core, w: World, t: Tick, older: Tick)
    requires HasNewBar(w, t)
    requires older.bars != [] && older.bars[|older.bars| - 1].isComplete && older.bars[|older.bars| - 1].ts < t.bars[|t.bars| - 1].ts
    ensures var w' := Run(core, w, [Call(t), Call(older), Call(t)]);
            |w'.processed| == |w.processed| + 3 && w'.processed[|w.processed|] == w'.processed[|w.processed| + 2]
  {
    var w1 := Process(core, w, t);
    var w2 := Process(core, w1, older);
    assert [Call(t), Call(older), Call(t)][1..] == [Call(older), Call(t)] && [Call(older), Call(t)][1..] == [Call(t)]
           && [Call(t)][1..] == [];
    assert Run(core, w, [Call(t), Call(older), Call(t)]) == Run(core, w1, [Call(older), Call(t)]) == Run(core, w2, [Call(t)])
           == Run(core, Process(core, w2, t), []);
  }
}
