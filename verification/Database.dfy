/** The order store: what the maker signed and the status sit in one table, everything
    that changes at run time in a second one, and the settlement events in a third.
    Each method is one transaction, or one statement inside its caller's. */
module Database {
  import opened Options
  import opened Listing
  import opened Orders

  datatype OrderRow = OrderRow(definition: Definition, status: Status)

  datatype Runtime = Runtime(
    statusReason: Reason, lastBlockReason: Reason,
    submittedTx: TxHash, executedTx: TxHash, cancelledTx: TxHash,
    settledAmountOut: nat, settledExecutorFee: nat,
    lastCheckedBlock: nat, lastExecutionCheckAt: nat)

  /** What an order without a runtime row reads as. */
  const ZERO_RUNTIME := Runtime(NoReason, NoReason, NO_TX, NO_TX, NO_TX, 0, 0, 0, 0)

  function Join(row: OrderRow, runtime: Runtime): Order {
    Order(row.definition, row.status, runtime.statusReason, runtime.lastBlockReason,
      runtime.submittedTx, runtime.executedTx, runtime.cancelledTx,
      runtime.settledAmountOut, runtime.settledExecutorFee,
      runtime.lastCheckedBlock, runtime.lastExecutionCheckAt)
  }

  /** The order as creation stores it: a check time that is not set becomes the update time. */
  function Stored(o: Order, updatedAt: nat): Order {
    if o.lastExecutionCheckAt == 0 then o.(lastExecutionCheckAt := updatedAt) else o
  }

  function RuntimeSnapshot(o: Order, updatedAt: nat): Runtime {
    Runtime(o.statusReason, o.lastBlockReason, o.submittedTx, o.executedTx, o.cancelledTx,
      o.settledAmountOut, o.settledExecutorFee, o.lastCheckedBlock,
      if o.lastExecutionCheckAt != 0 then o.lastExecutionCheckAt else updatedAt)
  }

  /** The part of an update map that belongs to the runtime table. */
  predicate UpdatesRuntime(p: Patch) {
    p != Patch(status := p.status)
  }

  function OverrideRuntime(r: Runtime, p: Patch): Runtime {
    Runtime(p.statusReason.GetOr(r.statusReason), p.lastBlockReason.GetOr(r.lastBlockReason),
      p.submittedTx.GetOr(r.submittedTx), p.executedTx.GetOr(r.executedTx),
      p.cancelledTx.GetOr(r.cancelledTx), p.settledAmountOut.GetOr(r.settledAmountOut),
      p.settledExecutorFee.GetOr(r.settledExecutorFee),
      p.lastCheckedBlock.GetOr(r.lastCheckedBlock),
      p.lastExecutionCheckAt.GetOr(r.lastExecutionCheckAt))
  }

  /** What a claim writes. */
  function ClaimPatch(at: nat): Patch {
    Patch(status := Some(SubmittingExecute), statusReason := Some(ClaimedForSubmission),
      lastBlockReason := Some(NoReason), submittedTx := Some(NO_TX), lastExecutionCheckAt := Some(at))
  }

  /** Both tables of orders read as one. */
  function Joined(orderRows: map<OrderId, OrderRow>, runtimes: map<OrderId, Runtime>): map<OrderId, Order> {
    map id | id in orderRows :: Join(orderRows[id], if id in runtimes then runtimes[id] else ZERO_RUNTIME)
  }

  datatype ListedOrder = ListedOrder(id: OrderId, order: Order)

  class Database {
    var orderRows: map<OrderId, OrderRow>
    var runtimes: map<OrderId, Runtime>
    var events: map<EventKey, Event>

    function Flat(): map<OrderId, Order>
      reads this
    {
      Joined(orderRows, runtimes)
    }

    function Snapshot(): Db
      reads this
    {
      Db(Flat(), events)
    }

    /** Every order has its runtime row, as creation and the migration leave it. */
    predicate Complete()
      reads this
    {
      orderRows.Keys <= runtimes.Keys
    }

    predicate Valid()
      reads this
    {
      Complete() && WellKeyed(events)
    }

    constructor ()
      ensures Snapshot() == Db(map[], map[]) && Valid()
    {
      orderRows, runtimes, events := map[], map[], map[];
    }

    /** `updatedAt` is the order's own update time, zero when it is not set. */
    method Create(id: OrderId, o: Order, updatedAt: nat, now: nat) returns (created: bool)
      modifies this
      ensures created == (id !in old(Flat()))
      ensures Flat() == if created then old(Flat())[id := Stored(o, if updatedAt == 0 then now else updatedAt)] else old(Flat())
      ensures events == old(events)
      ensures old(Complete()) ==> Complete()
    {
      created := id !in orderRows;
      if created {
        orderRows := orderRows[id := OrderRow(o.definition, o.status)];
        runtimes := runtimes[id := RuntimeSnapshot(o, if updatedAt == 0 then now else updatedAt)];
      }
    }

    method GetByOrderHash(id: OrderId) returns (r: Option<Order>)
      ensures r == if id in Flat() then Some(Flat()[id]) else None
      ensures id in orderRows && id !in runtimes ==> r == Some(Order(orderRows[id].definition, orderRows[id].status,
        NoReason, NoReason, NO_TX, NO_TX, NO_TX, 0, 0, 0, 0))
    {
      if id !in orderRows { return None; }
      var runtime := ZERO_RUNTIME;
      if id in runtimes { runtime := runtimes[id]; }
      r := Some(Join(orderRows[id], runtime));
    }

    /** Updates the runtime row, creating it with defaults when it is not there. */
    method UpdateByOrderID(id: OrderId, p: Patch, now: nat)
      modifies this`runtimes
      ensures runtimes == old(runtimes)[id :=
        OverrideRuntime(if id in old(runtimes) then old(runtimes)[id] else ZERO_RUNTIME.(lastExecutionCheckAt := now), p)]
    {
      if id in runtimes {
        runtimes := runtimes[id := OverrideRuntime(runtimes[id], p)];
        return;
      }
      runtimes := runtimes[id := ZERO_RUNTIME.(lastExecutionCheckAt := now)];
      runtimes := runtimes[id := OverrideRuntime(runtimes[id], p)];
    }

    /** The flat row an update starts from. */
    function Seed(id: OrderId, p: Patch, now: nat): Order
      requires id in orderRows
      reads this
    {
      if id in runtimes || !UpdatesRuntime(p) then Flat()[id]
      else Flat()[id].(lastExecutionCheckAt := now)
    }

    method UpdateFields(id: OrderId, p: Patch, now: nat) returns (found: bool)
      modifies this`orderRows, this`runtimes
      ensures found == (id in old(Flat()))
      ensures Flat() == if found then old(Flat())[id := Override(old(Seed(id, p, now)), p)] else old(Flat())
      ensures p == Patch(status := p.status) ==> runtimes == old(runtimes)
      ensures old(Complete()) ==> Complete()
    {
      found := id in orderRows;
      if found {
        if p.status.Some? { orderRows := orderRows[id := orderRows[id].(status := p.status.value)]; }
        if UpdatesRuntime(p) { UpdateByOrderID(id, p, now); }
      }
    }

    /** Compare-and-set on the status: both tables change, or neither does. */
    method UpdateFieldsIfStatusIn(id: OrderId, allowed: set<Status>, p: Patch, now: nat) returns (updated: bool)
      modifies this`orderRows, this`runtimes
      ensures updated == (id in old(Flat()) && old(Flat())[id].status in allowed)
      ensures Flat() == if updated then old(Flat())[id := Override(old(Seed(id, p, now)), p)] else old(Flat())
      ensures !updated ==> orderRows == old(orderRows) && runtimes == old(runtimes)
      ensures old(Complete()) ==> Complete()
    {
      updated := id in orderRows && orderRows[id].status in allowed;
      if updated { var _ := UpdateFields(id, p, now); }
    }

    /** Takes an open order for one executor. */
    method ClaimOpenOrderForExecution(id: OrderId, at: nat) returns (claimed: bool)
      modifies this`orderRows, this`runtimes
      ensures claimed == (id in old(Flat()) && old(Flat())[id].status == Open)
      ensures Flat() == if claimed then old(Flat())[id := Override(old(Flat())[id], ClaimPatch(at))] else old(Flat())
      ensures claimed ==> Flat()[id] == old(Flat())[id].(status := SubmittingExecute, statusReason := ClaimedForSubmission,
        lastBlockReason := NoReason, submittedTx := NO_TX, lastExecutionCheckAt := at)
      ensures old(Complete()) ==> Complete()
    {
      claimed := id in orderRows && orderRows[id].status == Open;
      if claimed {
        orderRows := orderRows[id := orderRows[id].(status := SubmittingExecute)];
        UpdateByOrderID(id, ClaimPatch(at), at);
      }
    }

    /** Inserts an event row; the unique key refuses a second one. */
    method CreateEvent(e: Event) returns (created: bool)
      modifies this`events
      ensures created == (e.Key() !in old(events))
      ensures events == if created then old(events)[e.Key() := e] else old(events)
    {
      created := e.Key() !in events;
      if created { events := events[e.Key() := e]; }
    }

    method DeleteByTxHashAndLogIndex(key: EventKey) returns (deleted: bool)
      modifies this`events
      ensures deleted == (key in old(events))
      ensures events == old(events) - {key}
    {
      deleted := key in events;
      events := events - {key};
    }

    method ListByOrderHash(id: OrderId) returns (q: seq<Event>)
      requires WellKeyed(events)
      ensures IsListing(q, ExecutedEvents(events, id), (a, b) => Earlier(a, b))
      ensures Latest(ExecutedEvents(events, id)) == (if q == [] then None else Some(q[|q| - 1]))
    {
      q := ListEvents(ExecutedEvents(events, id));
    }

    method ListByMakerAndNonce(maker: Address, nonce: Numeral) returns (q: seq<Event>)
      requires WellKeyed(events)
      ensures IsListing(q, NonceEvents(events, maker, nonce), (a, b) => Earlier(a, b))
      ensures Latest(NonceEvents(events, maker, nonce)) == (if q == [] then None else Some(q[|q| - 1]))
    {
      q := ListEvents(NonceEvents(events, maker, nonce));
    }

    function SharingNonce(maker: Address, nonce: Numeral): set<OrderId>
      reads this
    {
      set id | id in orderRows && orderRows[id].definition.maker == maker && orderRows[id].definition.nonce == nonce
    }

    /** In no particular order, each order once. */
    method ListOrdersByMakerAndNonce(maker: Address, nonce: Numeral) returns (q: seq<ListedOrder>)
      ensures Ids(q) == SharingNonce(maker, nonce) && DistinctIds(q)
      ensures forall x :: x in q ==> x.id in Flat() && x.order == Flat()[x.id]
    {
      q := [];
      var rest := SharingNonce(maker, nonce);
      while rest != {}
        invariant rest <= SharingNonce(maker, nonce)
        invariant Ids(q) == SharingNonce(maker, nonce) - rest && DistinctIds(q)
        invariant forall x :: x in q ==> x.id in Flat() && x.order == Flat()[x.id]
        decreases rest
      {
        var id :| id in rest;
        AppendId(q, ListedOrder(id, Flat()[id]));
        q := q + [ListedOrder(id, Flat()[id])];
        rest := rest - {id};
      }
    }
  }

  ghost function Ids(q: seq<ListedOrder>): set<OrderId> {
    set x | x in q :: x.id
  }

  ghost predicate DistinctIds(q: seq<ListedOrder>) {
    forall i, j :: 0 <= i < j < |q| ==> q[i].id != q[j].id
  }

  lemma AppendId(q: seq<ListedOrder>, x: ListedOrder)
    ensures Ids(q + [x]) == Ids(q) + {x.id}
    ensures DistinctIds(q) && x.id !in Ids(q) ==> DistinctIds(q + [x])
  {
    assert forall y :: y in q + [x] <==> y in q || y == x;
    assert forall i :: 0 <= i < |q| ==> q[i] in q && q[i].id in Ids(q);
    forall k | k in Ids(q) + {x.id} ensures k in Ids(q + [x]) {
      if k in Ids(q) {
        var y :| y in q && y.id == k;
        assert y in q + [x];
      } else { assert x in q + [x]; }
    }
  }

  /** The rows in log order. */
  method ListEvents(es: set<Event>) returns (q: seq<Event>)
    requires forall a, b :: a in es && b in es && a.Key() == b.Key() ==> a == b
    ensures IsListing(q, es, (a, b) => Earlier(a, b))
    ensures Latest(es) == (if q == [] then None else Some(q[|q| - 1]))
  {
    var before := (a: Event, b: Event) => Earlier(a, b);
    q := Sort(es, before);
    if q == [] {
      assert es == {};
    } else {
      var last := q[|q| - 1];
      assert last in es;
      ghost var m := Latest(es).value;
      assert m in q;
      ghost var i :| 0 <= i < |q| && q[i] == m;
      assert i < |q| - 1 ==> before(m, last);
    }
  }
}
