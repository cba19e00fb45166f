/** Applies settlement events to the order store, and reverts them when a reorg
    removes their logs. Each method is one transaction. */
module OrderEventService {
  import opened Options
  import opened Orders
  import opened Database

  class Service {
    const db: Database

    constructor (db: Database)
      ensures this.db == db
    {
      this.db := db;
    }

    /** Records an OrderExecuted and closes its order as executed. */
    method Apply(e: Event, now: nat) returns (outcome: Outcome)
      requires e.name == OrderExecuted && db.Valid()
      modifies db
      ensures db.Valid()
      ensures outcome == ApplyOutcome(old(db.Snapshot()), e)
      ensures db.Snapshot() == Orders.Apply(old(db.Snapshot()), e)
    {
      var order := db.GetByOrderHash(e.order);
      if order.None? { return MissingOrder; }
      var created := db.CreateEvent(e);
      if !created { return Duplicate; }
      var updated := db.UpdateFieldsIfStatusIn(e.order, LIVE_STATUSES, ExecutedPatch(order.value, e), now);
      if !updated {
        var refreshed := db.GetByOrderHash(e.order);
        if refreshed.Some? && BackfillsExecuted(refreshed.value) {
          var _ := db.UpdateFields(e.order, RestoredExecutedPatch(refreshed.value, e), now);
        }
      }
      outcome := Done;
    }

    /** Records a NonceInvalidated and cancels every order of its maker and nonce. */
    method ApplyNonceInvalidated(e: Event, now: nat) returns (outcome: Outcome)
      requires e.name == NonceInvalidated && db.Valid()
      modifies db
      ensures db.Valid()
      ensures outcome == ApplyOutcome(old(db.Snapshot()), e)
      ensures db.Snapshot() == Orders.Apply(old(db.Snapshot()), e)
    {
      var created := db.CreateEvent(e);
      if !created { return Duplicate; }
      var orders := db.ListOrdersByMakerAndNonce(e.maker, e.nonce);
      ghost var before := db.Flat();
      var i := 0;
      while i < |orders|
        invariant 0 <= i <= |orders| && db.Complete()
        invariant db.Flat() == WithCancelled(before, Ids(orders[..i]), e)
        modifies db`orderRows, db`runtimes
      {
        NextListed(orders, i);
        CancelledNext(before, Ids(orders[..i]), orders[i].id, e);
        CancelOne(orders[i], e, now);
        i := i + 1;
      }
      assert orders[..i] == orders;
      outcome := Done;
    }

    method CancelOne(x: ListedOrder, e: Event, now: nat)
      requires x.id in db.Flat() && db.Flat()[x.id] == x.order && db.Complete()
      modifies db`orderRows, db`runtimes
      ensures db.Complete() && db.Flat() == old(db.Flat())[x.id := AfterNonce(x.order, e)]
    {
      var o := x.order;
      if o.status in LIVE_STATUSES || BackfillsCancelled(o) {
        var reason := if BackfillsCancelled(o) then RestoredCancelledReason(o) else CancelledReason(o);
        var updated := db.UpdateFieldsIfStatusIn(x.id, LIVE_STATUSES, CancelledPatch(reason, e), now);
        if !updated {
          var refreshed := db.GetByOrderHash(x.id);
          if refreshed.Some? && BackfillsCancelled(refreshed.value) {
            var _ := db.UpdateFields(x.id, CancelledPatch(RestoredCancelledReason(refreshed.value), e), now);
          }
        }
      }
    }

    /** Takes one event back and rebuilds what depended on it. */
    method Revert(e: Event, now: nat)
      requires db.Valid()
      modifies db
      ensures db.Valid()
      ensures db.Snapshot() == Orders.Revert(old(db.Snapshot()), e)
    {
      var deleted := db.DeleteByTxHashAndLogIndex(e.Key());
      if !deleted { return; }
      if e.name == OrderExecuted {
        RevertExecuted(e, now);
      } else {
        RevertNonceInvalidated(e, now);
      }
    }

    method RevertExecuted(e: Event, now: nat)
      requires db.Valid()
      modifies db`orderRows, db`runtimes
      ensures db.Valid()
      ensures db.Flat() ==
        if e.order !in old(db.Flat()) then old(db.Flat())
        else old(db.Flat())[e.order := AfterExecutedRevert(old(db.Flat())[e.order],
               Latest(ExecutedEvents(db.events, e.order)), Latest(NonceEventsOf(db.events, old(db.Flat())[e.order])))]
    {
      var found := db.GetByOrderHash(e.order);
      if found.None? { return; }
      var order := found.value;
      var executions := db.ListByOrderHash(e.order);
      if executions != [] {
        var latest := executions[|executions| - 1];
        var _ := db.UpdateFields(e.order, RestoredExecutedPatch(order, latest), now);
        return;
      }
      var cancels := db.ListByMakerAndNonce(order.definition.maker, order.definition.nonce);
      if cancels != [] {
        var latest := cancels[|cancels| - 1];
        var cleared := CancelledPatch(RestoredCancelledReason(order), latest).(
          executedTx := Some(NO_TX), settledAmountOut := Some(0), settledExecutorFee := Some(0));
        var _ := db.UpdateFields(e.order, cleared, now);
        return;
      }
      if order.status == Executed && order.statusReason == ByExecutionAfterPendingCancel && order.cancelledTx != NO_TX {
        var _ := db.UpdateFields(e.order, UnexecutedPatch(PendingCancel, CancelSubmittedByUser, NoReason, None), now);
        return;
      }
      if order.status == Executed && order.statusReason == ByExecutionAfterExpired {
        var _ := db.UpdateFields(e.order, UnexecutedPatch(Expired, ExpiredByChainTime, OrderExpired, None), now);
        return;
      }
      var status, reason, cancelledTx := order.status, order.statusReason, order.cancelledTx;
      if ClearsExecuted(order.statusReason) {
        status, reason := Open, NoReason;
        if order.status == Cancelled { cancelledTx := NO_TX; }
      }
      var _ := db.UpdateFields(e.order, UnexecutedPatch(status, reason, NoReason, Some(cancelledTx)), now);
    }

    method RevertNonceInvalidated(e: Event, now: nat)
      requires db.Valid()
      modifies db`orderRows, db`runtimes
      ensures db.Valid()
      ensures db.Flat() == WithRestored(old(db.Flat()), old(db.SharingNonce(e.maker, e.nonce)), db.events,
                                        Latest(NonceEvents(db.events, e.maker, e.nonce)))
    {
      var orders := db.ListOrdersByMakerAndNonce(e.maker, e.nonce);
      var cancels := db.ListByMakerAndNonce(e.maker, e.nonce);
      var latest := if cancels == [] then None else Some(cancels[|cancels| - 1]);
      ghost var before := db.Flat();
      var i := 0;
      while i < |orders|
        invariant 0 <= i <= |orders| && db.Complete()
        invariant db.Flat() == WithRestored(before, Ids(orders[..i]), db.events, latest)
        modifies db`orderRows, db`runtimes
      {
        RestoreNext(before, orders, i, latest, now);
        i := i + 1;
      }
      assert orders[..i] == orders;
    }

    method RestoreNext(ghost before: map<OrderId, Order>, orders: seq<ListedOrder>, i: nat, latest: Option<Event>, now: nat)
      requires db.Valid() && i < |orders| && DistinctIds(orders)
      requires orders[i].id in before && before[orders[i].id] == orders[i].order
      requires db.Flat() == WithRestored(before, Ids(orders[..i]), db.events, latest)
      modifies db`orderRows, db`runtimes
      ensures db.Complete() && db.Flat() == WithRestored(before, Ids(orders[..i + 1]), db.events, latest)
    {
      NextListed(orders, i);
      RestoredNext(before, Ids(orders[..i]), orders[i].id, db.events, latest);
      RestoreOne(orders[i], latest, now);
    }

    method RestoreOne(x: ListedOrder, latest: Option<Event>, now: nat)
      requires db.Valid() && x.id in db.Flat() && db.Flat()[x.id] == x.order
      modifies db`orderRows, db`runtimes
      ensures db.Complete() && db.Flat() == old(db.Flat())[x.id :=
        AfterNonceRevert(x.order, Latest(ExecutedEvents(db.events, x.id)), latest)]
    {
      var o := x.order;
      if latest.None? {
        if BackfillsCancelled(o) {
          var executions := db.ListByOrderHash(x.id);
          if executions != [] {
            var _ := db.UpdateFields(x.id, RestoredExecutedPatch(o, executions[|executions| - 1]), now);
            return;
          }
        }
        var restored := ReorgRestorePatch(o);
        if restored.Some? {
          var _ := db.UpdateFieldsIfStatusIn(x.id, {Cancelled}, restored.value, now);
          return;
        }
        if o.status == Cancelled && ClearsCancelled(o.statusReason) {
          var _ := db.UpdateFieldsIfStatusIn(x.id, {Cancelled}, UncancelledPatch(Open, NoReason, NoReason, Some(NO_TX)), now);
        }
        return;
      }
      if o.status == Executed { return; }
      var _ := db.UpdateFieldsIfStatusIn(x.id, REVERT_CANCELLED_STATUSES,
                                         CancelledPatch(RestoredCancelledReason(o), latest.value), now);
    }
  }

  /** The orders with those in `done` cancelled by `e`. */
  ghost function WithCancelled(orders: map<OrderId, Order>, done: set<OrderId>, e: Event): map<OrderId, Order> {
    map id | id in orders :: if id in done then AfterNonce(orders[id], e) else orders[id]
  }

  lemma CancelledNext(orders: map<OrderId, Order>, done: set<OrderId>, next: OrderId, e: Event)
    requires next in orders && next !in done
    ensures WithCancelled(orders, done + {next}, e) == WithCancelled(orders, done, e)[next := AfterNonce(orders[next], e)]
    ensures WithCancelled(orders, done, e)[next] == orders[next]
  {}

  /** The orders with those in `done` rebuilt from the rows left. */
  ghost function WithRestored(orders: map<OrderId, Order>, done: set<OrderId>, events: map<EventKey, Event>,
                          latest: Option<Event>): map<OrderId, Order> {
    map id | id in orders ::
      if id in done then AfterNonceRevert(orders[id], Latest(ExecutedEvents(events, id)), latest) else orders[id]
  }

  lemma RestoredNext(orders: map<OrderId, Order>, done: set<OrderId>, next: OrderId, events: map<EventKey, Event>,
                     latest: Option<Event>)
    requires next in orders && next !in done
    ensures WithRestored(orders, done + {next}, events, latest)
         == WithRestored(orders, done, events, latest)[next :=
              AfterNonceRevert(orders[next], Latest(ExecutedEvents(events, next)), latest)]
    ensures WithRestored(orders, done, events, latest)[next] == orders[next]
  {}

  lemma NextListed(orders: seq<ListedOrder>, i: nat)
    requires i < |orders| && DistinctIds(orders)
    ensures Ids(orders[..i + 1]) == Ids(orders[..i]) + {orders[i].id}
    ensures orders[i].id !in Ids(orders[..i])
  {
    assert orders[..i + 1] == orders[..i] + [orders[i]];
    AppendId(orders[..i], orders[i]);
  }
}
