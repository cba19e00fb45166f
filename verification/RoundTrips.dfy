/** What an event and its removal leave of a row, column by column: the status it comes back
    to, the words, the hashes, the amounts. */
module RoundTrips {
  import opened Options
  import opened Orders
  import E = Executor
  import R = Reorg

  /** The words of a status that no event is the reason of. */
  function WordFor(s: Status): Reason {
    match s
    case SubmittingExecute => ClaimedForSubmission
    case PendingExecute => SubmittedToChain
    case PendingCancel => CancelSubmittedByUser
    case Expired => ExpiredByChainTime
    case _ => NoReason
  }

  /** A row put back into a status, with none of its events left. */
  function PutBack(o: Order, s: Status, cancelledTx: TxHash): Order {
    o.(status := s, statusReason := WordFor(s), lastBlockReason := if s == Expired then OrderExpired else NoReason,
       cancelledTx := cancelledTx, lastCheckedBlock := 0)
  }

  function WithoutExecution(o: Order): Order {
    o.(executedTx := NO_TX, settledAmountOut := 0, settledExecutorFee := 0)
  }

  ghost predicate Alone(db: Db, id: OrderId) {
    id in db.orders && !R.LiveExecution(db, id) && !R.LiveNonce(db, id)
  }

  /** The row of an order after one event is recorded, and after the same event is taken back. */
  ghost function Recorded(db: Db, e: Event, id: OrderId): Order
    requires id in db.orders
  {
    assert id in Apply(db, e).orders;
    Apply(db, e).orders[id]
  }

  ghost predicate ComesBackAs(db: Db, e: Event, id: OrderId, o: Order) {
    var back := Revert(Apply(db, e), e);
    back.events == db.events && id in back.orders && back.orders[id] == o
  }

  lemma ThereAndBack(db: Db, e: Event, id: OrderId)
    requires WellKeyed(db.events) && Alone(db, id) && e.txHash != NO_TX && e.Key() !in db.events
    requires if e.name == OrderExecuted then e.order == id else Affects(e, db.orders[id])
    ensures var o := db.orders[id];
      if e.name == OrderExecuted
      then Recorded(db, e, id) == AfterExecuted(o, e) && ComesBackAs(db, e, id, AfterExecutedRevert(AfterExecuted(o, e), None, None))
      else Recorded(db, e, id) == AfterNonce(o, e) && ComesBackAs(db, e, id, AfterNonceRevert(AfterNonce(o, e), None, None))
  {
    var o, after := db.orders[id], Apply(db, e);
    R.ObservedRow(db, e, id);
    R.RemovedRow(after, e, id);
    assert after.events - {e.Key()} == db.events;
  }

  // ---------------------------------------------------------------- orders closed by the event

  /** Where an open-ended row comes back to: a pending one needs its hash. */
  function Kept(o: Order): Status {
    if o.status == PendingExecute && o.submittedTx == NO_TX then Open
    else if o.status == PendingCancel && o.cancelledTx == NO_TX then Open
    else o.status
  }

  /** The word that a cancelled row remembers a status by. */
  function CancelWord(s: Status): Reason {
    match s
    case SubmittingExecute => ByNonceAfterSubmitting
    case PendingExecute => ByNonceAfterPendingExecute
    case PendingCancel => ByNonceAfterPendingCancel
    case Expired => ByNonceAfterExpired
    case _ => ByNonce
  }

  /** Every column of an order cancelled by its nonce event, and of the order put back. */
  lemma CancelAndBack(db: Db, e: Event, id: OrderId)
    requires WellKeyed(db.events) && Alone(db, id) && e.txHash != NO_TX && e.Key() !in db.events
    requires e.name == NonceInvalidated && Affects(e, db.orders[id]) && !Final(db.orders[id].status)
    ensures var o := db.orders[id];
      && Recorded(db, e, id) == o.(status := Cancelled, statusReason := CancelWord(Kept(o)),
           lastBlockReason := NoReason, cancelledTx := e.txHash, lastCheckedBlock := e.block)
      && ComesBackAs(db, e, id, PutBack(o, Kept(o), if Kept(o) == PendingCancel then e.txHash else NO_TX))
  {
    ThereAndBack(db, e, id);
  }

  /** The same for an execution: only pending cancel and expiry are remembered. */
  lemma ExecutionAndBack(db: Db, e: Event, id: OrderId)
    requires WellKeyed(db.events) && Alone(db, id) && e.txHash != NO_TX && e.Key() !in db.events
    requires e.name == OrderExecuted && e.order == id && !Final(db.orders[id].status)
    ensures var o := db.orders[id];
      var cancelledTx := if o.status == PendingCancel then o.cancelledTx else NO_TX;
      && Recorded(db, e, id) == o.(status := Executed,
           statusReason := (match o.status
                            case PendingCancel => ByExecutionAfterPendingCancel
                            case Expired => ByExecutionAfterExpired
                            case _ => ByExecution),
           lastBlockReason := NoReason, executedTx := e.txHash, cancelledTx := cancelledTx,
           settledAmountOut := e.gross, settledExecutorFee := e.fee, lastCheckedBlock := e.block)
      && ComesBackAs(db, e, id, WithoutExecution(PutBack(o,
           if cancelledTx != NO_TX then PendingCancel else if o.status == Expired then Expired else Open, cancelledTx)))
  {
    ThereAndBack(db, e, id);
  }

  // ---------------------------------------------------------------- orders closed on the chain's word

  lemma ConfirmedCancelRow(o: Order, e: Event)
    requires o.status == Cancelled && o.statusReason == ConfirmedByChainState && e.txHash != NO_TX
    ensures var r := AfterNonce(o, e);
      && r == o.(statusReason := r.statusReason, lastBlockReason := NoReason, cancelledTx := e.txHash, lastCheckedBlock := e.block)
      && NonceReason(r.statusReason)
      && AfterNonceRevert(r, None, None) == (
           if o.submittedTx != NO_TX then PutBack(o, PendingExecute, NO_TX)
           else if o.cancelledTx != NO_TX then PutBack(o, PendingCancel, e.txHash)
           else if o.lastBlockReason == OrderExpired then PutBack(o, Expired, NO_TX)
           else PutBack(o, Open, NO_TX))
  {}

  /** An order cancelled on the chain's word takes its nonce event's hash and block; when the
      event goes, its hashes and its last block reason tell where it came from. */
  lemma ConfirmedCancelAndBack(db: Db, e: Event, id: OrderId)
    requires WellKeyed(db.events) && Alone(db, id) && e.txHash != NO_TX && e.Key() !in db.events
    requires e.name == NonceInvalidated && Affects(e, db.orders[id])
    requires db.orders[id].status == Cancelled && db.orders[id].statusReason == ConfirmedByChainState
    ensures var o := db.orders[id];
      && Recorded(db, e, id) == o.(statusReason := Recorded(db, e, id).statusReason,
           lastBlockReason := NoReason, cancelledTx := e.txHash, lastCheckedBlock := e.block)
      && NonceReason(Recorded(db, e, id).statusReason)
      && ComesBackAs(db, e, id,
           if o.submittedTx != NO_TX then PutBack(o, PendingExecute, NO_TX)
           else if o.cancelledTx != NO_TX then PutBack(o, PendingCancel, e.txHash)
           else if o.lastBlockReason == OrderExpired then PutBack(o, Expired, NO_TX)
           else PutBack(o, Open, NO_TX))
  {
    ThereAndBack(db, e, id);
    ConfirmedCancelRow(db.orders[id], e);
  }

  /** An order executed on the chain's word takes its event's hash, amounts and block, and
      comes back pending cancel if it still has a cancel hash, open otherwise. */
  lemma ConfirmedExecutionAndBack(db: Db, e: Event, id: OrderId)
    requires WellKeyed(db.events) && Alone(db, id) && e.txHash != NO_TX && e.Key() !in db.events
    requires e.name == OrderExecuted && e.order == id
    requires db.orders[id].status == Executed && db.orders[id].statusReason == ConfirmedByChainState
    ensures var o := db.orders[id];
      && Recorded(db, e, id) == o.(
           statusReason := if o.cancelledTx != NO_TX then ByExecutionAfterPendingCancel else ConfirmedByChainState,
           lastBlockReason := NoReason, executedTx := e.txHash,
           settledAmountOut := e.gross, settledExecutorFee := e.fee, lastCheckedBlock := e.block)
      && ComesBackAs(db, e, id,
           WithoutExecution(PutBack(o, if o.cancelledTx != NO_TX then PendingCancel else Open, o.cancelledTx)))
  {
    ThereAndBack(db, e, id);
  }

  /** A cancel whose receipt the executor sees before the indexer sees its log: taking the log
      back leaves the order pending cancel, with the log's hash to track. */
  lemma ReceiptThenCancelAndBack(db: Db, id: OrderId, a: E.PendingAnswers, e: Event)
    requires WellKeyed(db.events) && Alone(db, id) && e.txHash != NO_TX && e.Key() !in db.events
    requires e.name == NonceInvalidated && Affects(e, db.orders[id])
    requires db.orders[id].status == PendingCancel && db.orders[id].cancelledTx != NO_TX
    requires a.receipt.Receipt? && a.invalidated == Answered(true) && E.ParseNonNegative(db.orders[id].definition.nonce).Some?
    ensures var seen := db.(orders := E.Updated(db.orders, id, E.ReconcileMove(db.orders[id], a)));
      && id in seen.orders && seen.orders[id].status == Cancelled
      && ComesBackAs(seen, e, id, PutBack(seen.orders[id], PendingCancel, e.txHash))
  {
    var seen := db.(orders := E.Updated(db.orders, id, E.ReconcileMove(db.orders[id], a)));
    var o := seen.orders[id];
    assert o.status == Cancelled && o.statusReason == ConfirmedByChainState && o.submittedTx == NO_TX;
    assert o.cancelledTx != NO_TX && o.definition == db.orders[id].definition;
    ConfirmedCancelAndBack(seen, e, id);
  }

  /** The same for an execution: taking its log back reopens the order, amounts cleared. */
  lemma ReceiptThenExecutionAndBack(db: Db, id: OrderId, a: E.PendingAnswers, e: Event)
    requires WellKeyed(db.events) && Alone(db, id) && e.txHash != NO_TX && e.Key() !in db.events
    requires e.name == OrderExecuted && e.order == id
    requires db.orders[id].status == PendingExecute && db.orders[id].submittedTx != NO_TX
    requires a.receipt.Receipt? && a.receipt.success && a.executed == Answered(true)
    ensures var seen := db.(orders := E.Updated(db.orders, id, E.ReconcileMove(db.orders[id], a)));
      && id in seen.orders && seen.orders[id].status == Executed
      && ComesBackAs(seen, e, id, WithoutExecution(PutBack(seen.orders[id], Open, NO_TX)))
  {
    var seen := db.(orders := E.Updated(db.orders, id, E.ReconcileMove(db.orders[id], a)));
    var o := seen.orders[id];
    assert o.status == Executed && o.statusReason == ConfirmedByChainState && o.cancelledTx == NO_TX;
    assert o.definition == db.orders[id].definition;
    ConfirmedExecutionAndBack(seen, e, id);
  }

  /** A closed order that waits for no event is left alone by every event: the first one wins. */
  lemma ClosedStaysClosed(db: Db, e: Event, id: OrderId)
    requires ApplyOutcome(db, e) == Done && id in db.orders && Final(db.orders[id].status)
    requires db.orders[id].statusReason != ConfirmedByChainState
      || (db.orders[id].status == Executed) != (e.name == OrderExecuted)
    ensures Recorded(db, e, id) == db.orders[id]
  {
    R.ObservedRow(db, e, id);
  }

  // ---------------------------------------------------------------- what a cancel remembers

  /** Where a row comes back to once it has been cancelled for want of any other event. */
  function CameFrom(o: Order): Status {
    match o.statusReason
    case ByExecutionAfterPendingCancel => PendingCancel
    case ByNonceAfterPendingCancel => PendingCancel
    case ByExecutionAfterExpired => Expired
    case ByNonceAfterExpired => Expired
    case ByNonceAfterSubmitting => SubmittingExecute
    case ByNonceAfterPendingExecute => if o.submittedTx != NO_TX then PendingExecute else Open
    case ByNonce => Open
    case _ =>
      if !Final(o.status) then Kept(o)
      else if o.status == Executed && o.cancelledTx != NO_TX then PendingCancel
      else if o.submittedTx != NO_TX then PendingExecute
      else if o.cancelledTx != NO_TX then PendingCancel
      else if o.lastBlockReason == OrderExpired then Expired
      else Open
  }

  /** An order that falls back to its nonce event when its execution goes, and then loses that
      one too. */
  lemma ExecutionThenCancelRemoved(o: Order, n: Event)
    requires n.txHash != NO_TX
    ensures var cancelled := AfterExecutedRevert(o, None, Some(n));
      && cancelled == WithoutExecution(o).(status := Cancelled, statusReason := cancelled.statusReason,
           lastBlockReason := NoReason, cancelledTx := n.txHash, lastCheckedBlock := n.block)
      && AfterNonceRevert(cancelled, None, None)
           == PutBack(WithoutExecution(o), CameFrom(o), if CameFrom(o) == PendingCancel then n.txHash else NO_TX)
  {}

  /** The last nonce event of any kind of row is gone, and no execution is there to show
      instead: a row it closed, or the chain's word did, is put back; any other stays. */
  lemma LastCancelRemoved(o: Order, execution: Option<Event>)
    requires execution.None? || o.status != Cancelled || o.statusReason != ConfirmedByChainState
    ensures AfterNonceRevert(o, execution, None) ==
      if o.status != Cancelled then o
      else match o.statusReason
           case ByNonceAfterExpired => PutBack(o, Expired, NO_TX)
           case ByNonceAfterSubmitting => PutBack(o, SubmittingExecute, NO_TX)
           case ByNonceAfterPendingExecute => PutBack(o, if o.submittedTx != NO_TX then PendingExecute else Open, NO_TX)
           case ByNonceAfterPendingCancel => PutBack(o, if o.cancelledTx != NO_TX then PendingCancel else Open, o.cancelledTx)
           case ByNonce => PutBack(o, Open, NO_TX)
           case ConfirmedByChainState => PutBack(o, Open, NO_TX)
           case _ => o
  {}

  /** The last execution of any kind of row is gone, and no nonce event is there: executed rows
      come back to what they remember, a row cancelled on the chain's word is opened, any other
      keeps its status and loses what the execution left. */
  lemma LastExecutionRemoved(o: Order)
    ensures AfterExecutedRevert(o, None, None) == WithoutExecution(
      if o.status == Executed && o.statusReason == ByExecutionAfterPendingCancel && o.cancelledTx != NO_TX
        then PutBack(o, PendingCancel, o.cancelledTx)
      else if o.status == Executed && o.statusReason == ByExecutionAfterExpired then PutBack(o, Expired, o.cancelledTx)
      else if ExecutionReason(o.statusReason) || o.statusReason == ConfirmedByChainState
        then PutBack(o, Open, if o.status == Cancelled then NO_TX else o.cancelledTx)
      else o.(lastBlockReason := NoReason, lastCheckedBlock := 0))
  {}

  // ---------------------------------------------------------------- the latest event left

  /** No later in the log. */
  predicate UpTo(y: Event, x: Event) {
    y.block < x.block || (y.block == x.block && y.logIndex <= x.logIndex)
  }

  ghost predicate LastOf(x: Event, es: set<Event>) {
    x in es && forall y :: y in es ==> UpTo(y, x)
  }

  /** The row carries its last live execution. */
  ghost predicate CarriesExecution(db: Db, id: OrderId) {
    && id in db.orders && db.orders[id].status == Executed
    && exists x :: LastOf(x, ExecutedEvents(db.events, id)) && db.orders[id].executedTx == x.txHash
         && db.orders[id].settledAmountOut == x.gross && db.orders[id].settledExecutorFee == x.fee
         && db.orders[id].lastCheckedBlock == x.block
  }

  /** The row carries its last live nonce event. */
  ghost predicate CarriesNonce(db: Db, id: OrderId) {
    && id in db.orders && db.orders[id].status == Cancelled
    && exists x :: LastOf(x, NonceEventsOf(db.events, db.orders[id])) && db.orders[id].cancelledTx == x.txHash
         && db.orders[id].lastCheckedBlock == x.block
  }

  lemma LatestIsLast(es: set<Event>)
    requires Latest(es).Some?
    ensures LastOf(Latest(es).value, es)
  {
    forall y | y in es ensures UpTo(y, Latest(es).value) { assert !Earlier(Latest(es).value, y); }
  }

  /** A removed event leaves its orders with the last of the events left in the log. */
  lemma RemovedLeavesLatest(db: Db, e: Event, id: OrderId)
    requires WellKeyed(db.events) && R.Faithful(db, R.Removed(e)) && e.Key() in db.events && id in db.orders
    ensures var o, after := db.orders[id], Revert(db, e);
      && id in after.orders && e.Key() !in after.events
      && (e.name == OrderExecuted && e.order == id ==>
            && (R.LiveExecution(after, id) ==> CarriesExecution(after, id))
            && (!R.LiveExecution(after, id) && R.LiveNonce(after, id) ==>
                  CarriesNonce(after, id) && WithoutExecution(after.orders[id]) == after.orders[id]))
      && (e.name == NonceInvalidated && Affects(e, o) ==>
            && (R.LiveNonce(after, id) && o.status !in {Executed, Expired} ==> CarriesNonce(after, id))
            && (o.status == Executed || (o.status == Expired && R.LiveNonce(after, id)) ==> after.orders[id] == o)
            && (!R.LiveNonce(after, id) && R.LiveExecution(after, id) && BackfillsCancelled(o) ==> CarriesExecution(after, id)))
  {
    var o, after := db.orders[id], Revert(db, e);
    R.RemovedRow(db, e, id);
    if R.LiveExecution(after, id) { LatestIsLast(ExecutedEvents(after.events, id)); }
    if R.LiveNonce(after, id) { LatestIsLast(NonceEventsOf(after.events, o)); }
  }
}
