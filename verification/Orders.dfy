/** Limit orders, the settlement event log, and what one settlement event (or its
    removal by a reorg) does to one order. One chain and one settlement contract. */
module Orders {
  import opened Options
  import opened Listing

  /** A transaction hash; zero stands for the empty string. */
  type TxHash = nat
  type OrderId = nat
  type Address = nat

  const NO_TX: TxHash := 0

  /** A decimal column: text that may fail to parse. */
  datatype Numeral = Malformed | Number(n: int)

  datatype Status =
    | Open | SubmittingExecute | PendingExecute | PendingCancel | Expired
    | Executed | Cancelled

  /** Texts that only ever describe: no code reads them back. An error's own message,
      which the text carries too, is dropped. */
  datatype Note =
    | PayloadInvalid | ChainTimeUnavailable | ChainStateCheckFailed | CanExecuteFailed | FundingCheckFailed
    | InsufficientBalance | InsufficientAllowance | OrderQuoteFailed | FeeQuoteFailed | RewardInsufficient
    | InvalidSignature | DeadlineInvalid | SubmitFailed | ExecutedInconclusive | InvalidatedInconclusive
    | ContractSays(text: string)
    | SubmissionInterrupted | PendingWithoutTxHash | TxPendingOnChain | CancelTxPendingOnChain
    | SubmittedTxMissing | CancelTxMissing | TxReverted | CancelTxReverted
    | InvalidNonceInRecord | InvalidExpiryInRecord | ConfirmedWithInvalidNonce
    | TxWaitingForIndexer | CancelWaitingForIndexer | ExpiredAfterRevert

  /** The words that status_reason and last_block_reason take. */
  datatype Reason =
    | NoReason
    | ByExecution | ByExecutionAfterPendingCancel | ByExecutionAfterExpired
    | ByNonce | ByNonceAfterPendingCancel | ByNonceAfterPendingExecute
    | ByNonceAfterSubmitting | ByNonceAfterExpired
    | ConfirmedByChainState
    | ExpiredByChainTime | OrderExpired
    | CancelSubmittedByUser | SubmittedToChain | ClaimedForSubmission
    | Paused | ExecutorNotSet
    | Noted(note: Note)

  /** What the maker signed: never updated. */
  datatype Definition = Definition(
    maker: Address, makerIsAddress: bool, inputTokenIsAddress: bool,
    outputTokenIsAddress: bool, recipientIsAddress: bool,
    amountIn: Numeral, minAmountOut: Numeral, executorFee: Numeral,
    triggerPrice: Numeral, expiry: Numeral, nonce: Numeral, signatureDecodes: bool)

  datatype Order = Order(
    definition: Definition, status: Status, statusReason: Reason, lastBlockReason: Reason,
    submittedTx: TxHash, executedTx: TxHash, cancelledTx: TxHash,
    settledAmountOut: nat, settledExecutorFee: nat,
    lastCheckedBlock: nat, lastExecutionCheckAt: nat)

  /** A map of column updates. */
  datatype Patch = Patch(
    status: Option<Status> := None, statusReason: Option<Reason> := None,
    lastBlockReason: Option<Reason> := None, submittedTx: Option<TxHash> := None,
    executedTx: Option<TxHash> := None, cancelledTx: Option<TxHash> := None,
    settledAmountOut: Option<nat> := None, settledExecutorFee: Option<nat> := None,
    lastCheckedBlock: Option<nat> := None, lastExecutionCheckAt: Option<nat> := None)

  function Override(o: Order, p: Patch): Order {
    Order(o.definition,
      p.status.GetOr(o.status), p.statusReason.GetOr(o.statusReason),
      p.lastBlockReason.GetOr(o.lastBlockReason), p.submittedTx.GetOr(o.submittedTx),
      p.executedTx.GetOr(o.executedTx), p.cancelledTx.GetOr(o.cancelledTx),
      p.settledAmountOut.GetOr(o.settledAmountOut),
      p.settledExecutorFee.GetOr(o.settledExecutorFee),
      p.lastCheckedBlock.GetOr(o.lastCheckedBlock),
      p.lastExecutionCheckAt.GetOr(o.lastExecutionCheckAt))
  }

  datatype EventName = OrderExecuted | NonceInvalidated

  datatype EventKey = EventKey(txHash: TxHash, logIndex: nat)

  datatype Event = Event(
    name: EventName, txHash: TxHash, logIndex: nat, block: nat,
    order: OrderId, maker: Address, nonce: Numeral, gross: nat, fee: nat)
  {
    function Key(): EventKey { EventKey(txHash, logIndex) }
  }

  /** The two tables the event service works on. */
  datatype Db = Db(orders: map<OrderId, Order>, events: map<EventKey, Event>)

  predicate WellKeyed(events: map<EventKey, Event>) {
    forall k :: k in events ==> events[k].Key() == k
  }

  function ExecutedEvents(events: map<EventKey, Event>, id: OrderId): set<Event> {
    set k | k in events && events[k].name == OrderExecuted && events[k].order == id :: events[k]
  }

  function NonceEvents(events: map<EventKey, Event>, maker: Address, nonce: Numeral): set<Event> {
    set k | k in events && events[k].name == NonceInvalidated
            && events[k].maker == maker && events[k].nonce == nonce :: events[k]
  }

  function NonceEventsOf(events: map<EventKey, Event>, o: Order): set<Event> {
    NonceEvents(events, o.definition.maker, o.definition.nonce)
  }

  /** Log order; rows that tie on block and log index are taken in hash order. */
  predicate Earlier(a: Event, b: Event) {
    || a.block < b.block
    || (a.block == b.block && a.logIndex < b.logIndex)
    || (a.block == b.block && a.logIndex == b.logIndex && a.txHash < b.txHash)
  }

  /** The last row of an ordered listing of the events. */
  ghost function Latest(es: set<Event>): (r: Option<Event>)
    ensures r.None? <==> es == {}
    ensures r.Some? ==> r.value in es && forall x :: x in es ==> !Earlier(r.value, x)
  {
    if es == {} then None
    else
      var later := (a: Event, b: Event) => Earlier(b, a);
      assert StrictOrder(later);
      assert exists m :: m in es && forall x :: x in es ==> !Earlier(m, x) by {
        var m := FirstExists(es, later);
        assert forall x :: x in es ==> !Earlier(m, x) by {
          forall x | x in es ensures !Earlier(m, x) { assert !later(x, m); }
        }
      }
      var m :| m in es && forall x :: x in es ==> !Earlier(m, x);
      Some(m)
  }

  // ---------------------------------------------------------------- status words

  predicate ExecutionReason(r: Reason) {
    r == ByExecution || r == ByExecutionAfterPendingCancel || r == ByExecutionAfterExpired
  }

  predicate NonceReason(r: Reason) {
    r == ByNonce || r == ByNonceAfterPendingCancel || r == ByNonceAfterPendingExecute
    || r == ByNonceAfterSubmitting || r == ByNonceAfterExpired
  }

  predicate ClearsExecuted(r: Reason) {
    ExecutionReason(r) || r == ConfirmedByChainState
  }

  predicate ClearsCancelled(r: Reason) {
    || r == ByNonce || r == ByNonceAfterPendingCancel || r == ByNonceAfterPendingExecute
    || r == ByNonceAfterSubmitting || r == ConfirmedByChainState
  }

  /** The statuses an event may close: everything but the two final ones. */
  const LIVE_STATUSES := {Open, SubmittingExecute, PendingExecute, PendingCancel, Expired}
  const REVERT_CANCELLED_STATUSES := {Open, SubmittingExecute, PendingExecute, PendingCancel, Cancelled}

  predicate Final(s: Status) { s == Executed || s == Cancelled }

  function ExecutedReason(o: Order): Reason {
    match o.status
    case PendingCancel => ByExecutionAfterPendingCancel
    case Expired => ByExecutionAfterExpired
    case _ => ByExecution
  }

  function RestoredExecutedReason(o: Order): Reason {
    if o.cancelledTx != NO_TX then ByExecutionAfterPendingCancel
    else if ClearsExecuted(o.statusReason) then o.statusReason
    else ByExecution
  }

  function CancelledReason(o: Order): Reason {
    match o.status
    case Expired => ByNonceAfterExpired
    case PendingCancel => if o.cancelledTx != NO_TX then ByNonceAfterPendingCancel else ByNonce
    case PendingExecute => if o.submittedTx != NO_TX then ByNonceAfterPendingExecute else ByNonce
    case SubmittingExecute => ByNonceAfterSubmitting
    case _ => ByNonce
  }

  function RestoredCancelledReason(o: Order): Reason {
    if NonceReason(o.statusReason) then o.statusReason
    else if o.statusReason == ByExecutionAfterPendingCancel then ByNonceAfterPendingCancel
    else if o.statusReason == ByExecutionAfterExpired then ByNonceAfterExpired
    else if o.status in LIVE_STATUSES then CancelledReason(o)
    else if o.status == Executed && o.cancelledTx != NO_TX then ByNonceAfterPendingCancel
    else if o.submittedTx != NO_TX then ByNonceAfterPendingExecute
    else if o.cancelledTx != NO_TX then ByNonceAfterPendingCancel
    else if o.lastBlockReason == OrderExpired then ByNonceAfterExpired
    else ByNonce
  }

  predicate BackfillsExecuted(o: Order) {
    o.status == Executed && o.statusReason == ConfirmedByChainState
  }

  predicate BackfillsCancelled(o: Order) {
    o.status == Cancelled && o.statusReason == ConfirmedByChainState
  }

  // ---------------------------------------------------------------- column updates

  function ExecutedPatch(o: Order, e: Event): Patch {
    Patch(status := Some(Executed), statusReason := Some(ExecutedReason(o)),
      lastBlockReason := Some(NoReason), executedTx := Some(e.txHash),
      cancelledTx := if o.status == PendingCancel then None else Some(NO_TX),
      settledAmountOut := Some(e.gross), settledExecutorFee := Some(e.fee),
      lastCheckedBlock := Some(e.block))
  }

  function RestoredExecutedPatch(o: Order, e: Event): Patch {
    Patch(status := Some(Executed), statusReason := Some(RestoredExecutedReason(o)),
      lastBlockReason := Some(NoReason), executedTx := Some(e.txHash),
      settledAmountOut := Some(e.gross), settledExecutorFee := Some(e.fee),
      lastCheckedBlock := Some(e.block))
  }

  function CancelledPatch(reason: Reason, e: Event): Patch {
    Patch(status := Some(Cancelled), statusReason := Some(reason),
      lastBlockReason := Some(NoReason), cancelledTx := Some(e.txHash),
      lastCheckedBlock := Some(e.block))
  }

  /** Clears what an execution left, and moves to the given state. */
  function UnexecutedPatch(s: Status, r: Reason, block: Reason, cancelledTx: Option<TxHash>): Patch {
    Patch(status := Some(s), statusReason := Some(r), lastBlockReason := Some(block),
      executedTx := Some(NO_TX), cancelledTx := cancelledTx,
      settledAmountOut := Some(0), settledExecutorFee := Some(0),
      lastCheckedBlock := Some(0))
  }

  function UncancelledPatch(s: Status, r: Reason, block: Reason, cancelledTx: Option<TxHash>): Patch {
    Patch(status := Some(s), statusReason := Some(r), lastBlockReason := Some(block),
      cancelledTx := cancelledTx, lastCheckedBlock := Some(0))
  }

  /** The status that a nonce-event reason remembers, where it can be rebuilt. */
  function ReorgRestorePatch(o: Order): Option<Patch> {
    match o.statusReason
    case ByNonceAfterExpired =>
      Some(UncancelledPatch(Expired, ExpiredByChainTime, OrderExpired, Some(NO_TX)))
    case ByNonceAfterPendingCancel =>
      if o.cancelledTx == NO_TX then None
      else Some(UncancelledPatch(PendingCancel, CancelSubmittedByUser, NoReason, None))
    case ByNonceAfterPendingExecute =>
      if o.submittedTx == NO_TX then None
      else Some(UncancelledPatch(PendingExecute, SubmittedToChain, NoReason, Some(NO_TX)))
    case ByNonceAfterSubmitting =>
      Some(UncancelledPatch(SubmittingExecute, ClaimedForSubmission, NoReason, Some(NO_TX)))
    case _ => None
  }

  // ---------------------------------------------------------------- one order, one event

  function Guarded(o: Order, allowed: set<Status>, p: Patch): Order {
    if o.status in allowed then Override(o, p) else o
  }

  function AfterExecuted(o: Order, e: Event): Order {
    if o.status in LIVE_STATUSES then Override(o, ExecutedPatch(o, e))
    else if BackfillsExecuted(o) then Override(o, RestoredExecutedPatch(o, e))
    else o
  }

  function AfterNonce(o: Order, e: Event): Order {
    if o.status in LIVE_STATUSES then Override(o, CancelledPatch(CancelledReason(o), e))
    else if BackfillsCancelled(o) then Override(o, CancelledPatch(RestoredCancelledReason(o), e))
    else o
  }

  /** An OrderExecuted row is gone; `execution` and `nonce` are the latest rows left. */
  function ExecutedRevertPatch(o: Order, execution: Option<Event>, nonce: Option<Event>): Patch {
    if execution.Some? then RestoredExecutedPatch(o, execution.value)
    else if nonce.Some? then
      CancelledPatch(RestoredCancelledReason(o), nonce.value).(
        executedTx := Some(NO_TX), settledAmountOut := Some(0), settledExecutorFee := Some(0))
    else if o.status == Executed && o.statusReason == ByExecutionAfterPendingCancel && o.cancelledTx != NO_TX then
      UnexecutedPatch(PendingCancel, CancelSubmittedByUser, NoReason, None)
    else if o.status == Executed && o.statusReason == ByExecutionAfterExpired then
      UnexecutedPatch(Expired, ExpiredByChainTime, OrderExpired, None)
    else if ClearsExecuted(o.statusReason) then
      UnexecutedPatch(Open, NoReason, NoReason, Some(if o.status == Cancelled then NO_TX else o.cancelledTx))
    else
      UnexecutedPatch(o.status, o.statusReason, NoReason, Some(o.cancelledTx))
  }

  function AfterExecutedRevert(o: Order, execution: Option<Event>, nonce: Option<Event>): Order {
    Override(o, ExecutedRevertPatch(o, execution, nonce))
  }

  /** A NonceInvalidated row is gone; `execution` and `nonce` are the latest rows left. */
  function AfterNonceRevert(o: Order, execution: Option<Event>, nonce: Option<Event>): Order {
    if nonce.None? then
      if BackfillsCancelled(o) && execution.Some? then Override(o, RestoredExecutedPatch(o, execution.value))
      else
        var restored := ReorgRestorePatch(o);
        if restored.Some? then Guarded(o, {Cancelled}, restored.value)
        else if o.status == Cancelled && ClearsCancelled(o.statusReason) then
          Override(o, UncancelledPatch(Open, NoReason, NoReason, Some(NO_TX)))
        else o
    else if o.status == Executed then o
    else Guarded(o, REVERT_CANCELLED_STATUSES, CancelledPatch(RestoredCancelledReason(o), nonce.value))
  }

  // ---------------------------------------------------------------- whole transactions

  predicate Affects(e: Event, o: Order) {
    o.definition.maker == e.maker && o.definition.nonce == e.nonce
  }

  /** What recording one event leads to: refused for a missing order, ignored when
      the row is there already, otherwise stored and applied. */
  datatype Outcome = MissingOrder | Duplicate | Done

  function ApplyOutcome(db: Db, e: Event): Outcome {
    if e.name == OrderExecuted && e.order !in db.orders then MissingOrder
    else if e.Key() in db.events then Duplicate
    else Done
  }

  function Apply(db: Db, e: Event): Db {
    if ApplyOutcome(db, e) != Done then db
    else if e.name == OrderExecuted then
      Db(db.orders[e.order := AfterExecuted(db.orders[e.order], e)], db.events[e.Key() := e])
    else
      Db(map id | id in db.orders ::
           if Affects(e, db.orders[id]) then AfterNonce(db.orders[id], e) else db.orders[id],
         db.events[e.Key() := e])
  }

  ghost function Revert(db: Db, e: Event): Db {
    if e.Key() !in db.events then db
    else
      var events := db.events - {e.Key()};
      if e.name == OrderExecuted then
        if e.order !in db.orders then Db(db.orders, events)
        else
          var o := db.orders[e.order];
          Db(db.orders[e.order := AfterExecutedRevert(o, Latest(ExecutedEvents(events, e.order)),
                                                     Latest(NonceEventsOf(events, o)))],
             events)
      else
        Db(map id | id in db.orders ::
             if Affects(e, db.orders[id])
             then AfterNonceRevert(db.orders[id], Latest(ExecutedEvents(events, id)),
                                   Latest(NonceEvents(events, e.maker, e.nonce)))
             else db.orders[id],
           events)
  }
}
