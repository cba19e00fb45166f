/** The whole system: the indexer, any number of executor workers, users registering
    cancels and orders, and worker crashes, interleaved at transaction granularity. */
module Lifecycle {
  import opened Options
  import opened Orders
  import opened Database
  import opened Executor
  import E = Executor
  import R = Reorg
  import L = Listing

  /** Where a worker is between two transactions. A claim's number is its ticket. */
  datatype Place =
    | Idle
    | Loaded(id: OrderId, row: Order)
    | Claimed(id: OrderId, definition: Definition, payload: SettlementOrder, ticket: nat)
    | Tracking(id: OrderId, row: Order)
    | Resumed(id: OrderId)
    | Writing(id: OrderId, move: Option<Move>)

  /** A transaction sent for an order, and the claim it was sent under. */
  datatype Send = Send(order: OrderId, ticket: nat)

  /** `issued[t]` is the order that claim t took; `sent` lists the transactions sent so far. */
  datatype System = System(db: Db, workers: map<nat, Place>, issued: seq<OrderId>, sent: seq<Send>)

  datatype Step =
    | LogObserved(event: Event)
    | LogRemoved(event: Event)
    | OrderCreated(id: OrderId, order: Order)
    | CancelRegistered(id: OrderId, tx: TxHash, block: Reason)
    | Scan(worker: nat, id: OrderId)
    | Evaluate(worker: nat, now: nat, cfg: Config)
    | Decide(worker: nat, answers: Answers, now: nat, cfg: Config)
    | ScanPending(worker: nat, id: OrderId)
    | Reconcile(worker: nat, pending: PendingAnswers)
    | ReadAgain(worker: nat, pending: PendingAnswers)
    | Write(worker: nat)
    | Crash(worker: nat)

  const START := System(Db(map[], map[]), map[], [], [])

  function At(s: System, w: nat): Place {
    if w in s.workers then s.workers[w] else Idle
  }

  function Moved(db: Db, id: OrderId, move: Option<Move>): Db {
    db.(orders := Updated(db.orders, id, move))
  }

  function CancelPatch(tx: TxHash, block: Reason): Patch {
    Patch(status := Some(PendingCancel), statusReason := Some(CancelSubmittedByUser), lastBlockReason := Some(block),
      cancelledTx := Some(tx))
  }

  ghost function Next(s: System, step: Step): System {
    match step
    case LogObserved(e) => s.(db := Apply(s.db, e))
    case LogRemoved(e) => s.(db := Revert(s.db, e))
    case OrderCreated(id, o) =>
      if id in s.db.orders then s else s.(db := s.db.(orders := s.db.orders[id := o]))
    case CancelRegistered(id, tx, block) =>
      s.(db := Moved(s.db, id, Some(Move(LIVE_STATUSES, CancelPatch(tx, block)))))
    case Scan(w, id) =>
      if At(s, w).Idle? && id in s.db.orders && s.db.orders[id].status == Open
      then s.(workers := s.workers[w := Loaded(id, s.db.orders[id])]) else s
    case Evaluate(w, now, cfg) =>
      if At(s, w).Loaded? then EvaluateLoaded(s, w, At(s, w).id, At(s, w).row, now, cfg) else s
    case Decide(w, a, now, cfg) =>
      (match At(s, w)
       case Claimed(id, d, p, ticket) =>
         s.(workers := s.workers[w := Writing(id, Some(LastMove(true, d, p, cfg, a, now)))],
            sent := if Judge(d, p, cfg, a, now).Submit? then s.sent + [Send(id, ticket)] else s.sent)
       case _ => s)
    case ScanPending(w, id) =>
      if At(s, w).Idle? && id in s.db.orders && s.db.orders[id].status in {PendingExecute, PendingCancel, SubmittingExecute}
      then s.(workers := s.workers[w := Tracking(id, s.db.orders[id])]) else s
    case Reconcile(w, a) =>
      (match At(s, w)
       case Tracking(id, row) =>
         s.(db := Moved(s.db, id, ReconcileMove(row, a)),
            workers := s.workers[w := if Resumes(row) then Resumed(id) else Idle])
       case _ => s)
    case ReadAgain(w, a) =>
      (match At(s, w)
       case Resumed(id) =>
         if id in s.db.orders then s.(workers := s.workers[w := Writing(id, TrackMove(s.db.orders[id], false, a))]) else s
       case _ => s)
    case Write(w) =>
      (match At(s, w)
       case Writing(id, move) => s.(db := Moved(s.db, id, move), workers := s.workers[w := Idle])
       case _ => s)
    case Crash(w) => s.(workers := s.workers[w := Idle])
  }

  function EvaluateLoaded(s: System, w: nat, id: OrderId, row: Order, now: nat, cfg: Config): System {
    var start := Begin(s.db.orders, id, row, now, cfg);
    var begun := s.(db := Moved(s.db, id, FirstMove(start, now)));
    if start.Taken? then
      begun.(workers := s.workers[w := Claimed(id, s.db.orders[id].definition, start.payload, |s.issued|)],
             issued := s.issued + [id])
    else begun.(workers := s.workers[w := Idle])
  }

  ghost function Run(s: System, steps: seq<Step>): System
    decreases |steps|
  {
    if steps == [] then s else Run(Next(s, steps[0]), steps[1..])
  }

  /** What the environment is trusted with: logs as the node sends them, well-formed
      transaction hashes, and orders that are created open and untouched. */
  ghost predicate Trusted(db: Db, step: Step) {
    match step
    case LogObserved(e) => R.Faithful(db, R.Observed(e))
    case LogRemoved(e) => R.Faithful(db, R.Removed(e))
    case OrderCreated(_, o) =>
      o.status == Open && !R.EventReason(o.statusReason)
      && o.executedTx == NO_TX && o.settledAmountOut == 0 && o.settledExecutorFee == 0
    case CancelRegistered(_, tx, _) => tx != NO_TX
    case Decide(_, a, _, _) => a.execute.Answered? ==> a.execute.value != NO_TX
    case _ => true
  }

  ghost predicate TrustedRun(s: System, steps: seq<Step>)
    decreases |steps|
  {
    steps == [] || (Trusted(s.db, steps[0]) && TrustedRun(Next(s, steps[0]), steps[1..]))
  }

  /** Registering a cancel: every column, and no other order. */
  lemma CancelRegisteredColumns(s: System, id: OrderId, tx: TxHash, block: Reason)
    ensures var after := Next(s, CancelRegistered(id, tx, block)).db.orders;
      && after.Keys == s.db.orders.Keys
      && forall k :: k in after ==>
           var o := s.db.orders[k];
           if k != id || Final(o.status) then after[k] == o
           else after[k] == o.(status := PendingCancel, statusReason := CancelSubmittedByUser,
                               lastBlockReason := block, cancelledTx := tx)
  {}

  // ---------------------------------------------------------------- rows

  /** What every stored row satisfies by itself. */
  predicate Sound(o: Order) {
    && (NonceReason(o.statusReason) ==> o.status == Cancelled)
    && (ExecutionReason(o.statusReason) ==> o.status == Executed)
    && (o.statusReason == ConfirmedByChainState ==> Final(o.status))
    && (o.status == PendingExecute ==> o.submittedTx != NO_TX)
    && (o.status == PendingCancel ==> o.cancelledTx != NO_TX)
    && (o.status == SubmittingExecute ==> o.submittedTx == NO_TX)
    && (o.statusReason == ByNonceAfterSubmitting ==> o.submittedTx == NO_TX)
    && (o.status != Executed ==> o.executedTx == NO_TX && o.settledAmountOut == 0 && o.settledExecutorFee == 0)
  }

  /** The event that an executed row with an event reason was closed by. */
  predicate ClosedByExecution(o: Order, e: Event) {
    && o.executedTx == e.txHash && o.settledAmountOut == e.gross && o.settledExecutorFee == e.fee
    && o.lastCheckedBlock == e.block
  }

  predicate ClosedByNonce(o: Order, e: Event) {
    o.cancelledTx == e.txHash && o.lastCheckedBlock == e.block
  }

  ghost predicate Explained(events: map<EventKey, Event>, id: OrderId, o: Order) {
    && (ExecutionReason(o.statusReason) ==> exists e :: e in ExecutedEvents(events, id) && ClosedByExecution(o, e))
    && (NonceReason(o.statusReason) ==> exists e :: e in NonceEventsOf(events, o) && ClosedByNonce(o, e))
  }

  lemma ExecutedRowSound(o: Order, e: Event)
    requires Sound(o)
    ensures var r := AfterExecuted(o, e);
      && Sound(r)
      && (ExecutionReason(r.statusReason) ==> r == o || ClosedByExecution(r, e))
      && (NonceReason(r.statusReason) ==> r == o)
  {}

  lemma NonceRowSound(o: Order, e: Event)
    requires Sound(o)
    ensures var r := AfterNonce(o, e);
      && Sound(r)
      && (ExecutionReason(r.statusReason) ==> r == o)
      && (NonceReason(r.statusReason) ==> r == o || ClosedByNonce(r, e))
  {}

  lemma ExecutedRevertRowSound(o: Order, execution: Option<Event>, nonce: Option<Event>)
    requires Sound(o) && (NonceReason(o.statusReason) ==> nonce.Some?)
    ensures var r := AfterExecutedRevert(o, execution, nonce);
      && Sound(r)
      && (ExecutionReason(r.statusReason) ==> execution.Some? && ClosedByExecution(r, execution.value))
      && (NonceReason(r.statusReason) ==> nonce.Some? && ClosedByNonce(r, nonce.value))
  {}

  lemma NonceRevertRowSound(o: Order, execution: Option<Event>, nonce: Option<Event>)
    requires Sound(o)
    ensures var r := AfterNonceRevert(o, execution, nonce);
      && Sound(r)
      && (ExecutionReason(r.statusReason) ==> r == o || (execution.Some? && ClosedByExecution(r, execution.value)))
      && (NonceReason(r.statusReason) ==> nonce.Some? && ClosedByNonce(r, nonce.value))
  {}

  /** After the update a row in status `s` has a transaction hash fit for it. */
  predicate HashFits(m: Move, s: Status, hash: Option<TxHash>, empty: bool) {
    (if m.patch.status.Some? then m.patch.status.value == s else s in m.allowed) ==>
      if hash.Some? then (hash.value == NO_TX) == empty else m.allowed == {s}
  }

  /** A guarded update that keeps rows sound, claims no event, and spares closed orders. */
  predicate Harmless(m: Move) {
    var p := m.patch;
    && m.allowed <= LIVE_STATUSES
    && p.statusReason.Some? && !ExecutionReason(p.statusReason.value) && !NonceReason(p.statusReason.value)
    && (p.statusReason.value == ConfirmedByChainState ==> p.status.Some? && Final(p.status.value))
    && HashFits(m, PendingExecute, p.submittedTx, false)
    && HashFits(m, PendingCancel, p.cancelledTx, false)
    && HashFits(m, SubmittingExecute, p.submittedTx, true)
    && (p.status != Some(Executed) ==>
          p.executedTx.GetOr(NO_TX) == NO_TX && p.settledAmountOut.GetOr(0) == 0 && p.settledExecutorFee.GetOr(0) == 0)
  }

  lemma HarmlessKeepsSound(o: Order, m: Move)
    requires Sound(o) && Harmless(m) && o.status in m.allowed
    ensures var r := Override(o, m.patch);
      Sound(r) && !ExecutionReason(r.statusReason) && !NonceReason(r.statusReason)
  {}

  lemma ClosingHarmless(d: Definition, p: SettlementOrder, cfg: Config, a: Answers, now: nat)
    requires a.execute.Answered? ==> a.execute.value != NO_TX
    ensures Harmless(LastMove(true, d, p, cfg, a, now))
  {
    ClosingReleasesClaim(d, p, cfg, a, now);
    ClosingReason(d, p, cfg, a, now);
  }

  lemma ClosingReason(d: Definition, p: SettlementOrder, cfg: Config, a: Answers, now: nat)
    ensures var patch := ClosingPatch(Judge(d, p, cfg, a, now), a.execute, now);
      && patch.statusReason.Some? && !ExecutionReason(patch.statusReason.value) && !NonceReason(patch.statusReason.value)
      && (patch.statusReason.value == ConfirmedByChainState ==> Final(patch.status.GetOr(Open)))
      && patch.executedTx.GetOr(NO_TX) == NO_TX && patch.settledAmountOut == None && patch.settledExecutorFee == None
  {
    if a.blockTime.Answered? && p.expiry > a.blockTime.value && a.readiness == Answered(Executable) {
      ExecutableReason(d, p, cfg, a, a.blockTime.value, now);
    }
  }

  lemma ExecutableReason(d: Definition, p: SettlementOrder, cfg: Config, a: Answers, time: nat, now: nat)
    ensures var v := JudgeExecutable(d, p, cfg, a, time, now);
      v.Record? ==>
        && v.patch.statusReason.Some? && v.patch.statusReason.value.Noted?
        && v.patch.executedTx == None && v.patch.settledAmountOut == None && v.patch.settledExecutorFee == None
  {}

  lemma CancelReceiptHarmless(d: Definition, a: PendingAnswers)
    ensures var p := CancelReceiptPatch(d, a); p.Some? ==> Harmless(Move({PendingCancel}, p.value))
  {}

  lemma ExecuteReceiptHarmless(d: Definition, tx: TxHash, a: PendingAnswers)
    ensures var p := ExecuteReceiptPatch(d, tx, a); p.Some? ==> Harmless(Move({PendingExecute}, p.value))
  {}

  lemma TrackHarmless(o: Order, cancel: bool, a: PendingAnswers)
    requires if cancel then o.cancelledTx != NO_TX else o.submittedTx != NO_TX
    ensures var m := TrackMove(o, cancel, a); m.Some? ==> Harmless(m.value) && m.value.patch != LOST_HASH
  {
    if cancel { CancelReceiptHarmless(o.definition, a); } else { ExecuteReceiptHarmless(o.definition, o.submittedTx, a); }
    assert LOST_HASH.cancelledTx.Some? && LOST_HASH.submittedTx.Some? && LOST_HASH.executedTx.None?;
  }

  lemma InterruptedHarmless()
    ensures Harmless(Move({SubmittingExecute}, INTERRUPTED)) && INTERRUPTED != LOST_HASH
  {}

  lemma ReconcileHarmless(o: Order, a: PendingAnswers)
    requires Sound(o) && o.status in {PendingExecute, PendingCancel, SubmittingExecute}
    ensures !Resumes(o)
    ensures ReconcileMove(o, a).Some? ==> Harmless(ReconcileMove(o, a).value)
    ensures ReconcileMove(o, a).Some? ==> ReconcileMove(o, a).value.patch != LOST_HASH
  {
    if o.status == SubmittingExecute { InterruptedHarmless(); } else { TrackHarmless(o, o.status == PendingCancel, a); }
  }

  // ---------------------------------------------------------------- tables

  ghost predicate TablesSound(db: Db) {
    && WellKeyed(db.events)
    && forall id :: id in db.orders ==> Sound(db.orders[id]) && Explained(db.events, id, db.orders[id])
  }

  /** Closed orders keep their status. */
  ghost predicate FinalsKept(db: Db, after: Db) {
    forall id :: id in db.orders && Final(db.orders[id].status) ==>
      id in after.orders && after.orders[id].status == db.orders[id].status
  }

  lemma MovedSound(db: Db, id: OrderId, m: Option<Move>)
    requires TablesSound(db) && (m.Some? ==> Harmless(m.value))
    ensures TablesSound(Moved(db, id, m)) && FinalsKept(db, Moved(db, id, m))
  {
    if id in db.orders && m.Some? { MovedRowSound(db.events, id, db.orders[id], m.value); }
  }

  lemma MovedRowSound(events: map<EventKey, Event>, id: OrderId, o: Order, m: Move)
    requires Sound(o) && Explained(events, id, o) && Harmless(m)
    ensures Sound(Guarded(o, m.allowed, m.patch)) && Explained(events, id, Guarded(o, m.allowed, m.patch))
    ensures Final(o.status) ==> Guarded(o, m.allowed, m.patch) == o
  {
    if o.status in m.allowed { HarmlessKeepsSound(o, m); }
  }

  lemma ObservedRowSound(db: Db, e: Event, id: OrderId)
    requires TablesSound(db) && ApplyOutcome(db, e) == Done && id in db.orders
    ensures var after := Apply(db, e);
      id in after.orders && Sound(after.orders[id]) && Explained(after.events, id, after.orders[id])
  {
    var o, after := db.orders[id], Apply(db, e);
    R.ObservedRow(db, e, id);
    R.InsertedRows(db.events, e, id, o.definition.maker, o.definition.nonce);
    ExecutedRowSound(o, e);
    NonceRowSound(o, e);
    assert e.name == OrderExecuted && id == e.order ==> e in ExecutedEvents(after.events, id);
    assert e.name == NonceInvalidated && Affects(e, o) ==> e in NonceEventsOf(after.events, after.orders[id]);
    assert ExecutionReason(o.statusReason) ==> exists x :: x in ExecutedEvents(after.events, id) && ClosedByExecution(o, x) by {
      if ExecutionReason(o.statusReason) {
        var x :| x in ExecutedEvents(db.events, id) && ClosedByExecution(o, x);
        assert x in ExecutedEvents(after.events, id);
      }
    }
    assert NonceReason(o.statusReason) ==> exists x :: x in NonceEventsOf(after.events, o) && ClosedByNonce(o, x) by {
      if NonceReason(o.statusReason) {
        var x :| x in NonceEventsOf(db.events, o) && ClosedByNonce(o, x);
        assert x in NonceEventsOf(after.events, o);
      }
    }
  }

  lemma ObservedSound(db: Db, e: Event)
    requires TablesSound(db)
    ensures TablesSound(Apply(db, e))
  {
    if ApplyOutcome(db, e) == Done {
      forall id | id in db.orders
        ensures Sound(Apply(db, e).orders[id]) && Explained(Apply(db, e).events, id, Apply(db, e).orders[id])
      {
        ObservedRowSound(db, e, id);
      }
    }
  }

  lemma RemovedRowSound(db: Db, e: Event, id: OrderId)
    requires TablesSound(db) && R.Faithful(db, R.Removed(e)) && e.Key() in db.events && id in db.orders
    ensures var after := Revert(db, e);
      id in after.orders && Sound(after.orders[id]) && Explained(after.events, id, after.orders[id])
  {
    var o, after := db.orders[id], Revert(db, e);
    R.RemovedRow(db, e, id);
    R.DeletedRows(db.events, e, id, o.definition.maker, o.definition.nonce);
    var execution, nonce := Latest(ExecutedEvents(after.events, id)), Latest(NonceEventsOf(after.events, o));
    if e.name == OrderExecuted && id == e.order {
      if NonceReason(o.statusReason) {
        var x :| x in NonceEventsOf(db.events, o) && ClosedByNonce(o, x);
        assert x in NonceEventsOf(after.events, o);
      }
      ExecutedRevertRowSound(o, execution, nonce);
    } else if e.name == NonceInvalidated && Affects(e, o) {
      NonceRevertRowSound(o, execution, nonce);
      WitnessKept(db, e, id);
    } else {
      WitnessKept(db, e, id);
    }
  }

  /** The event behind an executed row outlives the removal of a nonce event, and the
      event behind a cancelled row that of any event that is not its own. */
  lemma WitnessKept(db: Db, e: Event, id: OrderId)
    requires TablesSound(db) && R.Faithful(db, R.Removed(e)) && e.Key() in db.events && id in db.orders
    ensures var o, events := db.orders[id], db.events - {e.Key()};
      && (ExecutionReason(o.statusReason) && !(e.name == OrderExecuted && e.order == id)
          ==> exists x :: x in ExecutedEvents(events, id) && ClosedByExecution(o, x))
      && (NonceReason(o.statusReason) && !(e.name == NonceInvalidated && Affects(e, o))
          ==> exists x :: x in NonceEventsOf(events, o) && ClosedByNonce(o, x))
  {
    var o, events := db.orders[id], db.events - {e.Key()};
    R.DeletedRows(db.events, e, id, o.definition.maker, o.definition.nonce);
    if ExecutionReason(o.statusReason) && !(e.name == OrderExecuted && e.order == id) {
      var x :| x in ExecutedEvents(db.events, id) && ClosedByExecution(o, x);
      assert x in ExecutedEvents(events, id);
    }
    if NonceReason(o.statusReason) && !(e.name == NonceInvalidated && Affects(e, o)) {
      var x :| x in NonceEventsOf(db.events, o) && ClosedByNonce(o, x);
      assert x in NonceEventsOf(events, o);
    }
  }

  lemma RemovedSound(db: Db, e: Event)
    requires TablesSound(db) && R.Faithful(db, R.Removed(e))
    ensures TablesSound(Revert(db, e))
  {
    if e.Key() in db.events {
      forall id | id in db.orders
        ensures Sound(Revert(db, e).orders[id]) && Explained(Revert(db, e).events, id, Revert(db, e).orders[id])
      {
        RemovedRowSound(db, e, id);
      }
      assert Revert(db, e).orders.Keys == db.orders.Keys;
    }
  }

  // ---------------------------------------------------------------- the system

  ghost predicate PlaceSound(p: Place) {
    match p
    case Loaded(_, row) => row.status == Open
    case Tracking(_, row) => Sound(row) && row.status in {PendingExecute, PendingCancel, SubmittingExecute}
    case Resumed(_) => false
    case Writing(_, move) => move.Some? ==> Harmless(move.value)
    case _ => true
  }

  /** Claims and sends: a held ticket is its holder's own, and is spent at most once. */
  ghost predicate TicketsSound(s: System) {
    && (forall w :: w in s.workers && s.workers[w].Claimed? ==>
          var t := s.workers[w].ticket;
          t < |s.issued| && s.issued[t] == s.workers[w].id && forall i :: 0 <= i < |s.sent| ==> s.sent[i].ticket != t)
    && (forall v, w :: v in s.workers && w in s.workers && v != w && s.workers[v].Claimed? && s.workers[w].Claimed?
          ==> s.workers[v].ticket != s.workers[w].ticket)
    && (forall i :: 0 <= i < |s.sent| ==> s.sent[i].ticket < |s.issued| && s.issued[s.sent[i].ticket] == s.sent[i].order)
    && (forall i, j :: 0 <= i < j < |s.sent| ==> s.sent[i].ticket != s.sent[j].ticket)
  }

  ghost predicate SystemSound(s: System) {
    && TablesSound(s.db)
    && (forall w :: w in s.workers ==> PlaceSound(s.workers[w]))
    && TicketsSound(s)
  }

  lemma EvaluateMoves(now: nat)
    ensures Harmless(Move({Open}, PAYLOAD_INVALID)) && Harmless(Move({Open}, ClaimPatch(now)))
  {}

  lemma CancelMove(tx: TxHash, block: Reason)
    requires tx != NO_TX
    ensures Harmless(Move(LIVE_STATUSES, CancelPatch(tx, block)))
  {}

  /** Every step keeps the tables sound, and only a removed log reopens a closed order. */
  lemma StepKeepsTables(s: System, step: Step)
    requires SystemSound(s) && Trusted(s.db, step)
    ensures TablesSound(Next(s, step).db)
    ensures !step.LogRemoved? ==> FinalsKept(s.db, Next(s, step).db)
  {
    match step
    case LogObserved(e) =>
      ObservedSound(s.db, e);
      ObservedKeepsFinal(s.db, e);
    case LogRemoved(e) => RemovedSound(s.db, e);
    case OrderCreated(id, o) =>
      if id !in s.db.orders { CreatedSound(s.db, id, o); }
    case CancelRegistered(id, tx, block) =>
      CancelMove(tx, block);
      MovedSound(s.db, id, Some(Move(LIVE_STATUSES, CancelPatch(tx, block))));
    case Evaluate(w, now, cfg) =>
      if At(s, w).Loaded? { EvaluateKeepsTables(s, w, At(s, w).id, At(s, w).row, now, cfg); }
    case Reconcile(w, a) =>
      if At(s, w).Tracking? { ReconcileKeepsTables(s.db, At(s, w).id, At(s, w).row, a); }
    case Write(w) =>
      if At(s, w).Writing? { MovedSound(s.db, At(s, w).id, At(s, w).move); }
    case _ =>
  }

  lemma CreatedSound(db: Db, id: OrderId, o: Order)
    requires TablesSound(db) && id !in db.orders
    requires o.status == Open && !R.EventReason(o.statusReason)
    requires o.executedTx == NO_TX && o.settledAmountOut == 0 && o.settledExecutorFee == 0
    ensures TablesSound(db.(orders := db.orders[id := o])) && FinalsKept(db, db.(orders := db.orders[id := o]))
  {}

  lemma EvaluateKeepsTables(s: System, w: nat, id: OrderId, row: Order, now: nat, cfg: Config)
    requires TablesSound(s.db)
    ensures var after := EvaluateLoaded(s, w, id, row, now, cfg).db; TablesSound(after) && FinalsKept(s.db, after)
  {
    EvaluateMoves(now);
    MovedSound(s.db, id, FirstMove(Begin(s.db.orders, id, row, now, cfg), now));
  }

  lemma ReconcileKeepsTables(db: Db, id: OrderId, row: Order, a: PendingAnswers)
    requires TablesSound(db) && Sound(row) && row.status in {PendingExecute, PendingCancel, SubmittingExecute}
    ensures var after := Moved(db, id, ReconcileMove(row, a)); TablesSound(after) && FinalsKept(db, after)
  {
    ReconcileHarmless(row, a);
    MovedSound(db, id, ReconcileMove(row, a));
  }

  lemma ObservedKeepsFinal(db: Db, e: Event)
    ensures FinalsKept(db, Apply(db, e))
  {}

  lemma StepKeepsPlaces(s: System, step: Step)
    requires SystemSound(s) && Trusted(s.db, step)
    ensures forall w :: w in Next(s, step).workers ==> PlaceSound(Next(s, step).workers[w])
  {
    match step
    case Decide(w, a, now, cfg) =>
      if At(s, w).Claimed? { ClosingHarmless(At(s, w).definition, At(s, w).payload, cfg, a, now); }
    case Reconcile(w, a) =>
      if At(s, w).Tracking? { ReconcileHarmless(At(s, w).row, a); }
    case _ =>
  }

  lemma StepKeepsTickets(s: System, step: Step)
    requires TicketsSound(s)
    ensures TicketsSound(Next(s, step))
  {
    match step
    case Evaluate(w, now, cfg) =>
      if At(s, w).Loaded? { EvaluateKeepsTickets(s, w, now, cfg); }
    case Decide(w, a, now, cfg) =>
      if At(s, w).Claimed? { SpentTicket(s, Next(s, step), w); }
    case _ =>
      NoNewTicket(s, Next(s, step));
  }

  lemma EvaluateKeepsTickets(s: System, w: nat, now: nat, cfg: Config)
    requires TicketsSound(s) && At(s, w).Loaded?
    ensures TicketsSound(EvaluateLoaded(s, w, At(s, w).id, At(s, w).row, now, cfg))
  {
    var next := EvaluateLoaded(s, w, At(s, w).id, At(s, w).row, now, cfg);
    if next.issued == s.issued { NoNewTicket(s, next); } else { IssuedTicket(s, next, w); }
  }

  lemma NoNewTicket(s: System, next: System)
    requires TicketsSound(s) && next.issued == s.issued && next.sent == s.sent
    requires forall w :: w in next.workers && next.workers[w].Claimed? ==> w in s.workers && s.workers[w] == next.workers[w]
    ensures TicketsSound(next)
  {}

  lemma IssuedTicket(s: System, next: System, w: nat)
    requires TicketsSound(s) && w in next.workers && next.workers == s.workers[w := next.workers[w]] && next.sent == s.sent
    requires next.workers[w].Claimed? && next.workers[w].ticket == |s.issued| && next.issued == s.issued + [next.workers[w].id]
    ensures TicketsSound(next)
  {}

  lemma SpentTicket(s: System, next: System, w: nat)
    requires TicketsSound(s) && w in s.workers && s.workers[w].Claimed?
    requires w in next.workers && next.workers == s.workers[w := next.workers[w]] && !next.workers[w].Claimed?
    requires next.issued == s.issued && (next.sent == s.sent || next.sent == s.sent + [Send(s.workers[w].id, s.workers[w].ticket)])
    ensures TicketsSound(next)
  {}

  lemma {:induction false} RunSound(s: System, steps: seq<Step>)
    requires SystemSound(s) && TrustedRun(s, steps)
    ensures SystemSound(Run(s, steps))
    decreases |steps|
  {
    if steps != [] {
      StepKeepsTables(s, steps[0]);
      StepKeepsPlaces(s, steps[0]);
      StepKeepsTickets(s, steps[0]);
      RunSound(Next(s, steps[0]), steps[1..]);
    }
  }

  lemma ReachableSound(steps: seq<Step>)
    requires TrustedRun(START, steps)
    ensures SystemSound(Run(START, steps))
  {
    RunSound(START, steps);
  }

  // ---------------------------------------------------------------- what holds in every reachable state

  /** Provenance: an executed row that gives an event as its reason carries the data of a
      live OrderExecuted of its own, a cancelled one that of a live NonceInvalidated of its
      maker and nonce, and only executed rows carry settlement data. */
  lemma Provenance(steps: seq<Step>, id: OrderId)
    requires TrustedRun(START, steps) && id in Run(START, steps).db.orders
    ensures var events, o := Run(START, steps).db.events, Run(START, steps).db.orders[id];
      && (o.status == Executed && ExecutionReason(o.statusReason) ==>
            exists e :: e in ExecutedEvents(events, id) && e.txHash == o.executedTx
                     && e.gross == o.settledAmountOut && e.fee == o.settledExecutorFee && e.block == o.lastCheckedBlock)
      && (o.status == Cancelled && NonceReason(o.statusReason) ==>
            exists e :: e in NonceEventsOf(events, o) && e.txHash == o.cancelledTx && e.block == o.lastCheckedBlock)
      && (o.status != Executed ==> o.executedTx == NO_TX && o.settledAmountOut == 0 && o.settledExecutorFee == 0)
  {
    ReachableSound(steps);
    var events, o := Run(START, steps).db.events, Run(START, steps).db.orders[id];
    if ExecutionReason(o.statusReason) {
      var e :| e in ExecutedEvents(events, id) && ClosedByExecution(o, e);
    }
    if NonceReason(o.statusReason) {
      var e :| e in NonceEventsOf(events, o) && ClosedByNonce(o, e);
    }
  }

  /** A pending order keeps the hash it is tracked by, and a claimed order has none yet:
      the receipt loop never finds a lost hash and never resumes a submission. */
  lemma PendingOrdersKeepEvidence(steps: seq<Step>, id: OrderId, w: nat, a: PendingAnswers)
    requires TrustedRun(START, steps)
    ensures var s := Run(START, steps);
      && (id in s.db.orders ==>
            var o := s.db.orders[id];
            && (o.status == PendingExecute ==> o.submittedTx != NO_TX)
            && (o.status == PendingCancel ==> o.cancelledTx != NO_TX)
            && (o.status == SubmittingExecute ==> o.submittedTx == NO_TX))
      && !At(s, w).Resumed?
      && (At(s, w).Tracking? ==>
            var move := ReconcileMove(At(s, w).row, a);
            !Resumes(At(s, w).row) && (move.Some? ==> move.value.patch != LOST_HASH))
  {
    ReachableSound(steps);
    var s := Run(START, steps);
    if At(s, w).Tracking? { ReconcileHarmless(At(s, w).row, a); }
  }

  // ---------------------------------------------------------------- executed while the execution is live

  /** Executed rows and live executions agree, and an execution's order is there. */
  ghost predicate Consistent(db: Db) {
    && R.Agrees(db)
    && forall k :: k in db.events && db.events[k].name == OrderExecuted ==> db.events[k].order in db.orders
  }

  /** No OrderExecuted is applied to an order that stands cancelled. */
  ghost predicate SparesCancelled(db: Db, step: Step) {
    step.LogObserved? && R.Executes(db, R.Observed(step.event)) ==> db.orders[step.event.order].status != Cancelled
  }

  ghost predicate SparingRun(s: System, steps: seq<Step>)
    decreases |steps|
  {
    steps == [] || (SparesCancelled(s.db, steps[0]) && SparingRun(Next(s, steps[0]), steps[1..]))
  }

  lemma KeptAgrees(db: Db, after: Db)
    requires Consistent(db) && FinalsKept(db, after)
    requires after.events == db.events && db.orders.Keys <= after.orders.Keys
    ensures Consistent(after)
  {
    forall id | id in after.orders && R.LiveExecution(after, id) ensures after.orders[id].status == Executed {
      var e :| e in ExecutedEvents(db.events, id);
      assert id in db.orders && R.LiveExecution(db, id);
    }
  }

  lemma ObservedAgrees(db: Db, e: Event)
    requires Consistent(db)
    ensures !R.Executes(db, R.Observed(e)) || db.orders[e.order].status != Cancelled <==> Consistent(Apply(db, e))
  {
    if ApplyOutcome(db, e) == Done {
      forall id | id in db.orders
        ensures id in Apply(db, e).orders
        ensures !(e.name == OrderExecuted && id == e.order && db.orders[id].status == Cancelled)
          <==> (R.LiveExecution(Apply(db, e), id) ==> Apply(db, e).orders[id].status == Executed)
      {
        R.ObservedRow(db, e, id);
        ObservedRowAgrees(db.orders[id], e);
      }
    }
  }

  lemma ObservedRowAgrees(o: Order, e: Event)
    ensures AfterExecuted(o, e).status == (if o.status == Cancelled then Cancelled else Executed)
    ensures o.status == Executed ==> AfterNonce(o, e).status == Executed
  {}

  lemma RemovedAgrees(db: Db, e: Event)
    requires Consistent(db) && WellKeyed(db.events) && R.Faithful(db, R.Removed(e))
    ensures Consistent(Revert(db, e))
  {
    if e.Key() in db.events {
      forall id | id in db.orders
        ensures id in Revert(db, e).orders
        ensures R.LiveExecution(Revert(db, e), id) ==> Revert(db, e).orders[id].status == Executed
      {
        R.RemovedRow(db, e, id);
        var execution, nonce := Latest(ExecutedEvents(Revert(db, e).events, id)),
                                Latest(NonceEventsOf(Revert(db, e).events, db.orders[id]));
        RemovedRowAgrees(db.orders[id], execution, nonce);
        assert R.LiveExecution(Revert(db, e), id) ==> R.LiveExecution(db, id);
      }
    }
  }

  lemma RemovedRowAgrees(o: Order, execution: Option<Event>, nonce: Option<Event>)
    ensures execution.Some? ==> AfterExecutedRevert(o, execution, nonce).status == Executed
    ensures o.status == Executed ==> AfterNonceRevert(o, execution, nonce).status == Executed
  {}

  lemma StepKeepsAgreement(s: System, step: Step)
    requires SystemSound(s) && Trusted(s.db, step) && Consistent(s.db) && SparesCancelled(s.db, step)
    ensures Consistent(Next(s, step).db)
  {
    match step
    case LogObserved(e) => ObservedAgrees(s.db, e);
    case LogRemoved(e) => RemovedAgrees(s.db, e);
    case _ =>
      StepKeepsTables(s, step);
      OnlyLogsChangeEvents(s, step);
      KeptAgrees(s.db, Next(s, step).db);
  }

  lemma OnlyLogsChangeEvents(s: System, step: Step)
    requires !step.LogObserved? && !step.LogRemoved?
    ensures Next(s, step).db.events == s.db.events && s.db.orders.Keys <= Next(s, step).db.orders.Keys
  {}

  lemma {:induction false} RunAgrees(s: System, steps: seq<Step>)
    requires SystemSound(s) && Consistent(s.db) && TrustedRun(s, steps) && SparingRun(s, steps)
    ensures Consistent(Run(s, steps).db)
    decreases |steps|
  {
    if steps != [] {
      StepKeepsAgreement(s, steps[0]);
      StepKeepsTables(s, steps[0]);
      StepKeepsPlaces(s, steps[0]);
      StepKeepsTickets(s, steps[0]);
      RunAgrees(Next(s, steps[0]), steps[1..]);
    }
  }

  /** The converse of provenance, whatever workers and users commit: while an OrderExecuted
      of it is live an order is executed, in every run in which none is applied to a
      cancelled order; and the first one that is breaks this. */
  lemma {:induction false} ExecutedWhileLive(steps: seq<Step>, id: OrderId, e: Event)
    requires TrustedRun(START, steps) && SparingRun(START, steps)
    ensures var s := Run(START, steps);
      && (id in s.db.orders && R.LiveExecution(s.db, id) ==> s.db.orders[id].status == Executed)
      && (SparesCancelled(s.db, LogObserved(e)) <==> Consistent(Next(s, LogObserved(e)).db))
  {
    RunAgrees(START, steps);
    ObservedAgrees(Run(START, steps).db, e);
  }

  // ---------------------------------------------------------------- final while the nonce event is live

  /** Orders whose nonce stands invalidated are final. */
  ghost predicate NonceConsistent(db: Db) {
    forall id :: id in db.orders && R.LiveNonce(db, id) ==> Final(db.orders[id].status)
  }

  /** No order is created under a nonce that stands invalidated. */
  ghost predicate CreatesUnused(db: Db, step: Step) {
    step.OrderCreated? && step.id !in db.orders ==> NonceEventsOf(db.events, step.order) == {}
  }

  ghost predicate UnusedRun(s: System, steps: seq<Step>)
    decreases |steps|
  {
    steps == [] || (CreatesUnused(s.db, steps[0]) && UnusedRun(Next(s, steps[0]), steps[1..]))
  }

  lemma ObservedKeepsNonces(db: Db, e: Event)
    requires NonceConsistent(db)
    ensures NonceConsistent(Apply(db, e))
  {
    if ApplyOutcome(db, e) == Done {
      forall id | id in db.orders
        ensures id in Apply(db, e).orders && (R.LiveNonce(Apply(db, e), id) ==> Final(Apply(db, e).orders[id].status))
      {
        R.ObservedRow(db, e, id);
        ObservedRowFinal(db.orders[id], e);
      }
    }
  }

  lemma ObservedRowFinal(o: Order, e: Event)
    ensures Final(AfterNonce(o, e).status)
    ensures Final(o.status) ==> Final(AfterExecuted(o, e).status)
  {}

  lemma RemovedKeepsNonces(db: Db, e: Event)
    requires NonceConsistent(db) && WellKeyed(db.events) && R.Faithful(db, R.Removed(e))
    ensures NonceConsistent(Revert(db, e))
  {
    if e.Key() in db.events {
      forall id | id in db.orders
        ensures id in Revert(db, e).orders && (R.LiveNonce(Revert(db, e), id) ==> Final(Revert(db, e).orders[id].status))
      {
        R.RemovedRow(db, e, id);
        var events := Revert(db, e).events;
        RemovedRowFinal(db.orders[id], Latest(ExecutedEvents(events, id)), Latest(NonceEventsOf(events, db.orders[id])));
      }
    }
  }

  lemma RemovedRowFinal(o: Order, execution: Option<Event>, nonce: Option<Event>)
    ensures nonce.Some? ==> Final(AfterExecutedRevert(o, execution, nonce).status)
    ensures nonce.Some? && Final(o.status) ==> Final(AfterNonceRevert(o, execution, nonce).status)
  {}

  lemma CreatedKeepsNoncesExactly(db: Db, id: OrderId, o: Order)
    requires NonceConsistent(db) && id !in db.orders && o.status == Open
    ensures NonceConsistent(db.(orders := db.orders[id := o])) <==> NonceEventsOf(db.events, o) == {}
  {
    var after := db.(orders := db.orders[id := o]);
    assert R.LiveNonce(after, id) <==> NonceEventsOf(db.events, o) != {};
    forall k | k in db.orders ensures R.LiveNonce(after, k) <==> R.LiveNonce(db, k) {}
  }

  lemma KeptNonces(db: Db, after: Db)
    requires NonceConsistent(db) && FinalsKept(db, after) && after.events == db.events && after.orders.Keys == db.orders.Keys
    requires forall id :: id in db.orders ==> after.orders[id].definition == db.orders[id].definition
    ensures NonceConsistent(after)
  {
    forall id | id in after.orders && R.LiveNonce(after, id) ensures Final(after.orders[id].status) {
      assert R.LiveNonce(db, id);
    }
  }

  lemma OnlyCreationAddsOrders(s: System, step: Step)
    requires !step.LogObserved? && !step.LogRemoved? && !step.OrderCreated?
    ensures var db, after := s.db, Next(s, step).db;
      && after.events == db.events && after.orders.Keys == db.orders.Keys
      && forall id :: id in db.orders ==> after.orders[id].definition == db.orders[id].definition
  {}

  lemma StepKeepsNonces(s: System, step: Step)
    requires SystemSound(s) && Trusted(s.db, step) && NonceConsistent(s.db) && CreatesUnused(s.db, step)
    ensures NonceConsistent(Next(s, step).db)
  {
    match step
    case LogObserved(e) => ObservedKeepsNonces(s.db, e);
    case LogRemoved(e) => RemovedKeepsNonces(s.db, e);
    case OrderCreated(id, o) =>
      if id !in s.db.orders { CreatedKeepsNoncesExactly(s.db, id, o); }
    case _ =>
      StepKeepsTables(s, step);
      OnlyCreationAddsOrders(s, step);
      KeptNonces(s.db, Next(s, step).db);
  }

  lemma {:induction false} RunKeepsNonces(s: System, steps: seq<Step>)
    requires SystemSound(s) && NonceConsistent(s.db) && TrustedRun(s, steps) && UnusedRun(s, steps)
    ensures SystemSound(Run(s, steps)) && NonceConsistent(Run(s, steps).db)
    decreases |steps|
  {
    if steps != [] {
      StepKeepsNonces(s, steps[0]);
      StepKeepsTables(s, steps[0]);
      StepKeepsPlaces(s, steps[0]);
      StepKeepsTickets(s, steps[0]);
      RunKeepsNonces(Next(s, steps[0]), steps[1..]);
    }
  }

  /** Whatever workers and users commit, an order is final while a NonceInvalidated of its
      maker and nonce is live, in every run in which no order is created under a nonce that
      stands invalidated; and creating one is exactly what breaks this. */
  lemma {:induction false} FinalWhileNonceLive(steps: seq<Step>, id: OrderId, created: OrderId, o: Order)
    requires TrustedRun(START, steps) && UnusedRun(START, steps)
    requires created !in Run(START, steps).db.orders && o.status == Open
    ensures var s := Run(START, steps);
      && (id in s.db.orders && R.LiveNonce(s.db, id) ==> Final(s.db.orders[id].status))
      && (NonceConsistent(Next(s, OrderCreated(created, o)).db) <==> NonceEventsOf(s.db.events, o) == {})
  {
    RunKeepsNonces(START, steps);
    CreatedKeepsNoncesExactly(Run(START, steps).db, created, o);
  }

  // ---------------------------------------------------------------- whole passes of a worker

  /** A step that worker w does not take. */
  predicate ByOthers(step: Step, w: nat) {
    match step
    case Scan(v, _) => v != w
    case Evaluate(v, _, _) => v != w
    case Decide(v, _, _, _) => v != w
    case ScanPending(v, _) => v != w
    case Reconcile(v, _) => v != w
    case ReadAgain(v, _) => v != w
    case Write(v) => v != w
    case Crash(v) => v != w
    case _ => true
  }

  lemma {:induction false} OthersLeavePlace(s: System, steps: seq<Step>, w: nat)
    requires forall i :: 0 <= i < |steps| ==> ByOthers(steps[i], w)
    ensures At(Run(s, steps), w) == At(s, w)
    decreases |steps|
  {
    if steps != [] {
      assert ByOthers(steps[0], w);
      assert At(Next(s, steps[0]), w) == At(s, w);
      OthersLeavePlace(Next(s, steps[0]), steps[1..], w);
    }
  }

  /** One worker's evaluation, with steps of others between its own: the worker's three steps
      have the effect that the contract of EvaluateOrder names, and send what it sends. */
  lemma EvaluationInSteps(s: System, w: nat, now: nat, cfg: Config, between: seq<Step>, a: Answers, later: seq<Step>)
    requires At(s, w).Loaded? && PlaceSound(At(s, w))
    requires forall i :: 0 <= i < |between| ==> ByOthers(between[i], w)
    requires forall i :: 0 <= i < |later| ==> ByOthers(later[i], w)
    ensures var id, row := At(s, w).id, At(s, w).row;
      var start := Begin(s.db.orders, id, row, now, cfg);
      var begun := Next(s, Evaluate(w, now, cfg));
      && !start.Unclaimed?
      && begun.db.orders == Updated(s.db.orders, id, FirstMove(start, now))
      && (!start.Taken? ==> At(begun, w).Idle? && begun.issued == s.issued)
      && (start.Taken? ==>
            var asked := Run(begun, between);
            var decided := Next(asked, Decide(w, a, now, cfg));
            var others := Run(decided, later);
            var d := s.db.orders[id].definition;
            && begun.issued == s.issued + [id]
            && decided.sent == asked.sent + (if Judge(d, start.payload, cfg, a, now).Submit? then [Send(id, |s.issued|)] else [])
            && Next(others, Write(w)).db.orders
                 == Updated(others.db.orders, id, Some(LastMove(true, d, start.payload, cfg, a, now)))
            && At(Next(others, Write(w)), w).Idle?)
  {
    EvaluationBegins(s, w, now, cfg);
    if At(Next(s, Evaluate(w, now, cfg)), w).Claimed? {
      EvaluationEnds(Next(s, Evaluate(w, now, cfg)), w, now, cfg, between, a, later);
    }
  }

  lemma EvaluationEnds(s: System, w: nat, now: nat, cfg: Config, between: seq<Step>, a: Answers, later: seq<Step>)
    requires At(s, w).Claimed?
    requires forall i :: 0 <= i < |between| ==> ByOthers(between[i], w)
    requires forall i :: 0 <= i < |later| ==> ByOthers(later[i], w)
    ensures var p, asked := At(s, w), Run(s, between);
      var decided := Next(asked, Decide(w, a, now, cfg));
      var others := Run(decided, later);
      && decided.sent == asked.sent + (if Judge(p.definition, p.payload, cfg, a, now).Submit? then [Send(p.id, p.ticket)] else [])
      && Next(others, Write(w)).db.orders
           == Updated(others.db.orders, p.id, Some(LastMove(true, p.definition, p.payload, cfg, a, now)))
      && At(Next(others, Write(w)), w).Idle?
  {
    var asked := Run(s, between);
    OthersLeavePlace(s, between, w);
    EvaluationDecides(asked, w, a, now, cfg);
    OthersLeavePlace(Next(asked, Decide(w, a, now, cfg)), later, w);
    WriteMoves(Run(Next(asked, Decide(w, a, now, cfg)), later), w);
  }

  lemma WriteMoves(s: System, w: nat)
    requires At(s, w).Writing?
    ensures var after := Next(s, Write(w));
      after.db.orders == Updated(s.db.orders, At(s, w).id, At(s, w).move) && At(after, w).Idle?
  {}

  lemma EvaluationBegins(s: System, w: nat, now: nat, cfg: Config)
    requires At(s, w).Loaded? && PlaceSound(At(s, w))
    ensures var id := At(s, w).id;
      var start := Begin(s.db.orders, id, At(s, w).row, now, cfg);
      var begun := Next(s, Evaluate(w, now, cfg));
      && !start.Unclaimed?
      && begun.db.orders == Updated(s.db.orders, id, FirstMove(start, now))
      && (if start.Taken? then
            && id in s.db.orders && begun.issued == s.issued + [id]
            && At(begun, w) == Claimed(id, s.db.orders[id].definition, start.payload, |s.issued|)
          else At(begun, w).Idle? && begun.issued == s.issued)
  {}

  lemma EvaluationDecides(s: System, w: nat, a: Answers, now: nat, cfg: Config)
    requires At(s, w).Claimed?
    ensures var p := At(s, w);
      var decided := Next(s, Decide(w, a, now, cfg));
      && At(decided, w) == Writing(p.id, Some(LastMove(true, p.definition, p.payload, cfg, a, now)))
      && decided.sent == s.sent + (if Judge(p.definition, p.payload, cfg, a, now).Submit? then [Send(p.id, p.ticket)] else [])
  {}

  /** The worker's own code, run on the tables that its three steps meet, leaves the orders
      that the last of them leaves. */
  method EvaluateAsSteps(worker: E.Worker, tables: Tables, ghost s: System, w: nat, id: OrderId, row: Order, now: nat,
                         ghost between: seq<Step>, a: Answers, ghost later: seq<Step>)
    returns (claimed: bool, submitted: Option<Verdict>)
    requires At(s, w) == Loaded(id, row) && row.status == Open
    requires forall i :: 0 <= i < |between| ==> ByOthers(between[i], w)
    requires forall i :: 0 <= i < |later| ==> ByOthers(later[i], w)
    requires worker.db.Valid() && worker.db.Flat() == s.db.orders && id in s.db.orders && tables.Holds(id)
    requires var decided := Next(Run(Next(s, Evaluate(w, now, worker.cfg)), between), Decide(w, a, now, worker.cfg));
      tables.Flat() == Run(decided, later).db.orders
    modifies worker.db
    ensures var begun := Next(s, Evaluate(w, now, worker.cfg));
      var decided := Next(Run(begun, between), Decide(w, a, now, worker.cfg));
      && claimed == At(begun, w).Claimed?
      && (claimed ==> |decided.sent| == |Run(begun, between).sent| + if submitted.Some? then 1 else 0)
      && worker.db.Flat() == if claimed then Next(Run(decided, later), Write(w)).db.orders else begun.db.orders
  {
    EvaluationInSteps(s, w, now, worker.cfg, between, a, later);
    claimed, submitted := worker.EvaluateOrder(id, row, now, a, tables);
  }

  /** What a pass of the receipt loop over a row read as pending execution makes of the row as
      it stands: every column. */
  ghost predicate ExecuteSettled(o: Order, after: Order, row: Order, a: PendingAnswers) {
    var expiry := ParsePositive(row.definition.expiry);
    var mined := a.receipt.Receipt? && a.receipt.success;
    var reverted := a.receipt.Receipt? && !a.receipt.success;
    var lapsed := a.blockTime.Answered? && expiry.Some? && expiry.value <= a.blockTime.value;
    var block := if a.receipt.Receipt? then a.receipt.block else o.lastCheckedBlock;
    var pending := a.receipt.NoReceipt? && a.known == Answered(true);
    if o.status != PendingExecute then after == o
    else
      && (after.status == Executed <==> mined && a.executed == Answered(true))
      && (after.status == Expired <==> reverted && lapsed)
      && (after.status == Open <==> (reverted && !lapsed) || (a.receipt.NoReceipt? && a.known == Answered(false)))
      && row.submittedTx != NO_TX
      && match after.status
         case Executed => after == o.(status := Executed, statusReason := ConfirmedByChainState, lastBlockReason := NoReason,
           submittedTx := NO_TX, cancelledTx := NO_TX, executedTx := row.submittedTx, lastCheckedBlock := block,
           settledAmountOut := if a.settled.Some? then a.settled.value.gross else o.settledAmountOut,
           settledExecutorFee := if a.settled.Some? then a.settled.value.fee else o.settledExecutorFee)
         case Expired => after == o.(status := Expired, statusReason := Noted(ExpiredAfterRevert),
           lastBlockReason := OrderExpired, submittedTx := NO_TX, lastCheckedBlock := block)
         case Open => after == o.(status := Open, statusReason := after.statusReason, lastBlockReason := after.statusReason,
             submittedTx := NO_TX, lastCheckedBlock := block)
           && after.statusReason == Noted(if a.receipt.NoReceipt? then SubmittedTxMissing
                                          else if a.blockTime.Answered? && expiry.None? then InvalidExpiryInRecord
                                          else TxReverted)
         case PendingExecute => after == (
           if mined && a.executed == Answered(false) then o.(statusReason := Noted(TxWaitingForIndexer), lastBlockReason := NoReason, lastCheckedBlock := block)
           else if pending then o.(statusReason := Noted(TxPendingOnChain), lastBlockReason := Noted(TxPendingOnChain))
           else o)
         case _ => false
  }

  ghost predicate CancelSettled(o: Order, after: Order, row: Order, a: PendingAnswers) {
    var nonce := ParseNonNegative(row.definition.nonce).Some?;
    var lost := a.receipt.NoReceipt? && a.known == Answered(false);
    var mined := a.receipt.Receipt? && a.receipt.success;
    var reverted := a.receipt.Receipt? && !a.receipt.success;
    var block := if a.receipt.Receipt? then a.receipt.block else o.lastCheckedBlock;
    var pending := a.receipt.NoReceipt? && a.known == Answered(true);
    if o.status != PendingCancel then after == o
    else
      && (after.status == Cancelled <==>
            if nonce then (lost || a.receipt.Receipt?) && a.invalidated == Answered(true) else mined)
      && (after.status == Open <==>
            || (lost && (!nonce || a.invalidated == Answered(false)))
            || (reverted && (!nonce || a.invalidated != Answered(true))))
      && match after.status
         case Cancelled => after == o.(status := Cancelled, lastBlockReason := NoReason, submittedTx := NO_TX,
           statusReason := if nonce then ConfirmedByChainState else Noted(ConfirmedWithInvalidNonce),
           executedTx := NO_TX, lastCheckedBlock := block)
         case Open => after == o.(status := Open, statusReason := after.statusReason, lastBlockReason := after.statusReason,
             cancelledTx := NO_TX, lastCheckedBlock := block)
           && after.statusReason == Noted(if !nonce then InvalidNonceInRecord
                                          else if lost then CancelTxMissing else CancelTxReverted)
         case PendingCancel => after == (
           if mined && a.invalidated == Answered(false) then o.(statusReason := Noted(CancelWaitingForIndexer), lastBlockReason := NoReason, lastCheckedBlock := block)
           else if pending then o.(statusReason := Noted(CancelTxPendingOnChain), lastBlockReason := Noted(CancelTxPendingOnChain))
           else o)
         case _ => false
  }

  function Reconciled(o: Order, row: Order, a: PendingAnswers): Order {
    var move := ReconcileMove(row, a);
    if move.None? then o else Guarded(o, move.value.allowed, move.value.patch)
  }

  lemma ExecuteRowSettles(o: Order, row: Order, a: PendingAnswers)
    requires row.status == PendingExecute && row.submittedTx != NO_TX
    ensures ExecuteSettled(o, Reconciled(o, row, a), row, a)
  {}

  lemma CancelRowSettles(o: Order, row: Order, a: PendingAnswers)
    requires row.status == PendingCancel && row.cancelledTx != NO_TX
    ensures CancelSettled(o, Reconciled(o, row, a), row, a)
  {}

  /** How tracking a pending transaction ends, from every reachable state: other orders stay
      as they are, the order stays as it is if its status has moved since it was read, and
      otherwise it leaves its status exactly on the chain's word. */
  lemma {:induction false} PendingSettlesExactly(steps: seq<Step>, w: nat, a: PendingAnswers)
    requires TrustedRun(START, steps) && At(Run(START, steps), w).Tracking?
    ensures var s := Run(START, steps);
      var id, row, after := At(s, w).id, At(s, w).row, Next(s, Reconcile(w, a)).db.orders;
      && after.Keys == s.db.orders.Keys
      && (forall k :: k in after && k != id ==> after[k] == s.db.orders[k])
      && (id in after && row.status == PendingExecute ==> ExecuteSettled(s.db.orders[id], after[id], row, a))
      && (id in after && row.status == PendingCancel ==> CancelSettled(s.db.orders[id], after[id], row, a))
  {
    ReachableSound(steps);
    var s := Run(START, steps);
    assert Next(s, Reconcile(w, a)).db.orders == Updated(s.db.orders, At(s, w).id, ReconcileMove(At(s, w).row, a));
    ReconcileSettles(s.db.orders, At(s, w).id, At(s, w).row, a);
  }

  /** The whole pass: an idle worker finds every pending order, and settles it if no one has
      moved it since. */
  lemma {:induction false} PendingPassSettles(steps: seq<Step>, w: nat, id: OrderId, a: PendingAnswers)
    requires TrustedRun(START, steps) && At(Run(START, steps), w).Idle? && id in Run(START, steps).db.orders
    ensures var s := Run(START, steps);
      var o, after := s.db.orders[id], Next(Next(s, ScanPending(w, id)), Reconcile(w, a)).db.orders;
      && after.Keys == s.db.orders.Keys
      && match o.status
         case PendingExecute => ExecuteSettled(o, after[id], o, a)
         case PendingCancel => CancelSettled(o, after[id], o, a)
         case SubmittingExecute => after[id] == o.(status := Open, statusReason := Noted(SubmissionInterrupted),
           lastBlockReason := Noted(SubmissionInterrupted), submittedTx := NO_TX, executedTx := NO_TX, cancelledTx := NO_TX)
         case _ => after[id] == o
  {
    ReachableSound(steps);
    var s := Run(START, steps);
    var o := s.db.orders[id];
    var scanned := Next(s, ScanPending(w, id));
    assert scanned.db == s.db;
    if o.status in {PendingExecute, PendingCancel, SubmittingExecute} {
      assert At(scanned, w) == Tracking(id, o);
      assert Next(scanned, Reconcile(w, a)).db.orders == Updated(s.db.orders, id, ReconcileMove(o, a));
      ReconcileSettles(s.db.orders, id, o, a);
    }
  }

  lemma ReconcileSettles(orders: map<OrderId, Order>, id: OrderId, row: Order, a: PendingAnswers)
    requires Sound(row)
    ensures var after := Updated(orders, id, ReconcileMove(row, a));
      && after.Keys == orders.Keys
      && (forall k :: k in after && k != id ==> after[k] == orders[k])
      && (id in after && row.status == PendingExecute ==> ExecuteSettled(orders[id], after[id], row, a))
      && (id in after && row.status == PendingCancel ==> CancelSettled(orders[id], after[id], row, a))
  {
    if id in orders {
      if row.status == PendingExecute { ExecuteRowSettles(orders[id], row, a); }
      if row.status == PendingCancel { CancelRowSettles(orders[id], row, a); }
      ReconcileUpdates(orders, id, row, a);
    }
  }

  lemma ReconcileUpdates(orders: map<OrderId, Order>, id: OrderId, row: Order, a: PendingAnswers)
    requires id in orders
    ensures Updated(orders, id, ReconcileMove(row, a)) == orders[id := Reconciled(orders[id], row, a)]
  {}

  // ---------------------------------------------------------------- finality

  /** Finality: from any reachable state, as long as no log is removed, a closed order keeps its status. */
  lemma OnlyRevertReopens(steps: seq<Step>, more: seq<Step>, id: OrderId)
    requires TrustedRun(START, steps) && TrustedRun(Run(START, steps), more)
    requires forall i :: 0 <= i < |more| ==> !more[i].LogRemoved?
    requires id in Run(START, steps).db.orders && Final(Run(START, steps).db.orders[id].status)
    ensures var later := Run(Run(START, steps), more);
      id in later.db.orders && later.db.orders[id].status == Run(START, steps).db.orders[id].status
  {
    ReachableSound(steps);
    FinalKept(Run(START, steps), more, id);
  }

  lemma {:induction false} FinalKept(s: System, more: seq<Step>, id: OrderId)
    requires SystemSound(s) && TrustedRun(s, more)
    requires forall i :: 0 <= i < |more| ==> !more[i].LogRemoved?
    requires id in s.db.orders && Final(s.db.orders[id].status)
    ensures id in Run(s, more).db.orders && Run(s, more).db.orders[id].status == s.db.orders[id].status
    decreases |more|
  {
    if more != [] {
      assert !more[0].LogRemoved?;
      StepKeepsTables(s, more[0]);
      StepKeepsPlaces(s, more[0]);
      StepKeepsTickets(s, more[0]);
      FinalKept(Next(s, more[0]), more[1..], id);
    }
  }

  // ---------------------------------------------------------------- claims

  predicate IsOpen(s: System, id: OrderId) {
    id in s.db.orders && s.db.orders[id].status == Open
  }

  /** How often the order becomes open along a run, its creation included. */
  ghost function Openings(s: System, steps: seq<Step>, id: OrderId): nat
    decreases |steps|
  {
    if steps == [] then 0
    else
      var next := Next(s, steps[0]);
      (if !IsOpen(s, id) && IsOpen(next, id) then 1 else 0) + Openings(next, steps[1..], id)
  }

  /** The claims an order has seen. */
  function Claims(s: System, id: OrderId): set<nat> {
    set t: nat | t < |s.issued| && s.issued[t] == id
  }

  lemma StepClaims(s: System, step: Step, id: OrderId)
    ensures var next := Next(s, step);
      |Claims(next, id)| + (if IsOpen(next, id) then 1 else 0)
        <= |Claims(s, id)| + (if IsOpen(s, id) || IsOpen(next, id) then 1 else 0)
  {
    var next := Next(s, step);
    if next.issued == s.issued {
      assert Claims(next, id) == Claims(s, id);
    } else {
      EvaluateClaims(s, step.worker, step.now, step.cfg, id);
    }
  }

  lemma EvaluateClaims(s: System, w: nat, now: nat, cfg: Config, id: OrderId)
    requires At(s, w).Loaded?
    ensures var next := EvaluateLoaded(s, w, At(s, w).id, At(s, w).row, now, cfg);
      next.issued != s.issued ==>
        |Claims(next, id)| + (if IsOpen(next, id) then 1 else 0) <= |Claims(s, id)| + (if IsOpen(s, id) then 1 else 0)
  {
    var next := EvaluateLoaded(s, w, At(s, w).id, At(s, w).row, now, cfg);
    if next.issued != s.issued {
      assert Claims(next, id) == Claims(s, id) + (if At(s, w).id == id then {|s.issued|} else {});
    }
  }

  lemma {:induction false} RunClaims(s: System, steps: seq<Step>, id: OrderId)
    ensures |Claims(Run(s, steps), id)| + (if IsOpen(Run(s, steps), id) then 1 else 0)
         <= |Claims(s, id)| + (if IsOpen(s, id) then 1 else 0) + Openings(s, steps, id)
    decreases |steps|
  {
    if steps != [] {
      StepClaims(s, steps[0], id);
      RunClaims(Next(s, steps[0]), steps[1..], id);
    }
  }

  /** The claims that transactions for an order were sent under. */
  function Spent(sent: seq<Send>, id: OrderId): set<nat> {
    if sent == [] then {}
    else Spent(sent[..|sent| - 1], id) + if sent[|sent| - 1].order == id then {sent[|sent| - 1].ticket} else {}
  }

  /** How many transactions were sent for an order. */
  function Sends(sent: seq<Send>, id: OrderId): nat {
    if sent == [] then 0
    else Sends(sent[..|sent| - 1], id) + if sent[|sent| - 1].order == id then 1 else 0
  }

  lemma {:induction false} SpentTicketWasSent(sent: seq<Send>, id: OrderId, t: nat)
    requires t in Spent(sent, id)
    ensures Send(id, t) in sent
  {
    var front, last := sent[..|sent| - 1], sent[|sent| - 1];
    if last != Send(id, t) {
      SpentTicketWasSent(front, id, t);
      assert forall x :: x in front ==> x in sent;
    }
  }

  lemma {:induction false} SendsAreSpentClaims(sent: seq<Send>, id: OrderId)
    requires forall i, j :: 0 <= i < j < |sent| ==> sent[i].ticket != sent[j].ticket
    ensures Sends(sent, id) == |Spent(sent, id)|
  {
    if sent != [] {
      var front, last := sent[..|sent| - 1], sent[|sent| - 1];
      SendsAreSpentClaims(front, id);
      if last.ticket in Spent(front, id) { SpentTicketWasSent(front, id, last.ticket); }
    }
  }

  /** An order is claimed at most once each time it becomes open; every transaction is sent
      under a claim of its own order that sent no other; so no order has more transactions
      than openings. */
  lemma {:induction false} ClaimExclusivity(steps: seq<Step>, id: OrderId)
    requires TrustedRun(START, steps)
    ensures var s := Run(START, steps);
      && |Claims(s, id)| <= Openings(START, steps, id)
      && (forall i, j :: 0 <= i < j < |s.sent| ==> s.sent[i].ticket != s.sent[j].ticket)
      && (forall i :: 0 <= i < |s.sent| ==> s.sent[i].ticket < |s.issued| && s.issued[s.sent[i].ticket] == s.sent[i].order)
      && Sends(s.sent, id) <= |Claims(s, id)|
  {
    var s := Run(START, steps);
    ReachableSound(steps);
    RunClaims(START, steps, id);
    assert Claims(START, id) == {};
    SendsAreSpentClaims(s.sent, id);
    forall t | t in Spent(s.sent, id) ensures t in Claims(s, id) {
      SpentTicketWasSent(s.sent, id, t);
      var i :| 0 <= i < |s.sent| && s.sent[i] == Send(id, t);
    }
    L.SubsetCard(Spent(s.sent, id), Claims(s, id));
  }

  /** A claim left behind, by a crash or by a reorg that restores submitting_execute after
      its worker has gone, is always recoverable: one pass of the receipt loop reopens it. */
  lemma {:induction false} AbandonedClaimReopens(steps: seq<Step>, w: nat, id: OrderId, a: PendingAnswers)
    requires TrustedRun(START, steps)
    requires var s := Run(START, steps); id in s.db.orders && s.db.orders[id].status == SubmittingExecute && At(s, w).Idle?
    ensures var s := Run(START, steps);
      IsOpen(Next(Next(s, ScanPending(w, id)), Reconcile(w, a)), id)
  {
    var s := Run(START, steps);
    var row := s.db.orders[id];
    assert row.submittedTx == NO_TX by {
      ReachableSound(steps);
      assert Sound(row);
    }
    var scanned := Next(s, ScanPending(w, id));
    assert At(scanned, w) == Tracking(id, row) && scanned.db == s.db;
    assert ReconcileMove(row, a) == Some(Move({SubmittingExecute}, INTERRUPTED));
  }
}
