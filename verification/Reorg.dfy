/** Reorg safety of the event service: runs in which only the indexer writes. Each
    observed log is applied and each removed log is reverted, in any interleaving. */
module Reorg {
  import opened Options
  import opened Orders

  datatype LogAction = Observed(event: Event) | Removed(event: Event)

  ghost function Exec(db: Db, a: LogAction): Db {
    match a
    case Observed(e) => Apply(db, e)
    case Removed(e) => Revert(db, e)
  }

  ghost function Run(db: Db, actions: seq<LogAction>): Db
    decreases |actions|
  {
    if actions == [] then db else Run(Exec(db, actions[0]), actions[1..])
  }

  ghost predicate LiveExecution(db: Db, id: OrderId) {
    ExecutedEvents(db.events, id) != {}
  }

  ghost predicate LiveNonce(db: Db, id: OrderId)
    requires id in db.orders
  {
    NonceEventsOf(db.events, db.orders[id]) != {}
  }

  // ---------------------------------------------------------------- origins

  datatype Class = Active | AwaitingCancel | Lapsed | Closed

  function ClassOf(s: Status): Class {
    match s
    case Open => Active
    case SubmittingExecute => Active
    case PendingExecute => Active
    case PendingCancel => AwaitingCancel
    case Expired => Lapsed
    case _ => Closed
  }

  predicate EventReason(r: Reason) {
    ClearsExecuted(r) || NonceReason(r)
  }

  /** A row as the other actors leave it before its first event. */
  predicate Fresh(o: Order) {
    && !Final(o.status) && !EventReason(o.statusReason)
    && (o.status == PendingCancel ==> o.cancelledTx != NO_TX)
  }

  ghost predicate Initial(db: Db) {
    && db.events == map[]
    && forall id :: id in db.orders ==> Fresh(db.orders[id])
  }

  // ---------------------------------------------------------------- hypotheses

  /** A log row has a transaction hash, and a removed log is the stored row itself. */
  predicate Faithful(db: Db, a: LogAction) {
    && a.event.txHash != NO_TX
    && (a.Removed? && a.event.Key() in db.events ==> db.events[a.event.Key()] == a.event)
  }

  /** Hypotheses on the moment an OrderExecuted is applied: the order does not stand
      cancelled; no NonceInvalidated of its maker and nonce is live (hypothesis H); or the
      weakest one, that it does not stand cancelled with another OrderExecuted live, unless it
      came from pending cancel. */
  datatype Rule = NotCancelled | NoLiveNonce | Unwindable

  ghost predicate Permits(rule: Rule, start: Db, db: Db, id: OrderId)
    requires id in db.orders
  {
    match rule
    case NotCancelled => db.orders[id].status != Cancelled
    case NoLiveNonce => !LiveNonce(db, id)
    case Unwindable =>
      || db.orders[id].status != Cancelled || !LiveExecution(db, id)
      || (id in start.orders && ClassOf(start.orders[id].status) == AwaitingCancel)
  }

  predicate Executes(db: Db, a: LogAction) {
    a.Observed? && a.event.name == OrderExecuted && ApplyOutcome(db, a.event) == Done
  }

  ghost predicate Lawful(rule: Rule, start: Db, db: Db, actions: seq<LogAction>)
    decreases |actions|
  {
    actions == [] ||
    (&& Faithful(db, actions[0])
     && (Executes(db, actions[0]) ==> Permits(rule, start, db, actions[0].event.order))
     && Lawful(rule, start, Exec(db, actions[0]), actions[1..]))
  }

  // ---------------------------------------------------------------- the invariant

  /** How a row encodes the class it came from, given which of its events are live. */
  predicate Encodes(c: Class, o: Order, execution: bool, nonce: bool) {
    && c != Closed
    && (nonce ==> Final(o.status))
    && (match o.status
        case Executed =>
          && execution && o.lastBlockReason == NoReason
          && (c == AwaitingCancel <==> o.cancelledTx != NO_TX)
          && o.statusReason == (match c
                                case AwaitingCancel => ByExecutionAfterPendingCancel
                                case Lapsed => ByExecutionAfterExpired
                                case _ => ByExecution)
        case Cancelled =>
          && nonce && o.cancelledTx != NO_TX
          && NonceReason(o.statusReason)
          && (c == AwaitingCancel <==> o.statusReason == ByNonceAfterPendingCancel)
          && (c == Lapsed <==> o.statusReason == ByNonceAfterExpired)
        case _ =>
          ClassOf(o.status) == c && Fresh(o))
  }

  lemma AppliedExecutionEncodes(c: Class, o: Order, e: Event, execution: bool, nonce: bool)
    requires Encodes(c, o, execution, nonce) && e.txHash != NO_TX
    ensures Encodes(c, AfterExecuted(o, e), true, nonce)
    ensures o.status != Cancelled <==> AfterExecuted(o, e).status == Executed
    ensures o.status == Cancelled ==> AfterExecuted(o, e) == o
  {}

  lemma AppliedNonceEncodes(c: Class, o: Order, e: Event, execution: bool, nonce: bool)
    requires Encodes(c, o, execution, nonce) && e.txHash != NO_TX
    ensures Encodes(c, AfterNonce(o, e), execution, true)
    ensures AfterNonce(o, e).status == (if o.status == Executed then Executed else Cancelled)
  {}

  /** Rows that a removed execution rebuilds rightly while another one is left. */
  predicate Rebuilds(c: Class, o: Order) {
    o.status == Executed || c == AwaitingCancel || (c == Active && o.cancelledTx == NO_TX)
  }

  lemma RevertedExecutionEncodes(c: Class, o: Order, execution: Option<Event>, nonce: Option<Event>)
    requires Encodes(c, o, true, nonce.Some?)
    requires execution.Some? ==> execution.value.txHash != NO_TX
    requires nonce.Some? ==> nonce.value.txHash != NO_TX
    ensures Encodes(c, AfterExecutedRevert(o, execution, nonce), execution.Some?, nonce.Some?)
      <==> execution.None? || Rebuilds(c, o)
    ensures execution.Some? ==> AfterExecutedRevert(o, execution, nonce).status == Executed
  {}

  lemma RevertedNonceEncodes(c: Class, o: Order, execution: Option<Event>, nonce: Option<Event>)
    requires Encodes(c, o, execution.Some?, true)
    requires nonce.Some? ==> nonce.value.txHash != NO_TX
    ensures Encodes(c, AfterNonceRevert(o, execution, nonce), execution.Some?, nonce.Some?)
    ensures o.status == Executed ==> AfterNonceRevert(o, execution, nonce).status == Executed
    ensures o.status == Cancelled && nonce.None? ==> ClassOf(AfterNonceRevert(o, execution, nonce).status) == c
  {}

  // ---------------------------------------------------------------- whole tables

  /** Every row of `db` encodes the class it has in `start`. */
  ghost predicate Tracks(start: Db, db: Db) {
    && WellKeyed(db.events)
    && (forall k :: k in db.events ==> k.txHash != NO_TX)
    && db.orders.Keys == start.orders.Keys
    && forall id :: id in db.orders ==>
         && db.orders[id].definition == start.orders[id].definition
         && Encodes(ClassOf(start.orders[id].status), db.orders[id], LiveExecution(db, id), LiveNonce(db, id))
  }

  /** The status is what the live log alone says it should be. */
  ghost predicate Agrees(db: Db) {
    forall id :: id in db.orders && LiveExecution(db, id) ==> db.orders[id].status == Executed
  }

  lemma InsertedRows(events: map<EventKey, Event>, e: Event, id: OrderId, maker: Address, nonce: Numeral)
    requires e.Key() !in events
    ensures ExecutedEvents(events[e.Key() := e], id)
         == ExecutedEvents(events, id) + (if e.name == OrderExecuted && e.order == id then {e} else {})
    ensures NonceEvents(events[e.Key() := e], maker, nonce)
         == NonceEvents(events, maker, nonce)
          + (if e.name == NonceInvalidated && e.maker == maker && e.nonce == nonce then {e} else {})
  {
    var added := events[e.Key() := e];
    assert added[e.Key()] == e && forall k :: k in events ==> added[k] == events[k];
    forall x | x in ExecutedEvents(added, id)
      ensures x in ExecutedEvents(events, id) || (x == e && e.name == OrderExecuted && e.order == id) {
      var k :| k in added && added[k] == x && x.name == OrderExecuted && x.order == id;
    }
    forall x | x in NonceEvents(added, maker, nonce)
      ensures x in NonceEvents(events, maker, nonce)
           || (x == e && e.name == NonceInvalidated && e.maker == maker && e.nonce == nonce) {
      var k :| k in added && added[k] == x && x.name == NonceInvalidated && x.maker == maker && x.nonce == nonce;
    }
  }

  lemma DeletedRows(events: map<EventKey, Event>, e: Event, id: OrderId, maker: Address, nonce: Numeral)
    requires WellKeyed(events) && e.Key() in events && events[e.Key()] == e
    ensures ExecutedEvents(events - {e.Key()}, id) == ExecutedEvents(events, id) - {e}
    ensures NonceEvents(events - {e.Key()}, maker, nonce) == NonceEvents(events, maker, nonce) - {e}
  {
    var left := events - {e.Key()};
    assert forall k :: k in left <==> k in events && k != e.Key();
    forall x | x in ExecutedEvents(events, id) && x != e ensures x in ExecutedEvents(left, id) {
      assert x.Key() in left && left[x.Key()] == x;
    }
    forall x | x in NonceEvents(events, maker, nonce) && x != e ensures x in NonceEvents(left, maker, nonce) {
      assert x.Key() in left && left[x.Key()] == x;
    }
  }

  /** One row and its two kinds of live events after an observed log. */
  lemma ObservedRow(db: Db, e: Event, id: OrderId)
    requires ApplyOutcome(db, e) == Done && id in db.orders
    ensures var o, after := db.orders[id], Apply(db, e);
      && id in after.orders
      && after.orders[id] == (
           if e.name == OrderExecuted then if id == e.order then AfterExecuted(o, e) else o
           else if Affects(e, o) then AfterNonce(o, e) else o)
      && after.orders[id].definition == o.definition
      && LiveExecution(after, id) == (LiveExecution(db, id) || (e.name == OrderExecuted && id == e.order))
      && LiveNonce(after, id) == (LiveNonce(db, id) || (e.name == NonceInvalidated && Affects(e, o)))
  {
    var o := db.orders[id];
    InsertedRows(db.events, e, id, o.definition.maker, o.definition.nonce);
    assert e in {e};
  }

  lemma ObservedTracksRow(start: Db, db: Db, e: Event, id: OrderId)
    requires Tracks(start, db) && Faithful(db, Observed(e)) && id in db.orders
    requires ApplyOutcome(db, e) == Done
    ensures id in Apply(db, e).orders
    ensures Encodes(ClassOf(start.orders[id].status), Apply(db, e).orders[id],
                    LiveExecution(Apply(db, e), id), LiveNonce(Apply(db, e), id))
    ensures (LiveExecution(db, id) ==> db.orders[id].status == Executed)
            && (e.name == OrderExecuted && e.order == id ==> db.orders[id].status != Cancelled)
            ==> (LiveExecution(Apply(db, e), id) ==> Apply(db, e).orders[id].status == Executed)
  {
    var o, c := db.orders[id], ClassOf(start.orders[id].status);
    ObservedRow(db, e, id);
    AppliedExecutionEncodes(c, o, e, LiveExecution(db, id), LiveNonce(db, id));
    AppliedNonceEncodes(c, o, e, LiveExecution(db, id), LiveNonce(db, id));
  }

  lemma ObservedTracks(start: Db, db: Db, e: Event)
    requires Tracks(start, db) && Faithful(db, Observed(e))
    ensures Tracks(start, Apply(db, e))
    ensures Agrees(db) && (Executes(db, Observed(e)) ==> db.orders[e.order].status != Cancelled) ==> Agrees(Apply(db, e))
  {
    if ApplyOutcome(db, e) == Done {
      forall id | id in db.orders
        ensures Apply(db, e).orders[id].definition == start.orders[id].definition
      {
        ObservedRow(db, e, id);
      }
      forall id | id in db.orders
        ensures Encodes(ClassOf(start.orders[id].status), Apply(db, e).orders[id],
                        LiveExecution(Apply(db, e), id), LiveNonce(Apply(db, e), id))
        ensures Agrees(db) && (Executes(db, Observed(e)) ==> db.orders[e.order].status != Cancelled)
                ==> (LiveExecution(Apply(db, e), id) ==> Apply(db, e).orders[id].status == Executed)
      {
        ObservedTracksRow(start, db, e, id);
      }
    }
  }

  /** One row and its two kinds of live events after a removed log. */
  lemma RemovedRow(db: Db, e: Event, id: OrderId)
    requires WellKeyed(db.events) && Faithful(db, Removed(e)) && e.Key() in db.events && id in db.orders
    ensures var o, after := db.orders[id], Revert(db, e);
      && id in after.orders
      && after.orders[id].definition == o.definition
      && after.events == db.events - {e.Key()}
      && (var execution, nonce := Latest(ExecutedEvents(after.events, id)), Latest(NonceEventsOf(after.events, o));
          && after.orders[id] == (
               if e.name == OrderExecuted then if id == e.order then AfterExecutedRevert(o, execution, nonce) else o
               else if Affects(e, o) then AfterNonceRevert(o, execution, nonce) else o)
          && LiveExecution(after, id) == execution.Some?
          && LiveNonce(after, id) == nonce.Some?
          && (execution.Some? ==> execution.value.Key() in db.events)
          && (nonce.Some? ==> nonce.value.Key() in db.events))
      && (e.name == OrderExecuted && id == e.order ==> LiveExecution(db, id))
      && (e.name == NonceInvalidated && Affects(e, o) ==> LiveNonce(db, id))
      && (!(e.name == OrderExecuted && id == e.order) ==> LiveExecution(after, id) == LiveExecution(db, id))
      && (!(e.name == NonceInvalidated && Affects(e, o)) ==> LiveNonce(after, id) == LiveNonce(db, id))
  {
    var o := db.orders[id];
    DeletedRows(db.events, e, id, o.definition.maker, o.definition.nonce);
    assert e.name == OrderExecuted && id == e.order ==> e in ExecutedEvents(db.events, id);
    assert e.name == NonceInvalidated && Affects(e, o) ==> e in NonceEventsOf(db.events, o);
  }

  lemma RemovedTracksRow(start: Db, db: Db, e: Event, id: OrderId)
    requires Tracks(start, db) && Faithful(db, Removed(e)) && e.Key() in db.events && id in db.orders
    requires e.name == OrderExecuted && e.order == id && LiveExecution(Revert(db, e), id)
             ==> Rebuilds(ClassOf(start.orders[id].status), db.orders[id])
    ensures id in Revert(db, e).orders
    ensures Encodes(ClassOf(start.orders[id].status), Revert(db, e).orders[id],
                    LiveExecution(Revert(db, e), id), LiveNonce(Revert(db, e), id))
    ensures (LiveExecution(db, id) ==> db.orders[id].status == Executed)
            ==> (LiveExecution(Revert(db, e), id) ==> Revert(db, e).orders[id].status == Executed)
    ensures e.name == NonceInvalidated && Affects(e, db.orders[id]) && db.orders[id].status == Cancelled && !LiveNonce(Revert(db, e), id)
            ==> ClassOf(Revert(db, e).orders[id].status) == ClassOf(start.orders[id].status)
  {
    var o, c := db.orders[id], ClassOf(start.orders[id].status);
    RemovedRow(db, e, id);
    var events := db.events - {e.Key()};
    var execution, nonce := Latest(ExecutedEvents(events, id)), Latest(NonceEventsOf(events, o));
    if e.name == OrderExecuted && id == e.order { RevertedExecutionEncodes(c, o, execution, nonce); }
    if e.name == NonceInvalidated && Affects(e, o) { RevertedNonceEncodes(c, o, execution, nonce); }
  }

  lemma RemovedTracks(start: Db, db: Db, e: Event)
    requires Tracks(start, db) && Faithful(db, Removed(e))
    requires e.Key() in db.events && e.name == OrderExecuted && e.order in db.orders && LiveExecution(Revert(db, e), e.order)
             ==> Rebuilds(ClassOf(start.orders[e.order].status), db.orders[e.order])
    ensures Tracks(start, Revert(db, e))
    ensures Agrees(db) ==> Agrees(Revert(db, e))
  {
    if e.Key() in db.events {
      forall id | id in db.orders
        ensures Revert(db, e).orders[id].definition == start.orders[id].definition
      {
        RemovedRow(db, e, id);
      }
      forall id | id in db.orders
        ensures Encodes(ClassOf(start.orders[id].status), Revert(db, e).orders[id],
                        LiveExecution(Revert(db, e), id), LiveNonce(Revert(db, e), id))
        ensures Agrees(db) ==> (LiveExecution(Revert(db, e), id) ==> Revert(db, e).orders[id].status == Executed)
      {
        RemovedTracksRow(start, db, e, id);
      }
    }
  }

  // ---------------------------------------------------------------- runs

  predicate AtMostOne(es: set<Event>) {
    forall x, y :: x in es && y in es ==> x == y
  }

  /** Only executed rows, and those from pending cancel, have more than one live execution. */
  ghost predicate Lone(c: Class, db: Db, id: OrderId)
    requires id in db.orders
  {
    db.orders[id].status == Executed || c == AwaitingCancel || AtMostOne(ExecutedEvents(db.events, id))
  }

  ghost predicate AllLone(start: Db, db: Db) {
    forall id :: id in db.orders && id in start.orders ==> Lone(ClassOf(start.orders[id].status), db, id)
  }

  lemma ObservedLone(start: Db, db: Db, e: Event)
    requires Tracks(start, db) && Faithful(db, Observed(e)) && AllLone(start, db)
    requires Executes(db, Observed(e)) ==> Permits(Unwindable, start, db, e.order)
    ensures AllLone(start, Apply(db, e))
  {
    if ApplyOutcome(db, e) == Done {
      forall id | id in db.orders ensures Lone(ClassOf(start.orders[id].status), Apply(db, e), id) {
        ObservedLoneRow(start, db, e, id);
      }
    }
  }

  lemma ObservedLoneRow(start: Db, db: Db, e: Event, id: OrderId)
    requires Tracks(start, db) && Faithful(db, Observed(e)) && ApplyOutcome(db, e) == Done
    requires id in db.orders && Lone(ClassOf(start.orders[id].status), db, id)
    requires e.name == OrderExecuted && e.order == id ==> Permits(Unwindable, start, db, id)
    ensures id in Apply(db, e).orders && Lone(ClassOf(start.orders[id].status), Apply(db, e), id)
  {
    var o, c := db.orders[id], ClassOf(start.orders[id].status);
    ObservedRow(db, e, id);
    InsertedRows(db.events, e, id, o.definition.maker, o.definition.nonce);
    AppliedExecutionEncodes(c, o, e, LiveExecution(db, id), LiveNonce(db, id));
    AppliedNonceEncodes(c, o, e, LiveExecution(db, id), LiveNonce(db, id));
  }

  lemma RemovedLone(start: Db, db: Db, e: Event)
    requires Tracks(start, db) && Faithful(db, Removed(e)) && AllLone(start, db)
    ensures AllLone(start, Revert(db, e))
    ensures e.Key() in db.events && e.name == OrderExecuted && e.order in db.orders && LiveExecution(Revert(db, e), e.order)
            ==> Rebuilds(ClassOf(start.orders[e.order].status), db.orders[e.order])
  {
    if e.Key() in db.events {
      forall id | id in db.orders
        ensures Lone(ClassOf(start.orders[id].status), Revert(db, e), id)
        ensures e.name == OrderExecuted && e.order == id && LiveExecution(Revert(db, e), id)
                ==> Rebuilds(ClassOf(start.orders[id].status), db.orders[id])
      {
        RemovedLoneRow(start, db, e, id);
      }
    }
  }

  lemma RemovedLoneRow(start: Db, db: Db, e: Event, id: OrderId)
    requires Tracks(start, db) && Faithful(db, Removed(e)) && e.Key() in db.events && id in db.orders
    requires Lone(ClassOf(start.orders[id].status), db, id)
    ensures id in Revert(db, e).orders && Lone(ClassOf(start.orders[id].status), Revert(db, e), id)
    ensures e.name == OrderExecuted && e.order == id && LiveExecution(Revert(db, e), id)
            ==> Rebuilds(ClassOf(start.orders[id].status), db.orders[id])
  {
    var o, c := db.orders[id], ClassOf(start.orders[id].status);
    RemovedRow(db, e, id);
    DeletedRows(db.events, e, id, o.definition.maker, o.definition.nonce);
    var execution, nonce := Latest(ExecutedEvents(db.events - {e.Key()}, id)), Latest(NonceEventsOf(db.events - {e.Key()}, o));
    assert e.name == OrderExecuted && e.order == id ==> e in ExecutedEvents(db.events, id);
    if e.name == OrderExecuted && id == e.order { RevertedExecutionEncodes(c, o, execution, nonce); }
    if e.name == NonceInvalidated && Affects(e, o) { RevertedNonceEncodes(c, o, execution, nonce); }
  }

  lemma LawfulStepTracks(rule: Rule, start: Db, db: Db, a: LogAction)
    requires Tracks(start, db) && AllLone(start, db) && Faithful(db, a)
    requires Executes(db, a) ==> Permits(rule, start, db, a.event.order)
    requires rule != Unwindable ==> Agrees(db)
    ensures Tracks(start, Exec(db, a)) && AllLone(start, Exec(db, a))
    ensures rule != Unwindable ==> Agrees(Exec(db, a))
  {
    if a.Observed? {
      ObservedTracks(start, db, a.event);
      ObservedLone(start, db, a.event);
    } else {
      RemovedLone(start, db, a.event);
      RemovedTracks(start, db, a.event);
    }
  }

  lemma {:induction false} LawfulRunTracks(rule: Rule, start: Db, db: Db, actions: seq<LogAction>)
    requires Tracks(start, db) && AllLone(start, db) && Lawful(rule, start, db, actions)
    requires rule != Unwindable ==> Agrees(db)
    ensures Tracks(start, Run(db, actions)) && AllLone(start, Run(db, actions))
    ensures rule != Unwindable ==> Agrees(Run(db, actions))
    decreases |actions|
  {
    if actions != [] {
      LawfulStepTracks(rule, start, db, actions[0]);
      LawfulRunTracks(rule, start, Exec(db, actions[0]), actions[1..]);
    }
  }

  lemma InitialTracks(start: Db)
    requires Initial(start)
    ensures Tracks(start, start) && Agrees(start) && AllLone(start, start)
  {
    forall id | id in start.orders ensures !LiveExecution(start, id) && !LiveNonce(start, id) {
      assert ExecutedEvents(start.events, id) == {};
      assert NonceEventsOf(start.events, start.orders[id]) == {};
    }
  }

  /** Incremental handling refines recomputation: after any interleaving of applied and
      reverted logs, the status is what the live events alone determine. */
  lemma {:induction false} StatusIsFunctionOfLog(rule: Rule, start: Db, actions: seq<LogAction>, id: OrderId)
    requires Initial(start) && id in start.orders
    requires rule != Unwindable && Lawful(rule, start, start, actions)
    ensures var db := Run(start, actions);
      && id in db.orders
      && (LiveExecution(db, id) ==> db.orders[id].status == Executed)
      && (!LiveExecution(db, id) && LiveNonce(db, id) ==> db.orders[id].status == Cancelled)
      && (!LiveExecution(db, id) && !LiveNonce(db, id) ==> ClassOf(db.orders[id].status) == ClassOf(start.orders[id].status))
  {
    InitialTracks(start);
    LawfulRunTracks(rule, start, start, actions);
  }

  /** Without hypothesis H, as long as no execution meets a cancelled order that has one
      already, pending-cancel origins aside: once all its events are reverted, in whatever order, an
      order is back in the class it started from. */
  lemma {:induction false} UnwindingRestoresOrigin(start: Db, actions: seq<LogAction>, id: OrderId)
    requires Initial(start) && id in start.orders
    requires Lawful(Unwindable, start, start, actions)
    ensures var db := Run(start, actions);
      && id in db.orders
      && (!LiveExecution(db, id) && !LiveNonce(db, id) ==> ClassOf(db.orders[id].status) == ClassOf(start.orders[id].status))
      && (db.orders[id].status == Executed ==> LiveExecution(db, id))
      && (db.orders[id].status == Cancelled ==> LiveNonce(db, id))
  {
    InitialTracks(start);
    LawfulRunTracks(Unwindable, start, start, actions);
  }

  /** Exactly when applying an OrderExecuted keeps status and log in agreement. */
  lemma {:induction false} ExecutionKeepsAgreementExactly(start: Db, db: Db, e: Event)
    requires Tracks(start, db) && Agrees(db)
    requires Executes(db, Observed(e)) && e.txHash != NO_TX
    ensures Agrees(Apply(db, e)) <==> db.orders[e.order].status != Cancelled
    ensures Agrees(Apply(db, e)) <==> !LiveNonce(db, e.order) || LiveExecution(db, e.order)
  {
    ObservedTracks(start, db, e);
    ObservedRow(db, e, e.order);
    AppliedExecutionEncodes(ClassOf(start.orders[e.order].status), db.orders[e.order], e,
                            LiveExecution(db, e.order), LiveNonce(db, e.order));
  }

  // ---------------------------------------------------------------- unwinding

  ghost predicate Dead(db: Db, id: OrderId) {
    id in db.orders && !LiveExecution(db, id) && !LiveNonce(db, id)
  }

  /** A list of removed logs, as the node sends them. */
  ghost predicate Removals(db: Db, actions: seq<LogAction>)
    decreases |actions|
  {
    actions == [] ||
    (actions[0].Removed? && Faithful(db, actions[0]) && Removals(Exec(db, actions[0]), actions[1..]))
  }

  ghost predicate EndsIn(c: Class, db: Db, actions: seq<LogAction>, id: OrderId) {
    Removals(db, actions) && Dead(Run(db, actions), id) ==> ClassOf(Run(db, actions).orders[id].status) == c
  }

  /** However the log is unwound from here, once none of its events is left the order is in
      the class it started from. */
  ghost predicate Unwinds(start: Db, db: Db, id: OrderId)
    requires id in start.orders
  {
    forall actions: seq<LogAction> :: EndsIn(ClassOf(start.orders[id].status), db, actions, id)
  }

  /** The events of a row are well keyed, and the row encodes its class and will go on doing so. */
  ghost predicate Recoverable(c: Class, db: Db, id: OrderId) {
    && WellKeyed(db.events) && (forall k :: k in db.events ==> k.txHash != NO_TX) && id in db.orders
    && Encodes(c, db.orders[id], LiveExecution(db, id), LiveNonce(db, id))
    && (Rebuilds(c, db.orders[id]) || AtMostOne(ExecutedEvents(db.events, id)))
  }

  lemma RemovedRecoverable(c: Class, db: Db, e: Event, id: OrderId)
    requires Recoverable(c, db, id) && Faithful(db, Removed(e))
    ensures Recoverable(c, Revert(db, e), id)
  {
    if e.Key() in db.events {
      var o := db.orders[id];
      RemovedRow(db, e, id);
      DeletedRows(db.events, e, id, o.definition.maker, o.definition.nonce);
      var execution, nonce := Latest(ExecutedEvents(db.events - {e.Key()}, id)), Latest(NonceEventsOf(db.events - {e.Key()}, o));
      assert e.name == OrderExecuted && e.order == id ==> e in ExecutedEvents(db.events, id);
      if e.name == OrderExecuted && id == e.order { RevertedExecutionEncodes(c, o, execution, nonce); }
      if e.name == NonceInvalidated && Affects(e, o) {
        RevertedNonceEncodes(c, o, execution, nonce);
        assert Final(o.status);
      }
    }
  }

  lemma {:induction false} RemovalsRestore(c: Class, db: Db, actions: seq<LogAction>, id: OrderId)
    requires Recoverable(c, db, id) && Removals(db, actions)
    ensures Recoverable(c, Run(db, actions), id)
    ensures EndsIn(c, db, actions, id)
    decreases |actions|
  {
    if actions != [] {
      RemovedRecoverable(c, db, actions[0].event, id);
      RemovalsRestore(c, Exec(db, actions[0]), actions[1..], id);
    }
  }

  /** The log can be unwound. */
  lemma {:induction false} RemovalsExist(db: Db, id: OrderId) returns (actions: seq<LogAction>)
    requires WellKeyed(db.events) && (forall k :: k in db.events ==> k.txHash != NO_TX) && id in db.orders
    ensures Removals(db, actions) && Dead(Run(db, actions), id)
    decreases |db.events.Keys|
  {
    actions := [];
    if !Dead(db, id) {
      var e: Event;
      if LiveExecution(db, id) { e :| e in ExecutedEvents(db.events, id); } else { e :| e in NonceEventsOf(db.events, db.orders[id]); }
      assert e.Key() in db.events && db.events[e.Key()] == e;
      RemovedRow(db, e, id);
      assert (db.events - {e.Key()}).Keys == db.events.Keys - {e.Key()};
      var rest := RemovalsExist(Revert(db, e), id);
      actions := [Removed(e)] + rest;
      assert actions[1..] == rest;
    }
  }

  /** The class that a row rebuilt by its transaction hash comes to stand for. */
  function RebuiltClass(o: Order): Class {
    if o.cancelledTx != NO_TX then AwaitingCancel else Active
  }

  /** A row that is not rebuilt rightly comes to stand for another class. */
  lemma WronglyRebuilt(c: Class, o: Order, execution: Event, nonce: Option<Event>)
    requires Encodes(c, o, true, nonce.Some?) && execution.txHash != NO_TX
    requires !Rebuilds(c, o)
    ensures RebuiltClass(o) != c
    ensures AfterExecutedRevert(o, Some(execution), nonce).status == Executed
    ensures Encodes(RebuiltClass(o), AfterExecutedRevert(o, Some(execution), nonce), true, nonce.Some?)
  {}

  lemma UnwindsWrongly(c: Class, db: Db, id: OrderId) returns (actions: seq<LogAction>)
    requires WellKeyed(db.events) && (forall k :: k in db.events ==> k.txHash != NO_TX) && id in db.orders
    requires Encodes(c, db.orders[id], LiveExecution(db, id), LiveNonce(db, id))
    requires !Recoverable(c, db, id)
    ensures !EndsIn(c, db, actions, id)
  {
    var e, f :| e in ExecutedEvents(db.events, id) && f in ExecutedEvents(db.events, id) && e != f;
    OneRemovedWrongly(c, db, id, e, f);
    var rest := RemovalsExist(Revert(db, e), id);
    RemovalsRestore(RebuiltClass(db.orders[id]), Revert(db, e), rest, id);
    actions := [Removed(e)] + rest;
    assert actions[1..] == rest;
  }

  lemma OneRemovedWrongly(c: Class, db: Db, id: OrderId, e: Event, f: Event)
    requires WellKeyed(db.events) && (forall k :: k in db.events ==> k.txHash != NO_TX) && id in db.orders
    requires Encodes(c, db.orders[id], LiveExecution(db, id), LiveNonce(db, id)) && !Rebuilds(c, db.orders[id])
    requires e in ExecutedEvents(db.events, id) && f in ExecutedEvents(db.events, id) && e != f
    ensures Faithful(db, Removed(e)) && RebuiltClass(db.orders[id]) != c
    ensures Recoverable(RebuiltClass(db.orders[id]), Revert(db, e), id)
  {
    var o, events := db.orders[id], db.events - {e.Key()};
    RemovedRow(db, e, id);
    DeletedRows(db.events, e, id, o.definition.maker, o.definition.nonce);
    assert f in ExecutedEvents(events, id);
    WronglyRebuilt(c, o, Latest(ExecutedEvents(events, id)).value, Latest(NonceEventsOf(events, o)));
  }

  /** A row that any removal rebuilds rightly. */
  ghost predicate Safe(start: Db, db: Db, id: OrderId)
    requires id in start.orders && id in db.orders
  {
    Rebuilds(ClassOf(start.orders[id].status), db.orders[id]) || AtMostOne(ExecutedEvents(db.events, id))
  }

  /** Unwinding, exactly: from every state in which rows still encode their class, every way
      to unwind the log restores the order's class if and only if its row is rebuilt rightly, or no more than
      one execution of it is live. */
  lemma {:induction false} UnwindsExactly(start: Db, db: Db, id: OrderId)
    requires Tracks(start, db) && id in db.orders
    ensures Unwinds(start, db, id) <==> Safe(start, db, id)
  {
    var c := ClassOf(start.orders[id].status);
    if Recoverable(c, db, id) {
      forall actions: seq<LogAction> ensures EndsIn(c, db, actions, id) {
        if Removals(db, actions) { RemovalsRestore(c, db, actions, id); }
      }
    } else {
      var actions := UnwindsWrongly(c, db, id);
    }
  }

  /** The guard, exactly: applying an OrderExecuted leaves its order unwinding if and only if
      the order does not stand cancelled, or has no other execution live, or came from pending
      cancel; and it changes nothing of this for other orders. */
  lemma {:induction false} ExecutionKeepsUnwindingExactly(start: Db, db: Db, e: Event, id: OrderId)
    requires Tracks(start, db) && id in db.orders
    requires Executes(db, Observed(e)) && e.txHash != NO_TX
    ensures Unwinds(start, Apply(db, e), id) <==>
      if id == e.order then Permits(Unwindable, start, db, id) else Unwinds(start, db, id)
  {
    assert Tracks(start, Apply(db, e)) by { ObservedTracks(start, db, e); }
    UnwindsExactly(start, db, id);
    UnwindsExactly(start, Apply(db, e), id);
    if id == e.order { ExecutionKeepsSafe(start, db, e); } else { OtherStaysSafe(start, db, e, id); }
  }

  lemma ExecutionKeepsSafe(start: Db, db: Db, e: Event)
    requires Tracks(start, db) && Executes(db, Observed(e)) && e.txHash != NO_TX
    ensures e.order in Apply(db, e).orders
    ensures Safe(start, Apply(db, e), e.order) <==> Permits(Unwindable, start, db, e.order)
  {
    var o, c := db.orders[e.order], ClassOf(start.orders[e.order].status);
    ObservedRow(db, e, e.order);
    InsertedRows(db.events, e, e.order, o.definition.maker, o.definition.nonce);
    AppliedExecutionEncodes(c, o, e, LiveExecution(db, e.order), LiveNonce(db, e.order));
    assert e !in ExecutedEvents(db.events, e.order);
  }

  lemma OtherStaysSafe(start: Db, db: Db, e: Event, id: OrderId)
    requires Tracks(start, db) && Executes(db, Observed(e)) && id in db.orders && id != e.order
    ensures id in Apply(db, e).orders && Safe(start, Apply(db, e), id) == Safe(start, db, id)
  {
    ObservedRow(db, e, id);
    InsertedRows(db.events, e, id, db.orders[id].definition.maker, db.orders[id].definition.nonce);
  }

  /** The failing family: an OrderExecuted applied to a cancelled order is hidden, and
      once its NonceInvalidated is reverted the order is back in the class it started
      from, although its execution is still live. */
  lemma NonceFirstHidesExecution(start: Db, db: Db, id: OrderId, n: Event, e: Event)
    requires Tracks(start, db) && id in db.orders && db.orders[id].status == Cancelled
    requires n.Key() in db.events && db.events[n.Key()] == n && n.name == NonceInvalidated && Affects(n, db.orders[id])
    requires forall k :: k in db.events && db.events[k].name == NonceInvalidated ==> k == n.Key()
    requires e.txHash != NO_TX && e.Key() !in db.events && e.name == OrderExecuted && e.order == id
    ensures var hidden := Apply(db, e);
      && id in hidden.orders && LiveExecution(hidden, id) && hidden.orders[id].status == Cancelled
    ensures var reopened := Revert(Apply(db, e), n);
      && id in reopened.orders && LiveExecution(reopened, id)
      && ClassOf(reopened.orders[id].status) == ClassOf(start.orders[id].status)
  {
    ExecutionHidden(start, db, id, e);
    NonceRemoved(start, Apply(db, e), id, n);
  }

  lemma ExecutionHidden(start: Db, db: Db, id: OrderId, e: Event)
    requires Tracks(start, db) && id in db.orders && db.orders[id].status == Cancelled
    requires e.txHash != NO_TX && e.Key() !in db.events && e.name == OrderExecuted && e.order == id
    ensures var two := Apply(db, e);
      && Tracks(start, two) && two.orders[id] == db.orders[id]
      && LiveExecution(two, id) && two.events == db.events[e.Key() := e]
  {
    assert Tracks(start, Apply(db, e)) by { ObservedTracks(start, db, e); }
    AppliedExecutionEncodes(ClassOf(start.orders[id].status), db.orders[id], e, LiveExecution(db, id), LiveNonce(db, id));
    ObservedRow(db, e, id);
  }

  lemma NonceRemoved(start: Db, db: Db, id: OrderId, n: Event)
    requires Tracks(start, db) && id in db.orders && db.orders[id].status == Cancelled && LiveExecution(db, id)
    requires n.Key() in db.events && db.events[n.Key()] == n && n.name == NonceInvalidated && n.txHash != NO_TX
    requires Affects(n, db.orders[id])
    requires forall k :: k in db.events && db.events[k].name == NonceInvalidated ==> k == n.Key()
    ensures var after := Revert(db, n);
      id in after.orders && LiveExecution(after, id) && ClassOf(after.orders[id].status) == ClassOf(start.orders[id].status)
  {
    var after := Revert(db, n);
    assert LiveExecution(after, id) && !LiveNonce(after, id) by {
      RemovedRow(db, n, id);
      DeletedRows(db.events, n, id, n.maker, n.nonce);
      assert NonceEvents(db.events, n.maker, n.nonce) - {n} == {};
    }
    assert ClassOf(after.orders[id].status) == ClassOf(start.orders[id].status) by { RemovedTracksRow(start, db, n, id); }
  }

  /** The shortest such run, from any initial state: the nonce invalidated, the execution
      logged, and the invalidation taken back. */
  lemma HiddenExecutionReopens(start: Db, id: OrderId, n: Event, e: Event)
    requires Initial(start) && id in start.orders
    requires n.name == NonceInvalidated && n.txHash != NO_TX && Affects(n, start.orders[id])
    requires e.name == OrderExecuted && e.txHash != NO_TX && e.order == id && e.Key() != n.Key()
    ensures var db := Run(start, [Observed(n), Observed(e), Removed(n)]);
      id in db.orders && LiveExecution(db, id) && ClassOf(db.orders[id].status) == ClassOf(start.orders[id].status)
  {
    var cancelled := Apply(start, n);
    FirstNonceCancels(start, id, n);
    NonceFirstHidesExecution(start, cancelled, id, n, e);
    ThreeActions(start, Observed(n), Observed(e), Removed(n));
  }

  lemma FirstNonceCancels(start: Db, id: OrderId, n: Event)
    requires Initial(start) && id in start.orders
    requires n.name == NonceInvalidated && n.txHash != NO_TX && Affects(n, start.orders[id])
    ensures var db := Apply(start, n);
      && Tracks(start, db) && db.events == map[n.Key() := n] && id in db.orders
      && db.orders[id].status == Cancelled && db.orders[id].definition == start.orders[id].definition
      && db.orders[id].cancelledTx == n.txHash
  {
    InitialTracks(start);
    ObservedTracks(start, start, n);
    ObservedRow(start, n, id);
  }

  lemma ThreeActions(db: Db, a: LogAction, b: LogAction, c: LogAction)
    ensures Run(db, [a, b, c]) == Exec(Exec(Exec(db, a), b), c)
  {
    assert [a, b, c][1..] == [b, c] && [b, c][1..] == [c] && [c][1..] == [];
    assert Run(Exec(Exec(db, a), b), [c]) == Exec(Exec(Exec(db, a), b), c);
  }

  const SIGNED := Definition(7, true, true, true, true, Number(100), Number(90), Number(0), Number(1), Number(1000), Number(5), true)
  const ONE_OPEN_ORDER := Db(map[1 := Order(SIGNED, Open, NoReason, NoReason, NO_TX, NO_TX, NO_TX, 0, 0, 0, 0)], map[])
  const ITS_NONCE := Event(NonceInvalidated, 11, 0, 20, 0, 7, Number(5), 0, 0)
  const ITS_EXECUTION := Event(OrderExecuted, 12, 0, 21, 1, 7, Number(5), 95, 0)

  /** One concrete such run. */
  lemma OpenOrderReopensExecuted()
    ensures var db := Run(ONE_OPEN_ORDER, [Observed(ITS_NONCE), Observed(ITS_EXECUTION), Removed(ITS_NONCE)]);
      1 in db.orders && LiveExecution(db, 1) && ClassOf(db.orders[1].status) == Active
  {
    HiddenExecutionReopens(ONE_OPEN_ORDER, 1, ITS_NONCE, ITS_EXECUTION);
  }

  /** Two executions of one order, and an event that cancels it. */
  predicate TwoAndNonce(id: OrderId, n: Event, e: Event, f: Event) {
    && n.name == NonceInvalidated && n.txHash != NO_TX
    && e.name == OrderExecuted && e.order == id && e.txHash != NO_TX
    && f.name == OrderExecuted && f.order == id && f.txHash != NO_TX
    && e.Key() != n.Key() && f.Key() != n.Key() && e.Key() != f.Key()
  }

  /** A run of the failing kind from every initial state: with two executions logged on the
      cancelled order, this unwinding ends in pending_cancel, whatever the order was. */
  lemma TwoExecutionsLoseOrigin(start: Db, id: OrderId, n: Event, e: Event, f: Event)
    requires Initial(start) && id in start.orders && Affects(n, start.orders[id]) && TwoAndNonce(id, n, e, f)
    ensures var db := Run(start, [Observed(n), Observed(e), Observed(f)] + [Removed(e), Removed(n), Removed(f)]);
      && db.events == map[] && id in db.orders
      && db.orders[id].status == PendingCancel && db.orders[id].cancelledTx == n.txHash
  {
    RunJoins(start, [Observed(n), Observed(e), Observed(f)], [Removed(e), Removed(n), Removed(f)]);
    BothHidden(start, id, n, e, f);
    AllRemoved(Run(start, [Observed(n), Observed(e), Observed(f)]), id, n, e, f);
  }

  lemma BothHidden(start: Db, id: OrderId, n: Event, e: Event, f: Event)
    requires Initial(start) && id in start.orders && Affects(n, start.orders[id]) && TwoAndNonce(id, n, e, f)
    ensures var db := Run(start, [Observed(n), Observed(e), Observed(f)]);
      && db.events == map[n.Key() := n, e.Key() := e, f.Key() := f] && id in db.orders
      && db.orders[id].cancelledTx == n.txHash && Affects(n, db.orders[id])
  {
    var one := Apply(start, n);
    FirstNonceCancels(start, id, n);
    CancelledHides(one, id, e);
    CancelledHides(Apply(one, e), id, f);
    ThreeActions(start, Observed(n), Observed(e), Observed(f));
  }

  lemma AllRemoved(db: Db, id: OrderId, n: Event, e: Event, f: Event)
    requires TwoAndNonce(id, n, e, f)
    requires db.events == map[n.Key() := n, e.Key() := e, f.Key() := f]
    requires id in db.orders && db.orders[id].cancelledTx == n.txHash
    ensures var after := Run(db, [Removed(e), Removed(n), Removed(f)]);
      && after.events == map[] && id in after.orders
      && after.orders[id].status == PendingCancel && after.orders[id].cancelledTx == n.txHash
  {
    FirstExecutionRemoved(db, id, n, e, f);
    NonceOfExecutedRemoved(Revert(db, e), id, n, f);
    LastExecutionRemoved(Revert(Revert(db, e), n), id, f);
    ThreeActions(db, Removed(e), Removed(n), Removed(f));
  }

  lemma {:induction false} RunJoins(db: Db, a: seq<LogAction>, b: seq<LogAction>)
    ensures Run(db, a + b) == Run(Run(db, a), b)
    decreases |a|
  {
    if a == [] {
      assert a + b == b;
    } else {
      assert (a + b)[1..] == a[1..] + b;
      RunJoins(Exec(db, a[0]), a[1..], b);
    }
  }

  lemma CancelledHides(db: Db, id: OrderId, e: Event)
    requires id in db.orders && db.orders[id].status == Cancelled
    requires e.name == OrderExecuted && e.order == id && e.Key() !in db.events
    ensures Apply(db, e) == Db(db.orders, db.events[e.Key() := e])
  {
    assert db.orders[id := db.orders[id]] == db.orders;
  }

  lemma FirstExecutionRemoved(db: Db, id: OrderId, n: Event, e: Event, f: Event)
    requires TwoAndNonce(id, n, e, f)
    requires db.events == map[n.Key() := n, e.Key() := e, f.Key() := f]
    requires id in db.orders && db.orders[id].cancelledTx == n.txHash
    ensures var after := Revert(db, e);
      && after.events == map[n.Key() := n, f.Key() := f] && id in after.orders
      && after.orders[id].status == Executed && after.orders[id].statusReason == ByExecutionAfterPendingCancel
      && after.orders[id].cancelledTx == n.txHash && after.orders[id].definition == db.orders[id].definition
  {
    var events := db.events - {e.Key()};
    assert events == map[n.Key() := n, f.Key() := f];
    assert f in ExecutedEvents(events, id) by { assert f.Key() in events && events[f.Key()] == f; }
  }

  lemma NonceOfExecutedRemoved(db: Db, id: OrderId, n: Event, f: Event)
    requires n.name == NonceInvalidated && f.name == OrderExecuted && f.order == id && f.Key() != n.Key()
    requires db.events == map[n.Key() := n, f.Key() := f] && n.txHash != NO_TX
    requires id in db.orders && db.orders[id].status == Executed && db.orders[id].statusReason == ByExecutionAfterPendingCancel
    ensures var after := Revert(db, n);
      after.events == map[f.Key() := f] && id in after.orders && after.orders[id] == db.orders[id]
  {
    RemovedRow(db, n, id);
    DeletedRows(db.events, n, id, n.maker, n.nonce);
    assert NonceEvents(db.events, n.maker, n.nonce) == {n};
  }

  lemma LastExecutionRemoved(db: Db, id: OrderId, f: Event)
    requires f.name == OrderExecuted && f.order == id && db.events == map[f.Key() := f]
    requires id in db.orders && db.orders[id].status == Executed && db.orders[id].statusReason == ByExecutionAfterPendingCancel
    requires db.orders[id].cancelledTx != NO_TX
    ensures var after := Revert(db, f);
      && after.events == map[] && id in after.orders
      && after.orders[id].status == PendingCancel && after.orders[id].cancelledTx == db.orders[id].cancelledTx
  {
    assert db.events - {f.Key()} == map[];
    assert ExecutedEvents(map[], id) == {} && NonceEventsOf(map[], db.orders[id]) == {};
  }

  /** Which rows a NonceInvalidated and its own removal leave in their old status. */
  predicate SurvivesRoundTrip(o: Order, otherNonce: bool) {
    match o.status
    case Executed => true
    case Cancelled => otherNonce || o.statusReason != ConfirmedByChainState
    case PendingExecute => !otherNonce && o.submittedTx != NO_TX
    case PendingCancel => !otherNonce && o.cancelledTx != NO_TX
    case _ => !otherNonce
  }

  lemma OneRowRoundTrip(o: Order, e: Event, execution: Option<Event>, nonce: Option<Event>)
    requires e.txHash != NO_TX
    requires o.status == Cancelled && NonceReason(o.statusReason) ==> nonce.Some?
    ensures var back := AfterNonceRevert(AfterNonce(o, e), execution, nonce);
      && (back.status == o.status <==> SurvivesRoundTrip(o, nonce.Some?))
      && (!Final(o.status) ==>
            && back.executedTx == o.executedTx && back.submittedTx == o.submittedTx
            && back.settledAmountOut == o.settledAmountOut && back.settledExecutorFee == o.settledExecutorFee)
  {}

  /** Recording a NonceInvalidated and reverting the same log restores the event table,
      leaves the orders of other makers and nonces alone, and restores the exact status
      of a row of its own exactly when `SurvivesRoundTrip` says so. */
  lemma NonceRoundTrip(db: Db, e: Event, id: OrderId)
    requires WellKeyed(db.events) && id in db.orders
    requires e.name == NonceInvalidated && e.txHash != NO_TX && e.Key() !in db.events
    requires db.orders[id].status == Cancelled && NonceReason(db.orders[id].statusReason) ==> LiveNonce(db, id)
    ensures var o, back := db.orders[id], Revert(Apply(db, e), e);
      && back.events == db.events && back.orders.Keys == db.orders.Keys
      && (!Affects(e, o) ==> back.orders[id] == o)
      && (Affects(e, o) ==>
            && (back.orders[id].status == o.status <==> SurvivesRoundTrip(o, LiveNonce(db, id)))
            && (!Final(o.status) ==>
                  && back.orders[id].executedTx == o.executedTx && back.orders[id].submittedTx == o.submittedTx
                  && back.orders[id].settledAmountOut == o.settledAmountOut
                  && back.orders[id].settledExecutorFee == o.settledExecutorFee))
  {
    var o, after := db.orders[id], Apply(db, e);
    ObservedRow(db, e, id);
    RemovedRow(after, e, id);
    assert after.events - {e.Key()} == db.events;
    OneRowRoundTrip(o, e, Latest(ExecutedEvents(db.events, id)), Latest(NonceEventsOf(db.events, o)));
  }
}
