/** The indexer's backfill: replaying the settlement logs from a stored cursor, with a
    crash possible between any two commits. */
module Subscriber {
  import opened Options
  import opened Orders
  import R = Reorg
  import S = OrderEventService

  datatype Body = Unsupported | Undecodable | Decoded(event: Event)

  /** A log of the settlement contract; blockHash zero stands for the empty string. */
  datatype Log = Log(block: nat, blockHash: nat, index: nat, removed: bool, body: Body)

  /** A row of the cursor table: the log index is kept as text, empty below zero. */
  datatype CursorRow = CursorRow(block: nat, blockHash: nat, value: Option<nat>)

  datatype Position = Position(block: nat, blockHash: nat, logIndex: int)

  function GetPosition(row: CursorRow): Position {
    Position(row.block, row.blockHash, if row.value.Some? then row.value.value else -1)
  }

  function UpsertPosition(block: nat, blockHash: nat, logIndex: int): CursorRow {
    CursorRow(block, blockHash, if logIndex >= 0 then Some(logIndex) else None)
  }

  predicate ShouldSkip(cursor: Option<Position>, log: Log) {
    match cursor
    case None => false
    case Some(c) =>
      && log.block == c.block
      && !(c.blockHash != 0 && log.blockHash != 0 && c.blockHash != log.blockHash)
      && log.index <= c.logIndex
  }

  // ---------------------------------------------------------------- specification

  /** What one log does to the tables; nothing when it is refused. */
  ghost function Effect(db: Db, log: Log): Option<Db> {
    match log.body
    case Unsupported => Some(db)
    case Undecodable => None
    case Decoded(e) =>
      if log.removed then Some(Revert(db, e))
      else if ApplyOutcome(db, e) == MissingOrder then None
      else Some(Apply(db, e))
  }

  /** All logs applied once, in order. */
  ghost function Replay(db: Db, logs: seq<Log>): Option<Db> {
    if logs == [] then Some(db)
    else
      var before := Replay(db, logs[..|logs| - 1]);
      if before.None? then None else Effect(before.value, logs[|logs| - 1])
  }

  /** What the logs say happened on chain. */
  function ActionsOf(logs: seq<Log>): seq<R.LogAction> {
    if logs == [] then []
    else
      var front, last := ActionsOf(logs[..|logs| - 1]), logs[|logs| - 1];
      match last.body
      case Decoded(e) => front + [if last.removed then R.Removed(e) else R.Observed(e)]
      case _ => front
  }

  /** Replaying logs is a run of the event service: each log observed or removed, in order,
      and none of them undecodable. */
  lemma {:induction false} ReplayIsRun(db: Db, logs: seq<Log>)
    requires Replay(db, logs).Some?
    ensures Replay(db, logs).value == R.Run(db, ActionsOf(logs))
    ensures forall i :: 0 <= i < |logs| ==> !logs[i].body.Undecodable?
  {
    if logs != [] {
      var front, last := logs[..|logs| - 1], logs[|logs| - 1];
      ReplayIsRun(db, front);
      assert forall i :: 0 <= i < |front| ==> front[i] == logs[i];
      if last.body.Decoded? {
        var action := if last.removed then R.Removed(last.body.event) else R.Observed(last.body.event);
        R.RunJoins(db, ActionsOf(front), [action]);
        OneAction(R.Run(db, ActionsOf(front)), action);
      }
    }
  }

  lemma OneAction(db: Db, a: R.LogAction)
    ensures R.Run(db, [a]) == R.Exec(db, a)
  {
    assert [a][1..] == [];
  }

  /** However often backfills were interrupted, the status of an order is what the live events
      of the logs so far determine. */
  lemma SyncedStatus(rule: R.Rule, chain: seq<Log>, start: Db, db: Db, row: Option<CursorRow>, p: nat, id: OrderId)
    requires Synced(chain, start, db, row, p) && R.Initial(start) && id in start.orders
    requires rule != R.Unwindable && R.Lawful(rule, start, start, ActionsOf(chain[..p]))
    ensures id in db.orders
    ensures R.LiveExecution(db, id) ==> db.orders[id].status == Executed
    ensures !R.LiveExecution(db, id) && R.LiveNonce(db, id) ==> db.orders[id].status == Cancelled
    ensures !R.LiveExecution(db, id) && !R.LiveNonce(db, id)
      ==> R.ClassOf(db.orders[id].status) == R.ClassOf(start.orders[id].status)
  {
    ReplayIsRun(start, chain[..p]);
    R.StatusIsFunctionOfLog(rule, start, ActionsOf(chain[..p]), id);
  }

  /** What is saved is what is read: a position from the start of a block on. */
  lemma CursorRoundTrip(block: nat, blockHash: nat, logIndex: int)
    ensures GetPosition(UpsertPosition(block, blockHash, logIndex))
      == Position(block, blockHash, if logIndex >= 0 then logIndex else -1)
  {}

  /** A fixed list of canonical logs: in log order, one hash per block, none removed. */
  ghost predicate Canonical(chain: seq<Log>) {
    && (forall i, j :: 0 <= i < j < |chain| ==>
          chain[i].block < chain[j].block || (chain[i].block == chain[j].block && chain[i].index < chain[j].index))
    && (forall i, j :: 0 <= i < |chain| && 0 <= j < |chain| && chain[i].block == chain[j].block ==> chain[i].blockHash == chain[j].blockHash)
    && (forall i :: 0 <= i < |chain| ==> !chain[i].removed)
  }

  predicate AtOrBefore(log: Log, c: Position) {
    log.block < c.block || (log.block == c.block && log.index <= c.logIndex)
  }

  /** The cursor stands right after the first `q` logs, on this fork. */
  ghost predicate Marks(c: Position, chain: seq<Log>, q: nat) {
    && q <= |chain|
    && (forall i :: 0 <= i < |chain| ==> (AtOrBefore(chain[i], c) <==> i < q))
    && (forall i :: 0 <= i < |chain| && chain[i].block == c.block ==> c.blockHash == 0 || chain[i].blockHash == c.blockHash)
  }

  /** The tables hold exactly the first `p` logs, and the cursor is at most one behind. */
  ghost predicate Synced(chain: seq<Log>, base: Db, db: Db, row: Option<CursorRow>, p: nat) {
    && p <= |chain| && Replay(base, chain[..p]) == Some(db) && row.Some?
    && (Marks(GetPosition(row.value), chain, p) || (p > 0 && Marks(GetPosition(row.value), chain, p - 1)))
  }

  lemma ReplayNext(chain: seq<Log>, base: Db, db: Db, p: nat)
    requires p < |chain| && Replay(base, chain[..p]) == Some(db)
    ensures Replay(base, chain[..p + 1]) == Effect(db, chain[p])
  {
    assert chain[..p + 1][..p] == chain[..p];
  }

  /** A log that is the last one the tables hold changes nothing when it comes again. */
  lemma ReplayedAgain(chain: seq<Log>, base: Db, db: Db, p: nat)
    requires 0 < p <= |chain| && Replay(base, chain[..p]) == Some(db) && !chain[p - 1].removed
    ensures Effect(db, chain[p - 1]) == Some(db)
  {
    assert chain[..p][..p - 1] == chain[..p - 1];
    var before := Replay(base, chain[..p - 1]).value;
    if chain[p - 1].body.Decoded? {
      var e := chain[p - 1].body.event;
      assert e.Key() in Apply(before, e).events;
      assert e.name == OrderExecuted ==> e.order in Apply(before, e).orders;
    }
  }

  lemma AdvancedMarks(chain: seq<Log>, i: nat)
    requires Canonical(chain) && i < |chain|
    ensures Marks(GetPosition(UpsertPosition(chain[i].block, chain[i].blockHash, chain[i].index)), chain, i + 1)
  {}

  /** Among the logs a backfill fetches, the skipped ones are those before the cursor. */
  lemma SkippedExactly(chain: seq<Log>, c: Position, q: nat, i: nat)
    requires Canonical(chain) && Marks(c, chain, q) && i < |chain|
    ensures c.block <= chain[i].block && !ShouldSkip(Some(c), chain[i]) <==> q <= i
  {
    assert AtOrBefore(chain[i], c) <==> i < q;
  }

  lemma BeyondLatest(chain: seq<Log>, q: nat, latest: nat)
    requires Canonical(chain) && q < |chain| && chain[q].block > latest
    ensures forall i :: q <= i < |chain| ==> chain[i].block > latest
  {}

  // ---------------------------------------------------------------- the subscriber

  class Subscriber {
    const service: S.Service
    var cursor: Option<CursorRow>

    constructor (service: S.Service)
      ensures this.service == service && cursor == None
    {
      this.service, this.cursor := service, None;
    }

    /** Routes one decoded event; false is an error. */
    method ApplyEvent(e: Event, removed: bool, now: nat) returns (ok: bool)
      requires service.db.Valid()
      modifies service.db
      ensures service.db.Valid()
      ensures var effect := Effect(old(service.db.Snapshot()), Log(0, 0, 0, removed, Decoded(e)));
        ok == effect.Some? && service.db.Snapshot() == effect.GetOr(old(service.db.Snapshot()))
    {
      if removed {
        service.Revert(e, now);
        return true;
      }
      var outcome;
      if e.name == OrderExecuted {
        outcome := service.Apply(e, now);
      } else {
        outcome := service.ApplyNonceInvalidated(e, now);
      }
      ok := outcome != MissingOrder;
    }

    /** Applies a log, then saves the cursor. `commits` is how many of the two commits
        are reached before the process dies. */
    method HandleLog(log: Log, commits: nat, now: nat) returns (ok: bool)
      requires service.db.Valid()
      modifies this`cursor, service.db
      ensures service.db.Valid()
      ensures var effect := Effect(old(service.db.Snapshot()), log);
        && ok == (effect.Some? && commits >= 2)
        && service.db.Snapshot() == (if commits >= 1 then effect.GetOr(old(service.db.Snapshot())) else old(service.db.Snapshot()))
        && cursor == if ok then Some(UpsertPosition(log.block, log.blockHash, log.index)) else old(cursor)
      ensures ok && log.body.Decoded? ==> (log.body.event.Key() in service.db.events <==> !log.removed)
    {
      if log.body.Undecodable? || commits == 0 { return false; }
      ok := true;
      if log.body.Decoded? { ok := ApplyEvent(log.body.event, log.removed, now); }
      ok := ok && commits >= 2;
      if ok { cursor := Some(UpsertPosition(log.block, log.blockHash, log.index)); }
    }

    /** Handles logs as they are delivered, removed ones among them, up to the first error. */
    method HandleDelivered(logs: seq<Log>, now: nat) returns (ok: bool)
      requires service.db.Valid()
      modifies this`cursor, service.db
      ensures service.db.Valid()
      ensures ok ==> service.db.Snapshot() == R.Run(old(service.db.Snapshot()), ActionsOf(logs))
      ensures ok && logs != [] ==>
        var last := logs[|logs| - 1]; cursor == Some(UpsertPosition(last.block, last.blockHash, last.index))
      ensures ok ==> forall i :: 0 <= i < |logs| ==> !logs[i].body.Undecodable?
    {
      ghost var before := service.db.Snapshot();
      var i := 0;
      while i < |logs|
        invariant 0 <= i <= |logs| && service.db.Valid()
        invariant Replay(before, logs[..i]) == Some(service.db.Snapshot())
        invariant i > 0 ==> cursor == Some(UpsertPosition(logs[i - 1].block, logs[i - 1].blockHash, logs[i - 1].index))
      {
        ReplayNext(logs, before, service.db.Snapshot(), i);
        ok := HandleLog(logs[i], 2, now);
        if !ok { return; }
        i := i + 1;
      }
      assert logs[..i] == logs;
      ReplayIsRun(before, logs);
      ok := true;
    }

    /** Handles the log right after the cursor, which the tables may hold already. */
    method HandleNext(chain: seq<Log>, i: nat, commits: nat, now: nat, ghost base: Db, ghost p: nat)
      returns (ok: bool, ghost q: nat)
      requires service.db.Valid() && Canonical(chain) && i < |chain| && i <= p <= i + 1
      requires Replay(base, chain[..p]) == Some(service.db.Snapshot())
      modifies this`cursor, service.db
      ensures service.db.Valid() && p <= q <= i + 1 && Replay(base, chain[..q]) == Some(service.db.Snapshot())
      ensures ok ==> commits >= 2 && q == i + 1 && cursor.Some? && Marks(GetPosition(cursor.value), chain, i + 1)
      ensures !ok ==> cursor == old(cursor) && (commits < 2 || (q == i && Effect(service.db.Snapshot(), chain[i]) == None))
    {
      if p == i { ReplayNext(chain, base, service.db.Snapshot(), p); }
      else { ReplayedAgain(chain, base, service.db.Snapshot(), p); }
      ghost var applied := Effect(service.db.Snapshot(), chain[i]).Some? && commits >= 1;
      ok := HandleLog(chain[i], commits, now);
      q := if applied then i + 1 else p;
      AdvancedMarks(chain, i);
    }

    /** Replays the logs of blocks [from, latest] past the cursor it was given; the
        process dies after `budget` commits. */
    method BackfillFromCursor(chain: seq<Log>, from: nat, latest: nat, start: Option<Position>, budget: nat, now: nat,
                              ghost base: Db, ghost p: nat)
      returns (finished: bool, ghost q: nat)
      requires service.db.Valid() && Canonical(chain)
      requires Synced(chain, base, service.db.Snapshot(), cursor, p)
      requires start == Some(GetPosition(cursor.value)) && from == start.value.block
      modifies this`cursor, service.db
      ensures service.db.Valid() && p <= q && Synced(chain, base, service.db.Snapshot(), cursor, q)
      ensures finished ==> forall i :: q <= i < |chain| ==> chain[i].block > latest
      ensures !finished ==> budget < 2 * |chain| || (q < |chain| && Effect(service.db.Snapshot(), chain[q]) == None)
    {
      q := p;
      ghost var first := if Marks(start.value, chain, p) then p else p - 1;
      ghost var marked := first;
      var left := budget;
      var i := 0;
      while i < |chain|
        invariant 0 <= i <= |chain| && service.db.Valid() && cursor.Some?
        invariant first <= marked <= q <= |chain|
        invariant Marks(GetPosition(cursor.value), chain, marked)
        invariant Replay(base, chain[..q]) == Some(service.db.Snapshot())
        invariant if marked == first then q == p else q == marked
        invariant left == budget - 2 * (marked - first)
        invariant if i <= marked then i == marked || marked == first else chain[marked].block > latest
      {
        var log := chain[i];
        SkippedExactly(chain, start.value, first, i);
        if from <= log.block <= latest && !ShouldSkip(start, log) {
          var ok;
          ok, q := HandleNext(chain, i, left, now, base, q);
          if !ok { return false, q; }
          marked := marked + 1;
          left := left - 2;
        }
        i := i + 1;
      }
      if marked < |chain| { BeyondLatest(chain, marked, latest); }
      finished := true;
    }

    /** One backfill: from the block of the stored cursor up to the latest block. */
    method BackfillRecentLogs(chain: seq<Log>, latest: nat, budget: nat, now: nat, ghost base: Db, ghost p: nat)
      returns (finished: bool, ghost q: nat)
      requires service.db.Valid() && Canonical(chain)
      requires Synced(chain, base, service.db.Snapshot(), cursor, p)
      modifies this`cursor, service.db
      ensures service.db.Valid() && p <= q && Synced(chain, base, service.db.Snapshot(), cursor, q)
      ensures finished ==> forall i :: q <= i < |chain| ==> chain[i].block > latest
      ensures !finished ==> budget < 2 * |chain| || (q < |chain| && Effect(service.db.Snapshot(), chain[q]) == None)
    {
      var position := GetPosition(cursor.value);
      if position.block > latest {
        q := p;
        finished := true;
        assert forall i :: q <= i < |chain| ==> chain[i].block >= position.block;
        return;
      }
      finished, q := BackfillFromCursor(chain, position.block, latest, Some(position), budget, now, base, p);
    }

    /** Any number of backfills, each cut short anywhere, leave the tables equal to a prefix
        of the logs applied once in order. */
    method BackfillAgainAndAgain(chain: seq<Log>, runs: seq<(nat, nat)>, now: nat, ghost base: Db, ghost p: nat)
      returns (ghost q: nat)
      requires service.db.Valid() && Canonical(chain)
      requires Synced(chain, base, service.db.Snapshot(), cursor, p)
      modifies this`cursor, service.db
      ensures service.db.Valid() && p <= q && Synced(chain, base, service.db.Snapshot(), cursor, q)
    {
      q := p;
      for i := 0 to |runs|
        invariant service.db.Valid() && p <= q && Synced(chain, base, service.db.Snapshot(), cursor, q)
      {
        var finished;
        finished, q := BackfillRecentLogs(chain, runs[i].0, runs[i].1, now, base, q);
      }
    }
  }
}
