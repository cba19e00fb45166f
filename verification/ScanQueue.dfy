/** The order in which the executor visits open orders: least recently checked first. */
module ScanQueue {
  import opened Listing
  import opened Options
  import opened Orders
  import opened Executor

  /** What scanning depends on in an open order: its two times, whether its payload can be
      read, and whether its reason is one that delays the next check. */
  datatype Row = Row(lastCheckAt: nat, updatedAt: nat, readable: bool, blocked: bool)

  predicate Cooling(r: Row, now: nat, retry: nat) {
    retry > 0 && r.blocked && r.lastCheckAt != 0 && now < r.lastCheckAt + retry
  }

  /** One visit. A cooling order is left alone, an unreadable one only marked as updated; any
      other is checked, and `blocked` says whether the check ends with a delaying reason. */
  function Visited(r: Row, now: nat, retry: nat, blocked: bool): Row {
    if Cooling(r, now, retry) then r
    else if !r.readable then r.(updatedAt := now, blocked := false)
    else Row(now, now, r.readable, blocked)
  }

  function RowOf(o: Order, updatedAt: nat): Row {
    Row(o.lastExecutionCheckAt, updatedAt, BuildSettlementOrder(o.definition).Some?, ProtocolBlocked(o.statusReason, o.lastBlockReason))
  }

  /** An evaluation that nobody else's commits come between. */
  function Evaluated(o: Order, cfg: Config, a: Answers, now: nat): Order {
    var start := Begin(map[0 := o], 0, o, now, cfg);
    var first := Updated(map[0 := o], 0, FirstMove(start, now));
    if start.Taken? then Updated(first, 0, Some(LastMove(true, o.definition, start.payload, cfg, a, now)))[0] else first[0]
  }

  /** A visit is what an evaluation that leaves the order open does to its row. */
  lemma VisitIsEvaluation(o: Order, updatedAt: nat, cfg: Config, a: Answers, now: nat)
    requires o.status == Open && Evaluated(o, cfg, a, now).status == Open
    ensures var after := Evaluated(o, cfg, a, now);
      RowOf(after, if after == o && DelaysRecheck(o, now, cfg.retryInterval) then updatedAt else now)
        == Visited(RowOf(o, updatedAt), now, cfg.retryInterval, ProtocolBlocked(after.statusReason, after.lastBlockReason))
  {
    var start := Begin(map[0 := o], 0, o, now, cfg);
    if start.Taken? { ClosingReleasesClaim(o.definition, start.payload, cfg, a, now); }
  }

  datatype Slot = Slot(lastCheckAt: nat, updatedAt: nat, id: nat)

  const OLDER: (Slot, Slot) -> bool := (a: Slot, b: Slot) =>
    a.lastCheckAt < b.lastCheckAt
    || (a.lastCheckAt == b.lastCheckAt && a.updatedAt < b.updatedAt)
    || (a.lastCheckAt == b.lastCheckAt && a.updatedAt == b.updatedAt && a.id < b.id)

  function SlotOf(rows: map<nat, Row>, id: nat): Slot
    requires id in rows
  {
    Slot(rows[id].lastCheckAt, rows[id].updatedAt, id)
  }

  function Slots(rows: map<nat, Row>): set<Slot> {
    set id | id in rows :: SlotOf(rows, id)
  }

  ghost function Sorted(rows: map<nat, Row>): (q: seq<Slot>)
    ensures IsListing(q, Slots(rows), OLDER)
  {
    ListingOf(Slots(rows), OLDER)
  }

  function Ids(q: seq<Slot>): (r: seq<nat>)
    ensures |r| == |q| && forall i :: 0 <= i < |q| ==> r[i] == q[i].id
  {
    seq(|q|, i requires 0 <= i < |q| => q[i].id)
  }

  /** The queue of open orders. */
  ghost function Queue(rows: map<nat, Row>): seq<nat> {
    Ids(Sorted(rows))
  }

  lemma QueueHolds(rows: map<nat, Row>)
    ensures forall id :: id in Queue(rows) <==> id in rows
    ensures forall i, j :: 0 <= i < j < |Queue(rows)| ==> Queue(rows)[i] != Queue(rows)[j]
    ensures forall i :: 0 <= i < |Queue(rows)| ==> Queue(rows)[i] in rows && Sorted(rows)[i] == SlotOf(rows, Queue(rows)[i])
  {
    var q := Sorted(rows);
    forall i | 0 <= i < |q| ensures q[i].id in rows && q[i] == SlotOf(rows, q[i].id) { assert q[i] in Slots(rows); }
    forall id | id in rows ensures id in Queue(rows) {
      assert SlotOf(rows, id) in Slots(rows);
      var i :| 0 <= i < |q| && q[i] == SlotOf(rows, id);
      assert Queue(rows)[i] == id;
    }
    forall i, j | 0 <= i < j < |q| ensures q[i].id != q[j].id { assert OLDER(q[i], q[j]); }
  }

  /** The first n of the queue. */
  function Batch(q: seq<nat>, n: nat): seq<nat> {
    if n < |q| then q[..n] else q
  }

  // ---------------------------------------------------------------- scans

  datatype Table = Table(rows: map<nat, Row>, clock: nat)

  predicate Past(t: Table) {
    forall id :: id in t.rows ==> t.rows[id].lastCheckAt <= t.clock && t.rows[id].updatedAt <= t.clock
  }

  /** One scan of a schedule: how long the executor waits before it, how long before its
      i-th visit, and whether that visit finds the order's execution blocked. */
  datatype Scan = Scan(wait: nat, gaps: nat -> nat, blocked: nat -> bool)

  function VisitNth(t: Table, id: nat, scan: Scan, i: nat, retry: nat): Table
    requires id in t.rows
  {
    var now := t.clock + 1 + scan.gaps(i);
    Table(t.rows[id := Visited(t.rows[id], now, retry, scan.blocked(i))], now)
  }

  /** After the first n visits of a page. */
  ghost function VisitPage(t: Table, page: seq<nat>, scan: Scan, n: nat, retry: nat): (r: Table)
    requires n <= |page| && forall id :: id in page ==> id in t.rows
    ensures r.rows.Keys == t.rows.Keys && r.clock >= t.clock + n
  {
    if n == 0 then t else VisitNth(VisitPage(t, page, scan, n - 1, retry), page[n - 1], scan, n - 1, retry)
  }

  ghost function PageOf(t: Table, batch: nat): (page: seq<nat>)
    ensures forall id :: id in page ==> id in t.rows
  {
    QueueHolds(t.rows);
    Batch(Queue(t.rows), batch)
  }

  lemma PageIsDistinct(t: Table, batch: nat)
    ensures var page := PageOf(t, batch);
      |page| <= batch && forall i, j :: 0 <= i < j < |page| ==> page[i] != page[j]
  {
    QueueHolds(t.rows);
  }

  /** Checked longer ago, or updated longer ago, or of a smaller number. */
  predicate LessRecent(a: Row, i: nat, b: Row, j: nat) {
    || a.lastCheckAt < b.lastCheckAt
    || (a.lastCheckAt == b.lastCheckAt && a.updatedAt < b.updatedAt)
    || (a.lastCheckAt == b.lastCheckAt && a.updatedAt == b.updatedAt && i < j)
  }

  /** A page holds the least recently checked orders, in that order, as many as fit. */
  lemma PageIsLeastRecent(t: Table, batch: nat)
    ensures var page := PageOf(t, batch);
      && |page| == (if batch < |t.rows.Keys| then batch else |t.rows.Keys|)
      && (forall i, j :: 0 <= i < j < |page| ==> LessRecent(t.rows[page[i]], page[i], t.rows[page[j]], page[j]))
      && (forall i, x :: 0 <= i < |page| && x in t.rows && x !in page ==> LessRecent(t.rows[page[i]], page[i], t.rows[x], x))
  {
    var queue, sorted := Queue(t.rows), Sorted(t.rows);
    QueueHolds(t.rows);
    PrefixOfDistinct(queue, |queue|);
    assert Prefix(queue, |queue|) == t.rows.Keys;
    forall i, x | 0 <= i < |PageOf(t, batch)| && x in t.rows && x !in PageOf(t, batch)
      ensures LessRecent(t.rows[PageOf(t, batch)[i]], PageOf(t, batch)[i], t.rows[x], x)
    {
      var k :| 0 <= k < |queue| && queue[k] == x;
      InBatch(queue, batch, k);
      assert OLDER(sorted[i], sorted[k]);
    }
    forall i, j | 0 <= i < j < |PageOf(t, batch)|
      ensures LessRecent(t.rows[PageOf(t, batch)[i]], PageOf(t, batch)[i], t.rows[PageOf(t, batch)[j]], PageOf(t, batch)[j])
    {
      assert OLDER(sorted[i], sorted[j]);
    }
  }

  function Waited(t: Table, scan: Scan): Table {
    t.(clock := t.clock + scan.wait)
  }

  ghost function After(t: Table, scan: Scan, batch: nat, retry: nat): (r: Table)
    ensures r.rows.Keys == t.rows.Keys && r.clock >= t.clock + scan.wait
  {
    VisitPage(Waited(t, scan), PageOf(t, batch), scan, |PageOf(t, batch)|, retry)
  }

  ghost function Run(t: Table, scans: seq<Scan>, batch: nat, retry: nat): (r: Table)
    ensures r.rows.Keys == t.rows.Keys
    decreases |scans|
  {
    if scans == [] then t else Run(After(t, scans[0], batch, retry), scans[1..], batch, retry)
  }

  class Scanner {
    var rows: map<nat, Row>
    var clock: nat
    const retry: nat

    function State(): Table
      reads this
    {
      Table(rows, clock)
    }

    /** Loads one batch and visits its orders in turn; the clock moves on before each visit. */
    method ScanOnce(batch: nat, scan: Scan) returns (page: seq<nat>)
      modifies this
      ensures page == old(PageOf(State(), batch))
      ensures State() == After(old(State()), scan, batch, retry)
    {
      hide Queue, VisitPage;
      page := ListOpenOrders(batch);
      clock := clock + scan.wait;
      VisitAll(page, scan);
    }

    method VisitAll(page: seq<nat>, scan: Scan)
      requires forall id :: id in page ==> id in rows
      modifies this
      ensures State() == VisitPage(old(State()), page, scan, |page|, retry)
    {
      var i := 0;
      while i < |page|
        invariant 0 <= i <= |page|
        invariant State() == VisitPage(old(State()), page, scan, i, retry)
      {
        Visit(page[i], scan, i);
        i := i + 1;
      }
    }

    method Visit(id: nat, scan: Scan, i: nat)
      requires id in rows
      modifies this
      ensures State() == VisitNth(old(State()), id, scan, i, retry)
    {
      clock := clock + 1 + scan.gaps(i);
      rows := rows[id := Visited(rows[id], clock, retry, scan.blocked(i))];
    }

    method ListOpenOrders(batch: nat) returns (page: seq<nat>)
      ensures page == PageOf(State(), batch)
    {
      var sorted := Sort(Slots(rows), OLDER);
      page := Ids(if batch < |sorted| then sorted[..batch] else sorted);
    }
  }

  // ---------------------------------------------------------------- what a page of visits does

  /** A row and what became of it between two times. */
  predicate Later(r: Row, after: Row, from: nat, upTo: nat, retry: nat) {
    && after.readable == r.readable
    && (|| (after == r && Cooling(r, from + 1, retry))
        || (from < after.updatedAt <= upTo && after.lastCheckAt == if r.readable then after.updatedAt else r.lastCheckAt))
  }

  lemma {:induction false} PageVisited(t: Table, page: seq<nat>, scan: Scan, n: nat, retry: nat, id: nat)
    requires n <= |page| && forall x :: x in page ==> x in t.rows
    requires forall i, j :: 0 <= i < j < |page| ==> page[i] != page[j]
    requires id in t.rows
    ensures var after := VisitPage(t, page, scan, n, retry);
      if id in page[..n] then Later(t.rows[id], after.rows[id], t.clock, after.clock, retry)
      else after.rows[id] == t.rows[id]
  {
    if n > 0 {
      PageVisited(t, page, scan, n - 1, retry, id);
      LastIsNew(page, n);
    }
  }

  lemma LastIsNew(page: seq<nat>, n: nat)
    requires 0 < n <= |page| && forall i, j :: 0 <= i < j < |page| ==> page[i] != page[j]
    ensures page[..n] == page[..n - 1] + [page[n - 1]] && page[n - 1] !in page[..n - 1]
  {}

  lemma Scanned(t: Table, scan: Scan, batch: nat, retry: nat, id: nat)
    requires id in t.rows
    ensures var after := After(t, scan, batch, retry);
      if id in PageOf(t, batch) then Later(t.rows[id], after.rows[id], t.clock + scan.wait, after.clock, retry)
      else after.rows[id] == t.rows[id]
  {
    var page := PageOf(t, batch);
    PageIsDistinct(t, batch);
    PageVisited(Waited(t, scan), page, scan, |page|, retry, id);
    assert page[..|page|] == page;
  }

  lemma ScanKeepsPast(t: Table, scan: Scan, batch: nat, retry: nat)
    requires Past(t)
    ensures Past(After(t, scan, batch, retry))
    ensures Unreadable(After(t, scan, batch, retry)) == Unreadable(t)
  {
    forall id | id in t.rows
      ensures var r := After(t, scan, batch, retry).rows[id];
        r.lastCheckAt <= After(t, scan, batch, retry).clock && r.updatedAt <= After(t, scan, batch, retry).clock
        && r.readable == t.rows[id].readable
    {
      Scanned(t, scan, batch, retry, id);
    }
  }

  /** The orders whose payload cannot be read. */
  function Unreadable(t: Table): set<nat> {
    set id | id in t.rows && !t.rows[id].readable
  }

  // ---------------------------------------------------------------- rotation

  lemma SlotsUpdated(rows: map<nat, Row>, id: nat, r: Row)
    requires id in rows
    ensures Slots(rows[id := r]) == Slots(rows) - {SlotOf(rows, id)} + {SlotOf(rows[id := r], id)}
  {
    var after := rows[id := r];
    forall x ensures x in Slots(after) <==> x in Slots(rows) - {SlotOf(rows, id)} + {SlotOf(after, id)} {
      if x in Slots(rows) && x.id != id { assert x == SlotOf(after, x.id); }
      if x in Slots(after) && x.id != id { assert x == SlotOf(rows, x.id); }
    }
  }

  /** A completed check moves the head of the queue to its end. */
  lemma CheckedGoesLast(t: Table, id: nat, r: Row)
    requires Past(t) && Queue(t.rows) != [] && Queue(t.rows)[0] == id && id in t.rows
    requires r.lastCheckAt > t.clock
    ensures Queue(t.rows[id := r]) == Queue(t.rows)[1..] + [id]
  {
    var q, after := Sorted(t.rows), t.rows[id := r];
    var last := SlotOf(after, id);
    assert q[0] == SlotOf(t.rows, id) by { QueueHolds(t.rows); }
    assert IsListing(q[1..] + [last], Slots(after), OLDER) by {
      SlotsUpdated(t.rows, id, r);
      assert forall x :: x in Slots(t.rows) ==> OLDER(x, last);
      HeadGoesLast(q, Slots(t.rows), OLDER, last);
    }
    assert Sorted(after) == q[1..] + [last] by { ListingUnique(Sorted(after), q[1..] + [last], Slots(after), OLDER); }
    IdsTurned(q, last);
  }

  lemma IdsTurned(q: seq<Slot>, last: Slot)
    requires q != []
    ensures Ids(q[1..] + [last]) == Ids(q)[1..] + [last.id]
  {}

  /** Every order can be read, and none is cooling at the given time. */
  predicate AllReady(t: Table, now: nat, retry: nat) {
    forall id :: id in t.rows ==> t.rows[id].readable && !Cooling(t.rows[id], now, retry)
  }

  /** A scan of orders that are all ready turns the queue by the orders it visits. */
  lemma ScanRotates(t: Table, scan: Scan, batch: nat, retry: nat)
    requires Past(t) && AllReady(t, t.clock + scan.wait, retry)
    ensures var page := PageOf(t, batch);
      Queue(After(t, scan, batch, retry).rows) == Queue(t.rows)[|page|..] + page
  {
    var page := PageOf(t, batch);
    PageIsDistinct(t, batch);
    PageRotates(Waited(t, scan), page, scan, |page|, retry);
    assert page[..|page|] == page;
  }

  lemma {:induction false} PageRotates(t: Table, page: seq<nat>, scan: Scan, n: nat, retry: nat)
    requires Past(t) && AllReady(t, t.clock, retry) && page <= Queue(t.rows) && n <= |page|
    requires forall id :: id in page ==> id in t.rows
    requires forall i, j :: 0 <= i < j < |page| ==> page[i] != page[j]
    ensures Past(VisitPage(t, page, scan, n, retry))
    ensures Queue(VisitPage(t, page, scan, n, retry).rows) == Queue(t.rows)[n..] + page[..n]
  {
    hide Queue, VisitNth;
    if n == 0 {
      assert Queue(t.rows)[0..] + page[..0] == Queue(t.rows);
    } else {
      PageRotates(t, page, scan, n - 1, retry);
      VisitRotates(t, page, scan, n - 1, retry);
    }
  }

  lemma VisitRotates(t: Table, page: seq<nat>, scan: Scan, i: nat, retry: nat)
    requires AllReady(t, t.clock, retry) && page <= Queue(t.rows) && i < |page|
    requires forall id :: id in page ==> id in t.rows
    requires forall i, j :: 0 <= i < j < |page| ==> page[i] != page[j]
    requires Past(VisitPage(t, page, scan, i, retry))
    requires Queue(VisitPage(t, page, scan, i, retry).rows) == Queue(t.rows)[i..] + page[..i]
    ensures Past(VisitPage(t, page, scan, i + 1, retry))
    ensures Queue(VisitPage(t, page, scan, i + 1, retry).rows) == Queue(t.rows)[i + 1..] + page[..i + 1]
  {
    NotVisitedYet(t, page, scan, i, retry);
    ReadyGoesLast(VisitPage(t, page, scan, i, retry), Queue(t.rows), page, scan, i, retry);
  }

  lemma NotVisitedYet(t: Table, page: seq<nat>, scan: Scan, i: nat, retry: nat)
    requires i < |page| && forall x :: x in page ==> x in t.rows
    requires forall i, j :: 0 <= i < j < |page| ==> page[i] != page[j]
    requires AllReady(t, t.clock, retry)
    ensures var before := VisitPage(t, page, scan, i, retry);
      before.rows[page[i]].readable && !Cooling(before.rows[page[i]], before.clock, retry)
  {
    LastIsNew(page, i + 1);
    PageVisited(t, page, scan, i, retry, page[i]);
  }

  lemma ReadyGoesLast(t: Table, queue: seq<nat>, page: seq<nat>, scan: Scan, i: nat, retry: nat)
    requires Past(t) && i < |page| && page <= queue && page[i] in t.rows && Queue(t.rows) == queue[i..] + page[..i]
    requires t.rows[page[i]].readable && !Cooling(t.rows[page[i]], t.clock, retry)
    ensures var after := VisitNth(t, page[i], scan, i, retry);
      Past(after) && Queue(after.rows) == queue[i + 1..] + page[..i + 1]
  {
    Turned(queue, page, i);
    CheckedGoesLast(t, page[i], VisitNth(t, page[i], scan, i, retry).rows[page[i]]);
  }

  /** One visit further around the queue. */
  lemma Turned(queue: seq<nat>, page: seq<nat>, i: nat)
    requires i < |page| && page <= queue
    ensures var now := queue[i..] + page[..i];
      now != [] && now[0] == page[i] && now[1..] + [page[i]] == queue[i + 1..] + page[..i + 1]
  {}

  // ---------------------------------------------------------------- no starvation

  /** A row has been visited since, and checked if it can be. */
  predicate Touched(r: Row, since: nat) {
    if r.readable then r.lastCheckAt > since else r.updatedAt > since
  }

  /** The scans of a schedule that start when `due` has come. */
  ghost function LateScans(t: Table, due: nat, scans: seq<Scan>, batch: nat, retry: nat): nat
    decreases |scans|
  {
    if scans == [] then 0
    else (if t.clock + scans[0].wait >= due then 1 else 0)
         + LateScans(After(t, scans[0], batch, retry), due, scans[1..], batch, retry)
  }

  /** The readable orders before x in the queue. */
  function Ahead(rows: map<nat, Row>, x: nat): set<nat>
    requires x in rows
  {
    set y | y in rows && rows[y].readable && OLDER(SlotOf(rows, y), SlotOf(rows, x))
  }

  /** A row not touched yet. */
  predicate Waiting(t: Table, x: nat, since: nat) {
    && x in t.rows && Past(t) && since <= t.clock
    && t.rows[x].lastCheckAt <= since && !Touched(t.rows[x], since)
  }

  lemma StillWaiting(t: Table, scan: Scan, batch: nat, retry: nat, x: nat, since: nat)
    requires Waiting(t, x, since) && !Touched(After(t, scan, batch, retry).rows[x], since)
    ensures Waiting(After(t, scan, batch, retry), x, since) && After(t, scan, batch, retry).rows[x] == t.rows[x]
    ensures t.clock + scan.wait >= since + retry ==> x !in PageOf(t, batch)
    ensures Ahead(After(t, scan, batch, retry).rows, x) <= Ahead(t.rows, x)
  {
    var after := After(t, scan, batch, retry);
    Scanned(t, scan, batch, retry, x);
    ScanKeepsPast(t, scan, batch, retry);
    forall y | y in Ahead(after.rows, x) ensures y in Ahead(t.rows, x) { Scanned(t, scan, batch, retry, y); }
  }

  /** A late scan that does not reach x checks orders ahead of it, and puts them behind. */
  lemma LateScanAdvances(t: Table, scan: Scan, batch: nat, retry: nat, x: nat, since: nat)
    requires Waiting(t, x, since) && !Touched(After(t, scan, batch, retry).rows[x], since)
    requires t.clock + scan.wait >= since + retry && |Unreadable(t)| < batch
    ensures |Ahead(After(t, scan, batch, retry).rows, x)| + (batch - |Unreadable(t)|) <= |Ahead(t.rows, x)|
  {
    var after, page := After(t, scan, batch, retry), PageOf(t, batch);
    StillWaiting(t, scan, batch, retry, x, since);
    PageAhead(t, batch, x);
    PageIsDistinct(t, batch);
    var checked := Prefix(page, |page|) - Unreadable(t);
    forall y | y in checked ensures y in Ahead(t.rows, x) && y !in Ahead(after.rows, x) {
      var i :| 0 <= i < |page| && page[i] == y;
      Scanned(t, scan, batch, retry, y);
    }
    PrefixOfDistinct(page, |page|);
    DifferenceCard(Prefix(page, |page|), Unreadable(t));
    SubsetCard(checked + Ahead(after.rows, x), Ahead(t.rows, x));
    assert checked !! Ahead(after.rows, x);
  }

  /** A page without x is full, and all before x. */
  lemma PageAhead(t: Table, batch: nat, x: nat)
    requires x in t.rows && x !in PageOf(t, batch)
    ensures |PageOf(t, batch)| == batch
    ensures forall i :: 0 <= i < batch ==> OLDER(SlotOf(t.rows, PageOf(t, batch)[i]), SlotOf(t.rows, x))
  {
    var queue, sorted := Queue(t.rows), Sorted(t.rows);
    QueueHolds(t.rows);
    var k :| 0 <= k < |queue| && queue[k] == x;
    InBatch(queue, batch, k);
    forall i | 0 <= i < batch ensures OLDER(SlotOf(t.rows, PageOf(t, batch)[i]), SlotOf(t.rows, x)) {
      assert OLDER(sorted[i], sorted[k]);
    }
  }

  lemma InBatch(q: seq<nat>, n: nat, k: nat)
    requires k < |q|
    ensures k < n ==> q[k] in Batch(q, n)
  {}

  lemma {:induction false} PrefixOfDistinct(q: seq<nat>, n: nat)
    requires n <= |q| && forall i, j :: 0 <= i < j < |q| ==> q[i] != q[j]
    ensures |Prefix(q, n)| == n
  {
    if n > 0 {
      PrefixOfDistinct(q, n - 1);
      assert Prefix(q, n) == Prefix(q, n - 1) + {q[n - 1]};
    }
  }

  lemma DifferenceCard(a: set<nat>, b: set<nat>)
    ensures |a - b| >= |a| - |b|
  {
    assert a == (a - b) + (a * b);
    SubsetCard(a * b, b);
  }

  function Prefix(q: seq<nat>, n: nat): set<nat>
    requires n <= |q|
  {
    set k | 0 <= k < n :: q[k]
  }

  lemma {:induction false} PrefixCard(q: seq<nat>, n: nat)
    requires n <= |q|
    ensures |Prefix(q, n)| <= n
  {
    if n > 0 {
      PrefixCard(q, n - 1);
      assert Prefix(q, n) == Prefix(q, n - 1) + {q[n - 1]};
    }
  }

  lemma {:induction false} TouchedStays(t: Table, scans: seq<Scan>, batch: nat, retry: nat, x: nat, since: nat)
    requires Past(t) && since <= t.clock && x in t.rows && Touched(t.rows[x], since)
    ensures Touched(Run(t, scans, batch, retry).rows[x], since)
    decreases |scans|
  {
    if scans != [] {
      Scanned(t, scans[0], batch, retry, x);
      ScanKeepsPast(t, scans[0], batch, retry);
      TouchedStays(After(t, scans[0], batch, retry), scans[1..], batch, retry, x, since);
    }
  }

  /** What n late scans get through, at `share` orders each. */
  function Reach(n: nat, share: nat): nat {
    if n == 0 then 0 else Reach(n - 1, share) + share
  }

  lemma {:induction false} ReachIsProduct(n: nat, share: nat)
    ensures Reach(n, share) == n * share
  {
    if n > 0 { ReachIsProduct(n - 1, share); }
  }

  lemma ScanProgresses(t: Table, scan: Scan, batch: nat, retry: nat, x: nat, since: nat)
    requires Waiting(t, x, since) && !Touched(After(t, scan, batch, retry).rows[x], since) && |Unreadable(t)| < batch
    ensures var after := After(t, scan, batch, retry);
      && Waiting(after, x, since) && |Unreadable(after)| == |Unreadable(t)|
      && |Ahead(after.rows, x)| + (if t.clock + scan.wait >= since + retry then batch - |Unreadable(t)| else 0) <= |Ahead(t.rows, x)|
  {
    var after := After(t, scan, batch, retry);
    StillWaiting(t, scan, batch, retry, x, since);
    ScanKeepsPast(t, scan, batch, retry);
    SubsetCard(Ahead(after.rows, x), Ahead(t.rows, x));
    if t.clock + scan.wait >= since + retry { LateScanAdvances(t, scan, batch, retry, x, since); }
  }

  lemma {:induction false} OrderIsReached(t: Table, scans: seq<Scan>, batch: nat, retry: nat, x: nat, since: nat, share: nat)
    requires Waiting(t, x, since) && |Unreadable(t)| < batch && share == batch - |Unreadable(t)|
    requires Reach(LateScans(t, since + retry, scans, batch, retry), share) > |Ahead(t.rows, x)|
    ensures Touched(Run(t, scans, batch, retry).rows[x], since)
    decreases |scans|
  {
    hide After;
    if scans != [] {
      var after := After(t, scans[0], batch, retry);
      if Touched(after.rows[x], since) {
        TouchedFrom(t, scans, batch, retry, x, since);
      } else {
        ScanProgresses(t, scans[0], batch, retry, x, since);
        OrderIsReached(after, scans[1..], batch, retry, x, since, share);
      }
    }
  }

  lemma TouchedFrom(t: Table, scans: seq<Scan>, batch: nat, retry: nat, x: nat, since: nat)
    requires scans != [] && Past(t) && x in t.rows && since <= t.clock
    requires Touched(After(t, scans[0], batch, retry).rows[x], since)
    ensures Touched(Run(t, scans, batch, retry).rows[x], since)
  {
    ScanKeepsPast(t, scans[0], batch, retry);
    TouchedStays(After(t, scans[0], batch, retry), scans[1..], batch, retry, x, since);
  }

  /** Starvation freedom: with fewer unreadable orders than a batch holds, any schedule of
      scans visits every order, and checks every readable one, as soon as enough of its scans
      have started after one retry interval; enough is one scan for each `batch` less the
      unreadable orders. */
  lemma EveryOrderIsReached(t: Table, scans: seq<Scan>, batch: nat, retry: nat, x: nat)
    requires Past(t) && |Unreadable(t)| < batch && x in t.rows
    requires LateScans(t, t.clock + retry, scans, batch, retry) * (batch - |Unreadable(t)|) >= |t.rows.Keys|
    ensures Touched(Run(t, scans, batch, retry).rows[x], t.clock)
  {
    hide After;
    var share := batch - |Unreadable(t)|;
    ReachIsProduct(LateScans(t, t.clock + retry, scans, batch, retry), share);
    AheadIsFewer(t, x);
    OrderIsReached(t, scans, batch, retry, x, t.clock, share);
  }

  lemma AheadIsFewer(t: Table, x: nat)
    requires x in t.rows
    ensures |Ahead(t.rows, x)| < |t.rows.Keys|
  {
    assert x !in Ahead(t.rows, x);
    SubsetCard(Ahead(t.rows, x) + {x}, t.rows.Keys);
  }

  // ---------------------------------------------------------------- starvation

  /** All unreadable orders were checked before x. */
  predicate Behind(t: Table, x: nat) {
    && x in t.rows && t.rows[x].readable
    && forall u :: u in Unreadable(t) ==> t.rows[u].lastCheckAt < t.rows[x].lastCheckAt
  }

  lemma BehindIsSkipped(t: Table, batch: nat, x: nat)
    requires Behind(t, x) && |Unreadable(t)| >= batch
    ensures x !in PageOf(t, batch)
  {
    var queue, sorted, page := Queue(t.rows), Sorted(t.rows), PageOf(t, batch);
    QueueHolds(t.rows);
    forall i | 0 <= i < |page| ensures page[i] != x {
      if queue[i] == x {
        forall u | u in Unreadable(t) ensures u in Prefix(queue, i) {
          var k :| 0 <= k < |queue| && queue[k] == u;
          assert !OLDER(sorted[i], sorted[k]) && k != i;
        }
        PrefixCard(queue, i);
        SubsetCard(Unreadable(t), Prefix(queue, i));
      }
    }
  }

  /** With a batch of unreadable orders before it, an order is never visited again. */
  lemma {:induction false} BehindIsNeverVisited(t: Table, scans: seq<Scan>, batch: nat, retry: nat, x: nat)
    requires Past(t) && Behind(t, x) && |Unreadable(t)| >= batch
    ensures Run(t, scans, batch, retry).rows[x] == t.rows[x]
    decreases |scans|
  {
    if scans != [] {
      var after := After(t, scans[0], batch, retry);
      BehindIsSkipped(t, batch, x);
      Scanned(t, scans[0], batch, retry, x);
      ScanKeepsPast(t, scans[0], batch, retry);
      forall u | u in Unreadable(t) ensures after.rows[u].lastCheckAt == t.rows[u].lastCheckAt {
        Scanned(t, scans[0], batch, retry, u);
      }
      BehindIsNeverVisited(after, scans[1..], batch, retry, x);
    }
  }

  /** What any run leaves of a row: unreadable ones keep their time of check, readable ones
      are as they were, or were checked since. */
  lemma {:induction false} KeptOrChecked(t: Table, scans: seq<Scan>, batch: nat, retry: nat, x: nat)
    requires Past(t) && x in t.rows
    ensures var after := Run(t, scans, batch, retry);
      && Past(after) && Unreadable(after) == Unreadable(t) && after.clock >= t.clock
      && (!t.rows[x].readable ==> after.rows[x].lastCheckAt == t.rows[x].lastCheckAt)
      && (t.rows[x].readable ==> after.rows[x] == t.rows[x] || after.rows[x].lastCheckAt > t.clock)
    decreases |scans|
  {
    if scans != [] {
      Scanned(t, scans[0], batch, retry, x);
      ScanKeepsPast(t, scans[0], batch, retry);
      KeptOrChecked(After(t, scans[0], batch, retry), scans[1..], batch, retry, x);
    }
  }

  /** With as many unreadable orders as a batch holds, every order is checked at most once:
      whatever a run has checked, no continuation visits again. */
  lemma CheckedIsNeverVisitedAgain(t: Table, scans: seq<Scan>, more: seq<Scan>, batch: nat, retry: nat, x: nat)
    requires Past(t) && |Unreadable(t)| >= batch && x in t.rows && t.rows[x].readable
    requires Run(t, scans, batch, retry).rows[x].lastCheckAt > t.clock
    ensures var after := Run(t, scans, batch, retry); Run(after, more, batch, retry).rows[x] == after.rows[x]
  {
    var after := Run(t, scans, batch, retry);
    KeptOrChecked(t, scans, batch, retry, x);
    forall u | u in Unreadable(after) ensures after.rows[u].lastCheckAt < after.rows[x].lastCheckAt {
      KeptOrChecked(t, scans, batch, retry, u);
    }
    BehindIsNeverVisited(after, more, batch, retry, x);
  }

  /** Some schedule leaves a readable order that no continuation of it ever checks. */
  ghost predicate Starves(t: Table, batch: nat, retry: nat) {
    exists scans: seq<Scan>, x: nat :: x in t.rows && t.rows[x].readable && StarvedAfter(t, scans, batch, retry, x)
  }

  ghost predicate StarvedAfter(t: Table, scans: seq<Scan>, batch: nat, retry: nat, x: nat)
    requires x in t.rows
  {
    forall more: seq<Scan> :: Run(Run(t, scans, batch, retry), more, batch, retry).rows[x] == Run(t, scans, batch, retry).rows[x]
  }

  /** One scan for each order, each after a whole retry interval. */
  ghost function PatientScans(n: nat, retry: nat): (scans: seq<Scan>)
    ensures |scans| == n
  {
    if n == 0 then [] else [Scan(retry, _ => 0, _ => false)] + PatientScans(n - 1, retry)
  }

  lemma {:induction false} PatientScansAreLate(t: Table, due: nat, n: nat, batch: nat, retry: nat)
    requires t.clock + retry >= due
    ensures LateScans(t, due, PatientScans(n, retry), batch, retry) == n
    decreases n
  {
    if n > 0 {
      var scans := PatientScans(n, retry);
      assert scans[1..] == PatientScans(n - 1, retry);
      PatientScansAreLate(After(t, scans[0], batch, retry), due, n - 1, batch, retry);
    }
  }

  lemma AtLeastEach(n: nat, share: nat)
    requires share > 0
    ensures n * share >= n
  {
    assert n * share == n + n * (share - 1);
  }

  lemma ReachableAfter(t: Table, scans: seq<Scan>, batch: nat, retry: nat, x: nat)
    requires Past(t) && |Unreadable(t)| < batch && x in t.rows && t.rows[x].readable
    ensures !StarvedAfter(t, scans, batch, retry, x)
  {
    hide After;
    var now := Run(t, scans, batch, retry);
    KeptOrChecked(t, scans, batch, retry, x);
    var n := |now.rows.Keys|;
    var more := PatientScans(n, retry);
    PatientScansAreLate(now, now.clock + retry, n, batch, retry);
    AtLeastEach(n, batch - |Unreadable(now)|);
    EveryOrderIsReached(now, more, batch, retry, x);
    KeptOrChecked(now, more, batch, retry, x);
    assert Run(now, more, batch, retry).rows[x] != now.rows[x];
  }

  /** The exact limit: on a fixed table with a readable order, some order can starve if and
      only if the unreadable ones fill a batch. */
  lemma StarvesExactly(t: Table, batch: nat, retry: nat)
    requires Past(t) && exists x :: x in t.rows && t.rows[x].readable
    ensures Starves(t, batch, retry) <==> |Unreadable(t)| >= batch
  {
    if |Unreadable(t)| >= batch {
      var x :| x in t.rows && t.rows[x].readable;
      if scans: seq<Scan> :| Run(t, scans, batch, retry).rows[x].lastCheckAt > t.clock {
        forall more: seq<Scan>
          ensures Run(Run(t, scans, batch, retry), more, batch, retry).rows[x] == Run(t, scans, batch, retry).rows[x]
        {
          CheckedIsNeverVisitedAgain(t, scans, more, batch, retry, x);
        }
        assert StarvedAfter(t, scans, batch, retry, x);
      } else {
        forall more: seq<Scan> ensures Run(t, more, batch, retry).rows[x] == t.rows[x] {
          KeptOrChecked(t, more, batch, retry, x);
        }
        assert StarvedAfter(t, [], batch, retry, x);
      }
    } else {
      forall scans: seq<Scan>, x: nat | x in t.rows && t.rows[x].readable ensures !StarvedAfter(t, scans, batch, retry, x) {
        ReachableAfter(t, scans, batch, retry, x);
      }
    }
  }

  const TWO_ORDERS := Table(map[1 := Row(0, 0, false, false), 2 := Row(5, 5, true, false)], 5)

  /** One unreadable order, a batch of one: the readable order is never visited. */
  lemma TwoOrdersStarve(scans: seq<Scan>, retry: nat)
    ensures Past(TWO_ORDERS) && Run(TWO_ORDERS, scans, 1, retry).rows[2] == TWO_ORDERS.rows[2]
  {
    assert Unreadable(TWO_ORDERS) == {1};
    BehindIsNeverVisited(TWO_ORDERS, scans, 1, retry, 2);
  }
}
