/** Keyset pagination of a maker's orders, by creation time or by last update. */
module Pagination {
  import opened Options
  import opened Listing
  import opened Orders

  datatype Row = Row(chainId: nat, settlement: Address, maker: Address, status: Status, createdAt: nat, updatedAt: nat)

  datatype SortBy = CreatedAt | UpdatedAt

  /** No settlement and no statuses mean no restriction. */
  datatype Query = Query(chainId: nat, maker: Address, settlement: Option<Address>, statuses: set<Status>, order: SortBy)

  predicate Matches(q: Query, row: Row) {
    && row.chainId == q.chainId && row.maker == q.maker
    && (q.settlement.Some? ==> row.settlement == q.settlement.value)
    && (q.statuses != {} ==> row.status in q.statuses)
  }

  /** Where a row stands in a listing; also what a page cursor encodes. */
  datatype Place = Place(at: nat, id: nat)

  function PlaceOf(q: Query, id: nat, row: Row): Place {
    Place(if q.order == CreatedAt then row.createdAt else row.updatedAt, id)
  }

  const NEWER: (Place, Place) -> bool := (a: Place, b: Place) => a.at > b.at || (a.at == b.at && a.id > b.id)

  function Selected(table: map<nat, Row>, q: Query): set<Place> {
    set id | id in table && Matches(q, table[id]) :: PlaceOf(q, id, table[id])
  }

  function After(s: set<Place>, cursor: Option<Place>): set<Place> {
    set p | p in s && (cursor.None? || NEWER(cursor.value, p))
  }

  /** The whole answer, newest first. */
  ghost function Newest(s: set<Place>): (q: seq<Place>)
    ensures IsListing(q, s, NEWER)
  {
    ListingOf(s, NEWER)
  }

  /** The column asked for. */
  function Column(q: Query, row: Row): nat {
    match q.order
    case CreatedAt => row.createdAt
    case UpdatedAt => row.updatedAt
  }

  /** What a list of places says about the table: exactly the rows with the query's chain,
      maker, settlement and statuses that come after the cursor, each once, latest first by
      the column asked for and then by id. */
  ghost predicate Lists(q: Query, table: map<nat, Row>, cursor: Option<Place>, all: seq<Place>) {
    && (forall i :: 0 <= i < |all| ==> all[i].id in table && all[i].at == Column(q, table[all[i].id]))
    && (forall id :: (exists i :: 0 <= i < |all| && all[i].id == id) <==>
          && id in table && table[id].chainId == q.chainId && table[id].maker == q.maker
          && (q.settlement == None || q.settlement == Some(table[id].settlement))
          && (q.statuses == {} || table[id].status in q.statuses)
          && (cursor == None || Column(q, table[id]) < cursor.value.at
              || (Column(q, table[id]) == cursor.value.at && id < cursor.value.id)))
    && (forall i, j :: 0 <= i < j < |all| ==>
          all[i].at > all[j].at || (all[i].at == all[j].at && all[i].id > all[j].id))
  }

  lemma NewestLists(q: Query, table: map<nat, Row>, cursor: Option<Place>)
    ensures Lists(q, table, cursor, Newest(After(Selected(table, q), cursor)))
  {
    var s := After(Selected(table, q), cursor);
    var all := Newest(s);
    forall i | 0 <= i < |all| ensures all[i].id in table && all[i] == PlaceOf(q, all[i].id, table[all[i].id]) { assert all[i] in s; }
    forall id | id in table && PlaceOf(q, id, table[id]) in s ensures exists i :: 0 <= i < |all| && all[i].id == id {
      var i :| 0 <= i < |all| && all[i] == PlaceOf(q, id, table[id]);
      assert all[i].id == id;
    }
    forall i | 0 <= i < |all| ensures Matches(q, table[all[i].id]) { assert all[i] in s; }
    forall i, j | 0 <= i < j < |all| ensures NEWER(all[i], all[j]) {}
  }

  function NormalLimit(limit: int): nat {
    if limit <= 0 then 20 else if limit > 100 then 100 else limit
  }

  datatype Page = Page(orders: seq<Place>, nextCursor: Option<Place>, hasMore: bool)

  /** The first `n` of a listing, and whether and from where it goes on. */
  function Cut(rest: seq<Place>, n: nat): Page
    requires n > 0
  {
    if |rest| <= n then Page(rest, None, false) else Page(rest[..n], Some(rest[n - 1]), true)
  }

  /** One request: at most as many rows as asked for, 20 if nothing was and 100 at most, and
      fewer only when there are no more. */
  method ListByMaker(table: map<nat, Row>, q: Query, limit: int, cursor: Option<Place>) returns (page: Page)
    ensures page == Cut(Newest(After(Selected(table, q), cursor)), NormalLimit(limit))
    ensures Lists(q, table, cursor, Newest(After(Selected(table, q), cursor)))
    ensures |page.orders| <= 100 && (limit <= 0 ==> |page.orders| <= 20) && (limit > 0 ==> |page.orders| <= limit)
    ensures page.hasMore ==> |page.orders| == 100 || (limit <= 0 && |page.orders| == 20) || |page.orders| == limit
  {
    NewestLists(q, table, cursor);
    var n := NormalLimit(limit);
    var rows := Sort(After(Selected(table, q), cursor), NEWER);
    page := PageOf(rows, n);
  }

  /** One row more than the page is loaded, to see whether the listing goes on. */
  method PageOf(rows: seq<Place>, n: nat) returns (page: Page)
    requires n > 0
    ensures page == Cut(rows, n)
  {
    var orders := if |rows| <= n + 1 then rows else rows[..n + 1];
    var hasMore := |orders| > n;
    if hasMore { orders := orders[..n]; }
    var nextCursor := None;
    if hasMore { nextCursor := Some(orders[|orders| - 1]); }
    page := Page(orders, nextCursor, hasMore);
  }

  /** What comes after the i-th entry of a listing is the rest of the listing. */
  lemma RestAfterEntry(s: set<Place>, q: seq<Place>, i: nat)
    requires IsListing(q, s, NEWER) && i < |q|
    ensures IsListing(q[i + 1..], After(s, Some(q[i])), NEWER)
  {
    forall p ensures p in q[i + 1..] <==> p in After(s, Some(q[i])) {
      if p in q[i + 1..] {
        var j :| 0 <= j < |q[i + 1..]| && q[i + 1..][j] == p;
        assert NEWER(q[i], q[i + 1 + j]) && p in q;
      }
      if p in After(s, Some(q[i])) {
        var j :| 0 <= j < |q| && q[j] == p;
        assert NEWER(q[i], q[j]) && j != i;
        assert j > i;
        assert q[i + 1..][j - i - 1] == p;
      }
    }
  }

  lemma AfterComposes(s: set<Place>, cursor: Option<Place>, p: Place)
    requires p in After(s, cursor)
    ensures After(After(s, cursor), Some(p)) == After(s, Some(p))
  {}

  lemma NextPageContinues(s: set<Place>, cursor: Option<Place>, n: nat)
    requires 0 < n < |Newest(After(s, cursor))|
    ensures var rest := Newest(After(s, cursor)); Newest(After(s, Some(rest[n - 1]))) == rest[n..]
  {
    var rest := Newest(After(s, cursor));
    var last := rest[n - 1];
    assert last in rest;
    AfterComposes(s, cursor, last);
    RestAfterEntry(After(s, cursor), rest, n - 1);
    ListingUnique(Newest(After(s, Some(last))), rest[n..], After(s, Some(last)), NEWER);
  }

  /** What a page leaves for the next ones. */
  function Tail(rest: seq<Place>, n: nat): seq<Place> {
    if |rest| <= n then [] else rest[n..]
  }

  lemma CutJoins(all: seq<Place>, rest: seq<Place>, n: nat)
    requires n > 0
    ensures all + Cut(rest, n).orders + Tail(rest, n) == all + rest
  {}

  method AllPages(table: map<nat, Row>, q: Query, limit: int) returns (all: seq<Place>)
    ensures all == Newest(Selected(table, q))
  {
    hide Lists, Selected;
    ghost var s, n := Selected(table, q), NormalLimit(limit);
    assert After(s, None) == s;
    ghost var rest := Newest(s);
    var page := ListByMaker(table, q, limit, None);
    all := page.orders;
    CutJoins([], rest, n);
    while page.hasMore
      invariant page == Cut(rest, n) && all + Tail(rest, n) == Newest(s)
      invariant exists cursor :: rest == Newest(After(s, cursor))
      decreases |rest|
    {
      ghost var cursor :| rest == Newest(After(s, cursor));
      NextPageContinues(s, cursor, n);
      page := ListByMaker(table, q, limit, page.nextCursor);
      CutJoins(all, rest[n..], n);
      rest := rest[n..];
      all := all + page.orders;
    }
  }

  /** Following the cursors on a fixed table ends, and the pages joined are the filtered
      orders in descending order, each exactly once. */
  method FollowCursors(table: map<nat, Row>, q: Query, limit: int) returns (all: seq<Place>)
    ensures all == Newest(Selected(table, q)) && Lists(q, table, None, all)
  {
    all := AllPages(table, q, limit);
    assert After(Selected(table, q), None) == Selected(table, q);
    NewestLists(q, table, None);
  }
}
