/** Ordered listings of finite sets: what an SQL `ORDER BY` or `sort.Strings`
    hands back. A listing is fixed by the set and the order alone. */
module Listing {

  ghost predicate StrictOrder<T(!new)>(before: (T, T) -> bool) {
    && (forall x, y :: before(x, y) ==> !before(y, x))
    && (forall x, y, z :: before(x, y) && before(y, z) ==> before(x, z))
  }

  ghost predicate TotalOn<T(!new)>(before: (T, T) -> bool, s: set<T>) {
    forall x, y :: x in s && y in s && x != y ==> before(x, y) || before(y, x)
  }

  ghost predicate Ascending<T(!new)>(q: seq<T>, before: (T, T) -> bool) {
    forall i, j :: 0 <= i < j < |q| ==> before(q[i], q[j])
  }

  ghost predicate IsListing<T(!new)>(q: seq<T>, s: set<T>, before: (T, T) -> bool) {
    && Ascending(q, before)
    && (forall x :: x in q <==> x in s)
  }

  lemma {:induction false} ListingUnique<T(!new)>(p: seq<T>, q: seq<T>, s: set<T>, before: (T, T) -> bool)
    requires StrictOrder(before)
    requires IsListing(p, s, before) && IsListing(q, s, before)
    ensures p == q
    decreases |p|
  {
    assert q != [] ==> q[0] in s;
    if p != [] {
      assert p[0] in s && q != [];
      HeadIsFirst(p, s, before, q[0]);
      HeadIsFirst(q, s, before, p[0]);
      TailLists(p, s, before);
      TailLists(q, s, before);
      ListingUnique(p[1..], q[1..], s - {p[0]}, before);
      assert p == [p[0]] + p[1..] && q == [q[0]] + q[1..];
    }
  }

  lemma HeadIsFirst<T(!new)>(q: seq<T>, s: set<T>, before: (T, T) -> bool, x: T)
    requires IsListing(q, s, before) && x in s
    ensures q != [] && (x == q[0] || before(q[0], x))
  {
    var i :| 0 <= i < |q| && q[i] == x;
  }

  lemma TailLists<T(!new)>(q: seq<T>, s: set<T>, before: (T, T) -> bool)
    requires StrictOrder(before) && IsListing(q, s, before) && q != []
    ensures IsListing(q[1..], s - {q[0]}, before)
  {
    forall x ensures x in q[1..] <==> x in s - {q[0]} {
      if x in q[1..] {
        var i :| 0 <= i < |q[1..]| && q[1..][i] == x;
        assert before(q[0], q[i + 1]) && x in q;
      }
      if x in s - {q[0]} {
        var i :| 0 <= i < |q| && q[i] == x;
        assert q[1..][i - 1] == x;
      }
    }
  }

  /** Replacing the head by an element beyond all others moves it to the end. */
  lemma HeadGoesLast<T(!new)>(q: seq<T>, s: set<T>, before: (T, T) -> bool, y: T)
    requires StrictOrder(before) && IsListing(q, s, before) && q != []
    requires forall x :: x in s && x != q[0] ==> before(x, y)
    ensures IsListing(q[1..] + [y], s - {q[0]} + {y}, before)
  {
    TailLists(q, s, before);
    var rest := q[1..];
    forall i, j | 0 <= i < j < |rest + [y]| ensures before((rest + [y])[i], (rest + [y])[j]) {
      assert rest[i] in rest;
    }
  }

  /** A finite non-empty set has an element that no other one comes before. */
  lemma {:induction false} FirstExists<T(!new)>(s: set<T>, before: (T, T) -> bool) returns (m: T)
    requires StrictOrder(before) && s != {}
    ensures m in s && forall x :: x in s ==> !before(x, m)
    decreases |s|
  {
    m :| m in s;
    if exists x :: x in s && before(x, m) {
      var below := set x | x in s && before(x, m);
      var w :| w in s && before(w, m);
      assert w in below;
      assert below < s by { assert m !in below; }
      SmallerSet(below, s);
      var n := FirstExists(below, before);
      forall x | x in s ensures !before(x, n) {
        assert before(x, n) && before(n, m) ==> before(x, m);
      }
      m := n;
    }
  }

  lemma SmallerSet<T>(a: set<T>, b: set<T>)
    requires a < b
    ensures |a| < |b|
  {
    var x :| x in b && x !in a;
    assert a <= b - {x};
    SubsetCard(a, b - {x});
  }

  lemma {:induction false} SubsetCard<T>(a: set<T>, b: set<T>)
    requires a <= b
    ensures |a| <= |b|
    decreases a
  {
    if a != {} {
      var x :| x in a;
      SubsetCard(a - {x}, b - {x});
    }
  }

  /** The listing of a set, in increasing order. */
  ghost function ListingOf<T(!new)>(s: set<T>, before: (T, T) -> bool): (q: seq<T>)
    requires StrictOrder(before) && TotalOn(before, s)
    ensures IsListing(q, s, before)
    decreases |s|
  {
    if s == {} then []
    else
      assert exists m :: m in s && forall x :: x in s ==> !before(x, m) by { var _ := FirstExists(s, before); }
      var m :| m in s && forall x :: x in s ==> !before(x, m);
      var rest := ListingOf(s - {m}, before);
      assert Ascending([m] + rest, before) by {
        forall j | 0 <= j < |rest| ensures before(m, rest[j]) { assert rest[j] in s - {m}; }
      }
      [m] + rest
  }

  /** Inserts one more element in its place, as the database's sort does. */
  method Insert<T(!new)>(q: seq<T>, x: T, before: (T, T) -> bool) returns (r: seq<T>)
    requires StrictOrder(before) && Ascending(q, before)
    requires forall y :: y in q ==> before(x, y) || before(y, x)
    ensures Ascending(r, before)
    ensures forall y :: y in r <==> y in q || y == x
  {
    var i := 0;
    while i < |q| && before(q[i], x)
      invariant 0 <= i <= |q|
      invariant forall k :: 0 <= k < i ==> before(q[k], x)
    {
      i := i + 1;
    }
    assert forall k :: i <= k < |q| ==> before(x, q[k]) by {
      if i < |q| { assert before(x, q[i]); }
    }
    r := q[..i] + [x] + q[i..];
    forall y ensures y in r <==> y in q || y == x {
      assert q == q[..i] + q[i..];
    }
  }

  /** Sorts a set; the result is its one listing. */
  method Sort<T(!new, ==)>(s: set<T>, before: (T, T) -> bool) returns (q: seq<T>)
    requires StrictOrder(before) && TotalOn(before, s)
    ensures q == ListingOf(s, before)
  {
    q := [];
    var rest := s;
    while rest != {}
      invariant rest <= s
      invariant IsListing(q, s - rest, before)
      decreases rest
    {
      var x :| x in rest;
      q := Insert(q, x, before);
      rest := rest - {x};
    }
    ListingUnique(q, ListingOf(s, before), s, before);
  }
}
