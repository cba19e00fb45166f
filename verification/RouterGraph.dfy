/** The router's adjacency index: for each token the sorted list of tokens it has a pair
    with, kept by a periodic full sync and by single pair events. */
module RouterGraph {
  import opened Options
  import opened Listing

  /** Lower-case hexadecimal addresses of one length, in their string order. */
  type Token = nat

  datatype Pair = Pair(token0: Token, token1: Token)

  const BY_TOKEN: (Token, Token) -> bool := (a, b) => a < b

  function PairSet(q: seq<Pair>): set<Pair> {
    set p | p in q
  }

  function Neighbours(pairs: set<Pair>, t: Token): set<Token> {
    (set p | p in pairs && p.token0 == t :: p.token1) + (set p | p in pairs && p.token1 == t :: p.token0)
  }

  function Tokens(pairs: set<Pair>): set<Token> {
    (set p | p in pairs :: p.token0) + (set p | p in pairs :: p.token1)
  }

  ghost function Sorted(s: set<Token>): (q: seq<Token>)
    ensures IsListing(q, s, BY_TOKEN)
  {
    ListingOf(s, BY_TOKEN)
  }

  function Members(q: seq<Token>): set<Token> {
    set t | t in q
  }

  /** The neighbour set of every token that has a pair. */
  ghost function Collected(pairs: set<Pair>): map<Token, set<Token>> {
    map t | t in Tokens(pairs) :: Neighbours(pairs, t)
  }

  ghost function SortAll(sets: map<Token, set<Token>>): map<Token, seq<Token>> {
    map t | t in sets :: Sorted(sets[t])
  }

  /** The index that a set of pairs determines. */
  ghost function Index(pairs: set<Pair>): map<Token, seq<Token>> {
    SortAll(Collected(pairs))
  }

  /** What merging one neighbour writes; a read that fails counts as a miss. */
  ghost function Merged(store: map<Token, seq<Token>>, t: Token, n: Token, missed: bool): seq<Token> {
    Sorted((if t in store && !missed then Members(store[t]) else {}) + {n})
  }

  ghost function WithPair(store: map<Token, seq<Token>>, p: Pair, missed0: bool, missed1: bool): map<Token, seq<Token>> {
    var half := store[p.token0 := Merged(store, p.token0, p.token1, missed0)];
    half[p.token1 := Merged(half, p.token1, p.token0, missed1)]
  }

  // ---------------------------------------------------------------- sequential runs

  class Worker {
    var neighbors: map<Token, seq<Token>>

    constructor ()
      ensures neighbors == map[]
    {
      neighbors := map[];
    }

    /** Rebuilds the list of every token that has a pair. */
    method SyncOnce(pairs: seq<Pair>)
      modifies this
      ensures neighbors == old(neighbors) + Index(PairSet(pairs)) && Indexes(Index(PairSet(pairs)), PairSet(pairs))
    {
      IndexIsExact(PairSet(pairs));
      var sets: map<Token, set<Token>> := map[];
      var i := 0;
      while i < |pairs|
        invariant 0 <= i <= |pairs|
        invariant sets == Collected(PairSet(pairs[..i])) && neighbors == old(neighbors)
      {
        TakeOne(pairs, i);
        CollectedNext(PairSet(pairs[..i]), pairs[i]);
        sets := AppendNeighbor(sets, pairs[i].token0, pairs[i].token1);
        sets := AppendNeighbor(sets, pairs[i].token1, pairs[i].token0);
        i := i + 1;
      }
      assert pairs[..i] == pairs;
      SaveAll(sets);
    }

    method SaveAll(sets: map<Token, set<Token>>)
      modifies this
      ensures neighbors == old(neighbors) + SortAll(sets)
    {
      var rest := sets.Keys;
      while rest != {}
        invariant rest <= sets.Keys
        invariant neighbors == Saved(old(neighbors), sets, rest)
        decreases rest
      {
        var t :| t in rest;
        var list := Sort(sets[t], BY_TOKEN);
        SavedNext(old(neighbors), sets, rest, t);
        SaveTokenNeighborsIfChanged(t, list);
        rest := rest - {t};
      }
    }

    method SaveTokenNeighborsIfChanged(t: Token, list: seq<Token>)
      modifies this
      ensures neighbors == old(neighbors)[t := list]
    {
      if t in neighbors && neighbors[t] == list { return; }
      neighbors := neighbors[t := list];
    }

    method MergeAndSaveNeighbors(t: Token, n: Token, missed: bool)
      modifies this
      ensures neighbors == old(neighbors)[t := Merged(old(neighbors), t, n, missed)]
    {
      var members := {};
      if t in neighbors && !missed { members := Members(neighbors[t]); }
      var list := Sort(members + {n}, BY_TOKEN);
      neighbors := neighbors[t := list];
    }

    method ApplyPairEvent(p: Pair, missed0: bool, missed1: bool)
      modifies this
      ensures neighbors == WithPair(old(neighbors), p, missed0, missed1)
    {
      MergeAndSaveNeighbors(p.token0, p.token1, missed0);
      MergeAndSaveNeighbors(p.token1, p.token0, missed1);
    }
  }

  /** The store with all lists written except those of the tokens in `rest`. */
  ghost function Saved(store: map<Token, seq<Token>>, sets: map<Token, set<Token>>, rest: set<Token>): map<Token, seq<Token>> {
    store + (SortAll(sets) - rest)
  }

  lemma SavedNext(store: map<Token, seq<Token>>, sets: map<Token, set<Token>>, rest: set<Token>, t: Token)
    requires t in rest && rest <= sets.Keys
    ensures Saved(store, sets, rest - {t}) == Saved(store, sets, rest)[t := Sorted(sets[t])]
  {}

  function Get(sets: map<Token, set<Token>>, t: Token): set<Token> {
    if t in sets then sets[t] else {}
  }

  function AppendNeighbor(sets: map<Token, set<Token>>, t: Token, n: Token): (r: map<Token, set<Token>>)
    ensures r.Keys == sets.Keys + {t}
    ensures forall u :: Get(r, u) == Get(sets, u) + (if u == t then {n} else {})
  {
    sets[t := Get(sets, t) + {n}]
  }

  lemma TakeOne(pairs: seq<Pair>, i: nat)
    requires i < |pairs|
    ensures PairSet(pairs[..i + 1]) == PairSet(pairs[..i]) + {pairs[i]}
  {
    assert pairs[..i + 1] == pairs[..i] + [pairs[i]];
  }

  /** What one pair puts beside a token. */
  function Beside(p: Pair, t: Token): set<Token> {
    (if t == p.token0 then {p.token1} else {}) + (if t == p.token1 then {p.token0} else {})
  }

  lemma AddPair(pairs: set<Pair>, p: Pair)
    ensures Tokens(pairs + {p}) == Tokens(pairs) + {p.token0, p.token1}
    ensures forall t :: Neighbours(pairs + {p}, t) == Neighbours(pairs, t) + Beside(p, t)
    ensures forall t :: t !in Tokens(pairs) ==> Neighbours(pairs, t) == {}
  {
    assert p in pairs + {p};
    forall t ensures Neighbours(pairs + {p}, t) == Neighbours(pairs, t) + Beside(p, t) {
      forall u | u in Neighbours(pairs, t) ensures u in Neighbours(pairs + {p}, t) {
        if q :| q in pairs && q.token0 == t && q.token1 == u { assert q in pairs + {p}; }
        else {
          var q :| q in pairs && q.token1 == t && q.token0 == u;
          assert q in pairs + {p};
        }
      }
    }
    forall t | t in Tokens(pairs) ensures t in Tokens(pairs + {p}) {
      var q :| q in pairs && (q.token0 == t || q.token1 == t);
      assert q in pairs + {p};
    }
    forall t | t !in Tokens(pairs) ensures Neighbours(pairs, t) == {} {
      assert forall q :: q in pairs ==> q.token0 in Tokens(pairs) && q.token1 in Tokens(pairs);
    }
  }

  lemma SortedMembers(s: set<Token>)
    ensures Members(Sorted(s)) == s
  {}

  lemma CollectedNext(pairs: set<Pair>, p: Pair)
    ensures AppendNeighbor(AppendNeighbor(Collected(pairs), p.token0, p.token1), p.token1, p.token0) == Collected(pairs + {p})
  {
    var once := AppendNeighbor(Collected(pairs), p.token0, p.token1);
    var both := AppendNeighbor(once, p.token1, p.token0);
    assert both.Keys == Collected(pairs + {p}).Keys by { AddPair(pairs, p); }
    forall t ensures Get(both, t) == Get(Collected(pairs + {p}), t) { CollectedNextAt(pairs, p, t); }
    SameSets(both, Collected(pairs + {p}));
  }

  lemma CollectedNextAt(pairs: set<Pair>, p: Pair, t: Token)
    ensures Get(AppendNeighbor(AppendNeighbor(Collected(pairs), p.token0, p.token1), p.token1, p.token0), t)
         == Get(Collected(pairs + {p}), t)
  {
    CollectedAt(pairs, t);
    CollectedAt(pairs + {p}, t);
    assert Neighbours(pairs + {p}, t) == Neighbours(pairs, t) + Beside(p, t) by { AddPair(pairs, p); }
  }

  lemma CollectedAt(pairs: set<Pair>, t: Token)
    ensures Get(Collected(pairs), t) == Neighbours(pairs, t)
  {
    assert forall q :: q in pairs ==> q.token0 in Tokens(pairs) && q.token1 in Tokens(pairs);
  }

  lemma SameSets(a: map<Token, set<Token>>, b: map<Token, set<Token>>)
    requires a.Keys == b.Keys && forall t :: Get(a, t) == Get(b, t)
    ensures a == b
  {
    forall t | t in a ensures a[t] == b[t] { assert Get(a, t) == Get(b, t); }
  }

  /** Merging into the sorted lists is appending to the sets behind them. */
  lemma MergedAppends(sets: map<Token, set<Token>>, t: Token, n: Token)
    ensures SortAll(sets)[t := Merged(SortAll(sets), t, n, false)] == SortAll(AppendNeighbor(sets, t, n))
  {
    if t in sets { SortedMembers(sets[t]); }
    var after := AppendNeighbor(sets, t, n);
    assert after[t] == Get(sets, t) + {n};
    forall u | u in sets && u != t ensures after[u] == sets[u] { assert Get(after, u) == Get(sets, u); }
  }

  /** What an index says: a list for each token of a pair, strictly increasing, with exactly
      the tokens it has a pair with. */
  ghost predicate Indexes(index: map<Token, seq<Token>>, pairs: set<Pair>) {
    && (forall t :: t in index <==> exists p :: p in pairs && (p.token0 == t || p.token1 == t))
    && (forall t :: t in index ==>
          && (forall i, j :: 0 <= i < j < |index[t]| ==> index[t][i] < index[t][j])
          && (forall n :: n in index[t] <==> Pair(t, n) in pairs || Pair(n, t) in pairs))
  }

  lemma IndexIsExact(pairs: set<Pair>)
    ensures Indexes(Index(pairs), pairs)
  {
    var index := Index(pairs);
    forall t ensures t in index <==> exists p :: p in pairs && (p.token0 == t || p.token1 == t) { assert t in index <==> t in Tokens(pairs); }
    forall t, n | t in index ensures n in index[t] <==> Pair(t, n) in pairs || Pair(n, t) in pairs {
      assert n in index[t] <==> n in Neighbours(pairs, t);
    }
    forall t, i, j | t in index && 0 <= i < j < |index[t]| ensures index[t][i] < index[t][j] {
      assert BY_TOKEN(index[t][i], index[t][j]);
    }
  }

  /** Handling one pair event on top of the index of P gives the index of P and the pair. */
  lemma IncrementalEqualsFull(pairs: set<Pair>, p: Pair)
    ensures WithPair(Index(pairs), p, false, false) == Index(pairs + {p})
  {
    CollectedNext(pairs, p);
    MergedAppends(Collected(pairs), p.token0, p.token1);
    MergedAppends(AppendNeighbor(Collected(pairs), p.token0, p.token1), p.token1, p.token0);
  }

  // ---------------------------------------------------------------- concurrent runs

  /** Where a writer is between two calls to the store. A merger remembers the pairs that
      its list accounts for. */
  datatype Place = Idle | Syncing(pairs: set<Pair>) | Merging(token: Token, list: seq<Token>, heard: set<Pair>)

  /** The store, the pairs on chain, and any number of scanners and subscribers. `heard` is a
      history: for each stored list, the pairs that its last writer had listed, or had read
      and was told of. */
  datatype Graph = Graph(store: map<Token, seq<Token>>, onChain: set<Pair>, writers: map<nat, Place>, heard: map<Token, set<Pair>>)

  datatype Step =
    | PairCreated(pair: Pair)
    | ListPairs(writer: nat)
    | SaveToken(writer: nat, token: Token)
    | Finish(writer: nat)
    | ReadNeighbors(writer: nat, pair: Pair, second: bool, missed: bool)
    | SaveMerged(writer: nat)

  const EMPTY := Graph(map[], {}, map[], map[])

  function At(g: Graph, w: nat): Place {
    if w in g.writers then g.writers[w] else Idle
  }

  /** What a reader of the token's list learns of. */
  function HeardOf(g: Graph, t: Token, missed: bool): set<Pair> {
    if t in g.heard && !missed then g.heard[t] else {}
  }

  ghost function Next(g: Graph, step: Step): Graph {
    match step
    case PairCreated(p) => g.(onChain := g.onChain + {p})
    case ListPairs(w) => if At(g, w).Idle? then g.(writers := g.writers[w := Syncing(g.onChain)]) else g
    case SaveToken(w, t) =>
      if At(g, w).Syncing? && t in Tokens(At(g, w).pairs)
      then g.(store := g.store[t := Sorted(Neighbours(At(g, w).pairs, t))], heard := g.heard[t := At(g, w).pairs]) else g
    case Finish(w) => g.(writers := g.writers[w := Idle])
    case ReadNeighbors(w, p, second, missed) =>
      if At(g, w).Idle? && p in g.onChain then
        var t, n := if second then p.token1 else p.token0, if second then p.token0 else p.token1;
        g.(writers := g.writers[w := Merging(t, Merged(g.store, t, n, missed), HeardOf(g, t, missed) + {p})])
      else g
    case SaveMerged(w) =>
      (match At(g, w)
       case Merging(t, list, heard) =>
         g.(store := g.store[t := list], writers := g.writers[w := Idle], heard := g.heard[t := heard])
       case _ => g)
  }

  ghost function Run(g: Graph, steps: seq<Step>): Graph
    decreases |steps|
  {
    if steps == [] then g else Run(Next(g, steps[0]), steps[1..])
  }

  /** A list that accounts for exactly the given pairs, all of them real. */
  ghost predicate Accounts(pairs: set<Pair>, heard: set<Pair>, t: Token, list: seq<Token>) {
    heard <= pairs && t in Tokens(heard) && list == Sorted(Neighbours(heard, t))
  }

  ghost predicate GraphSound(g: Graph) {
    && g.store.Keys == g.heard.Keys
    && (forall t :: t in g.store ==> Accounts(g.onChain, g.heard[t], t, g.store[t]))
    && (forall w :: w in g.writers ==>
          match g.writers[w]
          case Idle => true
          case Syncing(pairs) => pairs <= g.onChain
          case Merging(t, list, heard) => Accounts(g.onChain, heard, t, list))
  }

  lemma MoreNeighbours(pairs: set<Pair>, more: set<Pair>, t: Token)
    requires pairs <= more
    ensures Neighbours(pairs, t) <= Neighbours(more, t) && Tokens(pairs) <= Tokens(more)
  {}

  lemma MergedAccounts(g: Graph, p: Pair, second: bool, missed: bool)
    requires GraphSound(g) && p in g.onChain
    ensures var t, n := if second then p.token1 else p.token0, if second then p.token0 else p.token1;
      Accounts(g.onChain, HeardOf(g, t, missed) + {p}, t, Merged(g.store, t, n, missed))
  {
    var t, n := if second then p.token1 else p.token0, if second then p.token0 else p.token1;
    var heard := HeardOf(g, t, missed);
    assert t in Tokens(heard + {p}) && Neighbours(heard + {p}, t) == Neighbours(heard, t) + {n} by { AddPair(heard, p); }
    if t in g.store && !missed { SortedMembers(Neighbours(heard, t)); } else { assert Neighbours({}, t) == {}; }
  }

  lemma StepKeepsGraph(g: Graph, step: Step)
    requires GraphSound(g)
    ensures GraphSound(Next(g, step))
  {
    match step
    case PairCreated(p) => MorePairsSound(g, p);
    case ReadNeighbors(w, p, second, missed) =>
      if p in g.onChain {
        var t, n := if second then p.token1 else p.token0, if second then p.token0 else p.token1;
        MergedAccounts(g, p, second, missed);
        MergerSound(g, w, t, Merged(g.store, t, n, missed), HeardOf(g, t, missed) + {p});
      }
    case _ =>
  }

  lemma MorePairsSound(g: Graph, p: Pair)
    requires GraphSound(g)
    ensures GraphSound(g.(onChain := g.onChain + {p}))
  {}

  lemma MergerSound(g: Graph, w: nat, t: Token, list: seq<Token>, heard: set<Pair>)
    requires GraphSound(g) && Accounts(g.onChain, heard, t, list)
    ensures GraphSound(g.(writers := g.writers[w := Merging(t, list, heard)]))
  {
    hide Accounts;
  }

  lemma {:induction false} RunKeepsGraph(g: Graph, steps: seq<Step>)
    requires GraphSound(g)
    ensures GraphSound(Run(g, steps))
    decreases |steps|
  {
    if steps != [] {
      StepKeepsGraph(g, steps[0]);
      RunKeepsGraph(Next(g, steps[0]), steps[1..]);
    }
  }

  /** Under any interleaving, and with reads that fail, every stored list is sorted and
      every stored neighbour has a real pair. */
  lemma {:induction false} StoredNeighboursAreReal(steps: seq<Step>, t: Token, n: Token)
    ensures var g := Run(EMPTY, steps);
      && (t in g.store ==> forall i, j :: 0 <= i < j < |g.store[t]| ==> g.store[t][i] < g.store[t][j])
      && (t in g.store && n in g.store[t] ==> Pair(t, n) in g.onChain || Pair(n, t) in g.onChain)
  {
    RunKeepsGraph(EMPTY, steps);
    var g := Run(EMPTY, steps);
    if t in g.store {
      var list := g.store[t];
      forall i, j | 0 <= i < j < |list| ensures list[i] < list[j] { assert BY_TOKEN(list[i], list[j]); }
    }
    if t in g.store && n in g.store[t] {
      MoreNeighbours(g.heard[t], g.onChain, t);
      assert n in Neighbours(g.heard[t], t);
    }
  }

  // ---------------------------------------------------------------- completeness

  /** The pairs heard of give the token every neighbour it has on chain. */
  predicate HeardAll(pairs: set<Pair>, heard: set<Pair>, t: Token) {
    Neighbours(pairs, t) <= Neighbours(heard, t)
  }

  /** In every run a stored list is the token's entry in the index of the real pairs if and
      only if its last writer had listed, or read, every pair of the token; and the store is
      the whole index if and only if that holds of every token. */
  lemma {:induction false} IndexedExactly(steps: seq<Step>, t: Token)
    ensures var g := Run(EMPTY, steps);
      && g.store.Keys == g.heard.Keys && g.store.Keys <= Tokens(g.onChain)
      && (t in g.store ==>
            (g.store[t] == Sorted(Neighbours(g.onChain, t)) <==> HeardAll(g.onChain, g.heard[t], t)))
      && (g.store == Index(g.onChain) <==>
            forall u :: u in Tokens(g.onChain) ==> u in g.store && HeardAll(g.onChain, g.heard[u], u))
  {
    RunKeepsGraph(EMPTY, steps);
    var g := Run(EMPTY, steps);
    forall u | u in g.store
      ensures g.store[u] == Sorted(Neighbours(g.onChain, u)) <==> HeardAll(g.onChain, g.heard[u], u)
      ensures u in Tokens(g.onChain)
    {
      EntryExactly(g, u);
    }
    StoreIsIndex(g);
  }

  lemma EntryExactly(g: Graph, t: Token)
    requires GraphSound(g) && t in g.store
    ensures g.store[t] == Sorted(Neighbours(g.onChain, t)) <==> HeardAll(g.onChain, g.heard[t], t)
    ensures t in Tokens(g.onChain)
  {
    var heard, all := Neighbours(g.heard[t], t), Neighbours(g.onChain, t);
    MoreNeighbours(g.heard[t], g.onChain, t);
    SortedMembers(heard);
    SortedMembers(all);
    if all <= heard { assert all == heard; }
  }

  lemma StoreIsIndex(g: Graph)
    requires g.store.Keys <= Tokens(g.onChain)
    ensures g.store == Index(g.onChain) <==>
      forall u :: u in Tokens(g.onChain) ==> u in g.store && g.store[u] == Sorted(Neighbours(g.onChain, u))
  {
    var index := Index(g.onChain);
    assert index.Keys == Tokens(g.onChain);
    assert forall u :: u in index ==> index[u] == Sorted(Neighbours(g.onChain, u));
  }

  /** The token whose list a step writes. */
  ghost function Saves(g: Graph, step: Step): Option<Token> {
    match step
    case SaveToken(w, t) => if At(g, w).Syncing? && t in Tokens(At(g, w).pairs) then Some(t) else None
    case SaveMerged(w) => if At(g, w).Merging? then Some(At(g, w).token) else None
    case _ => None
  }

  /** The last write of the token's list is a scan's by w; `done` says whether it was so far. */
  ghost predicate LastSavedByScan(g: Graph, steps: seq<Step>, w: nat, t: Token, done: bool)
    decreases |steps|
  {
    if steps == [] then done
    else LastSavedByScan(Next(g, steps[0]), steps[1..], w, t,
                         if Saves(g, steps[0]) == Some(t) then steps[0] == SaveToken(w, t) else done)
  }

  /** What w has listed, if it is in the middle of a scan, is all there is. */
  predicate UpToDate(g: Graph, w: nat) {
    At(g, w).Syncing? ==> At(g, w).pairs == g.onChain
  }

  lemma {:induction false} ScannedLast(g: Graph, steps: seq<Step>, w: nat, t: Token, done: bool)
    requires g.store.Keys == g.heard.Keys && UpToDate(g, w)
    requires forall i :: 0 <= i < |steps| ==> !steps[i].PairCreated?
    requires LastSavedByScan(g, steps, w, t, done) && (done ==> t in g.store && g.heard[t] == g.onChain)
    ensures var after := Run(g, steps);
      after.onChain == g.onChain && t in after.store && t in after.heard && after.heard[t] == g.onChain
    decreases |steps|
  {
    if steps != [] {
      assert !steps[0].PairCreated?;
      StepKeepsUpToDate(g, steps[0], w, t);
      ScannedLast(Next(g, steps[0]), steps[1..], w, t,
                  if Saves(g, steps[0]) == Some(t) then steps[0] == SaveToken(w, t) else done);
    }
  }

  lemma StepKeepsUpToDate(g: Graph, step: Step, w: nat, t: Token)
    requires g.store.Keys == g.heard.Keys && UpToDate(g, w) && !step.PairCreated?
    ensures var after := Next(g, step);
      && after.onChain == g.onChain && UpToDate(after, w) && after.store.Keys == after.heard.Keys
      && (Saves(g, step) != Some(t) && t in g.store ==> t in after.store && after.heard[t] == g.heard[t])
      && (Saves(g, step) == Some(t) && step == SaveToken(w, t) ==> t in after.store && after.heard[t] == g.onChain)
  {}

  /** A scan completes the index: once no more pairs are created, any run in which some
      scanner, not holding an old listing, is the last to write every token's list ends with
      exactly the index of the real pairs, whatever else was stored or is written between. */
  lemma {:induction false} ScanCompletes(before: seq<Step>, steps: seq<Step>, w: nat)
    requires UpToDate(Run(EMPTY, before), w)
    requires forall i :: 0 <= i < |steps| ==> !steps[i].PairCreated?
    requires forall t :: t in Tokens(Run(EMPTY, before).onChain) ==> LastSavedByScan(Run(EMPTY, before), steps, w, t, false)
    ensures var g := Run(EMPTY, before); Run(g, steps).store == Index(g.onChain)
  {
    var g := Run(EMPTY, before);
    var after := Run(g, steps);
    RunKeepsGraph(EMPTY, before);
    RunKeepsGraph(g, steps);
    KeepsChain(g, steps);
    forall t | t in Tokens(g.onChain)
      ensures t in after.store && after.store[t] == Sorted(Neighbours(g.onChain, t))
    {
      ScannedLast(g, steps, w, t, false);
    }
    forall t | t in after.store ensures t in Tokens(g.onChain) { EntryExactly(after, t); }
    StoreIsIndex(after);
  }

  lemma {:induction false} KeepsChain(g: Graph, steps: seq<Step>)
    requires forall i :: 0 <= i < |steps| ==> !steps[i].PairCreated?
    ensures Run(g, steps).onChain == g.onChain
    decreases |steps|
  {
    if steps != [] {
      assert !steps[0].PairCreated?;
      KeepsChain(Next(g, steps[0]), steps[1..]);
    }
  }

  const P := Pair(1, 2)
  const Q := Pair(1, 3)

  /** A scanner that listed before a new pair writes after its merge: the pair is on chain,
      was stored, and is lost. */
  lemma StaleScanLosesPair()
    ensures var merged := Run(EMPTY, [PairCreated(P), ListPairs(0), PairCreated(Q), ReadNeighbors(1, Q, false, false), SaveMerged(1)]);
      Q in merged.onChain && 1 in merged.store && 3 in merged.store[1]
    ensures var g := Run(EMPTY, [PairCreated(P), ListPairs(0), PairCreated(Q), ReadNeighbors(1, Q, false, false), SaveMerged(1), SaveToken(0, 1)]);
      Q in g.onChain && 1 in g.store && 3 !in g.store[1]
  {
    var g1 := Next(EMPTY, PairCreated(P));
    var g2 := Next(g1, ListPairs(0));
    var g3 := Next(g2, PairCreated(Q));
    var g4 := Next(g3, ReadNeighbors(1, Q, false, false));
    var g5 := Next(g4, SaveMerged(1));
    var g6 := Next(g5, SaveToken(0, 1));
    assert At(g2, 0) == Syncing({P});
    assert g5.store[1] == Merged(map[], 1, 3, false);
    SortedMembers({3});
    assert 3 in Members(Sorted({} + {3}));
    assert 1 in Tokens({P}) by { assert P in {P}; }
    assert 3 !in Neighbours({P}, 1);
    SixSteps(PairCreated(P), ListPairs(0), PairCreated(Q), ReadNeighbors(1, Q, false, false), SaveMerged(1), SaveToken(0, 1));
  }

  /** A merge whose read fails keeps its own pair only. */
  lemma FailedReadLosesPair()
    ensures var g := Run(EMPTY, [PairCreated(P), PairCreated(Q), ListPairs(0), SaveToken(0, 1), ReadNeighbors(1, Q, false, true), SaveMerged(1)]);
      P in g.onChain && 1 in g.store && 2 !in g.store[1]
  {
    var g1 := Next(EMPTY, PairCreated(P));
    var g2 := Next(g1, PairCreated(Q));
    var g3 := Next(g2, ListPairs(0));
    var g4 := Next(g3, SaveToken(0, 1));
    var g5 := Next(g4, ReadNeighbors(1, Q, false, true));
    assert At(g5, 1).list == Sorted({} + {3});
    SortedMembers({} + {3});
    SixSteps(PairCreated(P), PairCreated(Q), ListPairs(0), SaveToken(0, 1), ReadNeighbors(1, Q, false, true), SaveMerged(1));
  }

  lemma SixSteps(a: Step, b: Step, c: Step, d: Step, e: Step, f: Step)
    ensures var five := Next(Next(Next(Next(Next(EMPTY, a), b), c), d), e);
      Run(EMPTY, [a, b, c, d, e]) == five && Run(EMPTY, [a, b, c, d, e, f]) == Next(five, f)
  {
    ThreeSteps(EMPTY, a, b, c);
    RunJoins(EMPTY, [a, b, c], [d, e]);
    RunJoins(EMPTY, [a, b, c], [d, e, f]);
    ThreeSteps(Next(Next(Next(EMPTY, a), b), c), d, e, f);
    assert [a, b, c] + [d, e] == [a, b, c, d, e] && [a, b, c] + [d, e, f] == [a, b, c, d, e, f];
  }

  lemma ThreeSteps(g: Graph, a: Step, b: Step, c: Step)
    ensures Run(g, [a, b]) == Next(Next(g, a), b)
    ensures Run(g, [a, b, c]) == Next(Next(Next(g, a), b), c)
  {
    assert [a, b, c][1..] == [b, c] && [b, c][1..] == [c] && [c][1..] == [] && [a, b][1..] == [b] && [b][1..] == [];
    assert Run(Next(Next(g, a), b), [c]) == Next(Next(Next(g, a), b), c);
    assert Run(Next(g, a), [b]) == Next(Next(g, a), b);
  }

  lemma {:induction false} RunJoins(g: Graph, a: seq<Step>, b: seq<Step>)
    ensures Run(g, a + b) == Run(Run(g, a), b)
    decreases |a|
  {
    if a == [] {
      assert a + b == b;
    } else {
      assert (a + b)[1..] == a[1..] + b;
      RunJoins(Next(g, a[0]), a[1..], b);
    }
  }
}
