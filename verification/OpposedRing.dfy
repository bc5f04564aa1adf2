/** An opposed ring of three moves: the outcome depends on where the search enters it. */
module OpposedRing {
  import opened Ordering
  import opened Board
  import opened Movement
  import opened MoveSearch
  import opened RingEntry
  import opened Adjudication
  import opened MovementTheorems
  import opened Dislodgement
  import opened WrittenBoards

  /** `p`, `q` and `r` move in a ring, and the unit at `s` contests the region `p` moves to. */
  ghost predicate Opposed(b: Battle, p: Id, q: Id, r: Id, s: Id) {
    && p != q && p != r && p != s && q != r && q != s && r != s
    && b.orders.Keys == {p, q, r, s}
    && b.orders[p] == Move(p, q) && b.orders[q] == Move(q, r) && b.orders[r] == Move(r, p)
    && b.orders[s] == Move(s, q)
    && Valid(b)
  }

  lemma OpposedFacts(b: Battle, p: Id, q: Id, r: Id, s: Id)
    requires Opposed(b, p, q, r, s)
    ensures Movers(b) == {p, q, r, s}
    ensures Moves(b, p) && Moves(b, q) && Moves(b, r) && Moves(b, s)
    ensures Dep(b, p) == Some(q) && Dep(b, q) == Some(r) && Dep(b, r) == Some(p) && Dep(b, s) == Some(q)
    ensures Attack(b, p) == 1 && Attack(b, q) == 1 && Attack(b, r) == 1 && Attack(b, s) == 1
  {
    assert AttackSupports(b, p) == {} && AttackSupports(b, q) == {};
    assert AttackSupports(b, r) == {} && AttackSupports(b, s) == {};
  }

  lemma OpposedPrevail(b: Battle, p: Id, q: Id, r: Id, s: Id)
    requires Opposed(b, p, q, r, s)
    ensures Moves(b, p) && Moves(b, q) && Moves(b, r) && Moves(b, s)
    ensures Prevails(b, q) && Prevails(b, r) && !Prevails(b, p) && !Prevails(b, s)
    ensures !Shoves(b, p) && !Shoves(b, q) && !Shoves(b, r) && !Shoves(b, s)
  {
    OpposedFacts(b, p, q, r, s);
    assert !BeatsRivals(b, p) by { assert s in b.orders && Dest(b, s) == Dest(b, p); }
    assert !BeatsRivals(b, s) by { assert p in b.orders && Dest(b, s) == Dest(b, p); }
    assert BeatsRivals(b, q) && BeatsRivals(b, r);
  }

  lemma OpposedIsRing(b: Battle, p: Id, q: Id, r: Id)
    requires Moves(b, p) && Moves(b, q) && Moves(b, r)
    requires Dep(b, p) == Some(q) && Dep(b, q) == Some(r) && Dep(b, r) == Some(p)
    ensures OnRing(b, p) && OnRing(b, q) && OnRing(b, r) && Reaches(b, p, r) && Reaches(b, q, r)
  {
    ChainOne(b, p); ChainOne(b, q); ChainOne(b, r);
    assert Chain(b, q, 2) == Some(p) && Chain(b, p, 2) == Some(r);
    assert Chain(b, p, 3) == Some(p) && Chain(b, q, 3) == Some(q) && Chain(b, r, 3) == Some(r);
  }

  /** The ring predecessor of the first move visited is decided with a guess. */
  lemma ClosesAtFirst(b: Battle, order: seq<Id>, c: Id, z: Id)
    requires Valid(b) && (forall x :: x in order ==> Moves(b, x)) && order != [] && order[0] == c
    requires OnRing(b, c) && OnRing(b, z) && Dep(b, z) == Some(c)
    ensures z in Closers(b, order)
  {
    EntersHere(b, c);
    assert Entered(b, order, c);
    ClosersPrecedeEntries(b, order, z);
  }

  /** Entered at `p`, which never leaves, the ring lets `q` and `r` through. */
  lemma EnteredAtTheContestedMove(b: Battle, order: seq<Id>, p: Id, q: Id, r: Id, s: Id)
    requires Opposed(b, p, q, r, s) && Covers(b, order) && order != [] && order[0] == p
    ensures var v := Visit(b, order); {p, q, r} <= v.Keys && !v[p] && v[q] && v[r]
  {
    OpposedFacts(b, p, q, r, s);
    OpposedPrevail(b, p, q, r, s);
    OpposedIsRing(b, p, q, r);
    ClosesAtFirst(b, order, p, r);
    VisitFacts(b, order);
    var v := Visit(b, order);
    assert p !in Closers(b, order) ==> SolvesAt(b, v, p);
    assert q !in Closers(b, order) ==> SolvesAt(b, v, q);
  }

  /** Entered one step further on, it holds everyone in place, as the success equation demands. */
  lemma EnteredPastTheContestedMove(b: Battle, order: seq<Id>, p: Id, q: Id, r: Id, s: Id)
    requires Opposed(b, p, q, r, s) && Covers(b, order) && order != [] && order[0] == q
    ensures var v := Visit(b, order); {p, q, r} <= v.Keys && !v[p] && !v[q] && !v[r]
  {
    OpposedFacts(b, p, q, r, s);
    OpposedPrevail(b, p, q, r, s);
    OpposedIsRing(b, q, r, p);
    ClosesAtFirst(b, order, q, p);
    VisitFacts(b, order);
    var v := Visit(b, order);
    OpposedIsRing(b, r, p, q);
    if r in Closers(b, order) { OneCloserPerRing(b, order, r, p); }
    if q in Closers(b, order) { OneCloserPerRing(b, order, q, p); }
    assert SolvesAt(b, v, r) && SolvesAt(b, v, q);
  }

  lemma FourInOrder(s: set<Id>, keys: seq<Id>)
    requires NoDuplicates(keys) && Sorted(keys, Le) && forall x :: x in keys <==> x in s
    ensures Ascending(s) == keys
  {
    SameMembersSameMultiset(Ascending(s), keys);
    forall x, y | Le(x, y) && Le(y, x) ensures x == y { LeAntisymmetric(x, y); }
    SortedUnique(Ascending(s), keys, Le);
  }

  lemma EngineEntersAtTheContestedMove(b: Battle, p: Id, q: Id, r: Id, s: Id)
    requires Opposed(b, p, q, r, s) && Sorted([p, q, r, s], Le)
    ensures var v := Outcomes(b); {p, q, r} <= v.Keys && !v[p] && v[q] && v[r]
  {
    OpposedFacts(b, p, q, r, s);
    var keys := [p, q, r, s];
    FourInOrder(b.orders.Keys, keys);
    AllInTurn(b, keys);
    EnteredAtTheContestedMove(b, keys, p, q, r, s);
  }

  /** When the engine's own order of regions is p, q, r, s, the unit at `p` is dislodged by an
      unsupported unit, which may be of its own faction, although the equation keeps both in place. */
  lemma OpposedRingDislodgesUnsupported(b: Battle, p: Id, q: Id, r: Id, s: Id, flag: bool)
    requires Opposed(b, p, q, r, s) && Sorted([p, q, r, s], Le)
    ensures var u := ResultFor(b, flag, Outcomes(b), Winners(b, Outcomes(b), Ascending(b.orders.Keys)), p);
            u.regionId == p && u.dislodged && u.dislodgedBy == Some(r)
    ensures Attack(b, r) == 1 && !SolvesAt(b, Outcomes(b), r)
  {
    OpposedFacts(b, p, q, r, s);
    OpposedPrevail(b, p, q, r, s);
    EngineEntersAtTheContestedMove(b, p, q, r, s);
    ContestedUnitIsDislodged(b, Outcomes(b), p, q, r, s, flag);
  }

  lemma ContestedUnitIsDislodged(b: Battle, v: map<Id, bool>, p: Id, q: Id, r: Id, s: Id, flag: bool)
    requires Opposed(b, p, q, r, s)
    requires {p, q, r} <= v.Keys && !v[p] && v[q] && v[r]
    ensures var u := ResultFor(b, flag, v, Winners(b, v, Ascending(b.orders.Keys)), p);
            u.regionId == p && u.dislodged && u.dislodgedBy == Some(r)
  {
    var w := Winners(b, v, Ascending(b.orders.Keys));
    WinnersExact(b, v, Ascending(b.orders.Keys), p);
    assert r in b.orders && MovedTo(b, v, r, p);
    OnlyTheRingMovesIn(b, p, q, r, s, w[p]);
  }

  lemma OnlyTheRingMovesIn(b: Battle, p: Id, q: Id, r: Id, s: Id, a: Id)
    requires Opposed(b, p, q, r, s) && Moves(b, a) && Dest(b, a) == p
    ensures a == r
  {
    assert a in {p, q, r, s};
  }

  lemma {:induction false} AllInTurn(b: Battle, keys: seq<Id>)
    requires forall x :: x in keys ==> Moves(b, x)
    ensures InTurn(b, keys) == keys
    decreases |keys|
  {
    if keys != [] {
      var n := |keys| - 1;
      assert keys == keys[..n] + [keys[n]] && keys[n] in keys;
      AllInTurn(b, keys[..n]);
    }
  }

  // ---------------------------------------------------------------- on a board

  /** Four units stand at p, q, r and s and nowhere else, each has the ring's order, and each can carry it out. */
  ghost predicate OpposedOnBoard(adj: Adjacency, state: GameState, orders: map<Id, Order>, p: Id, q: Id, r: Id, s: Id) {
    && DistinctRegions(state.units)
    && (forall u :: u in state.units ==> u.regionId in {p, q, r, s})
    && Occupied(state, p) && Occupied(state, q) && Occupied(state, r) && Occupied(state, s)
    && p != q && p != r && p != s && q != r && q != s && r != s
    && Ordered(adj, state, orders, p, q) && Ordered(adj, state, orders, q, r)
    && Ordered(adj, state, orders, r, p) && Ordered(adj, state, orders, s, q)
  }

  ghost predicate Ordered(adj: Adjacency, state: GameState, orders: map<Id, Order>, from: Id, to: Id) {
    && Lookup(orders, from) == Some(Move(from, to))
    && forall u :: u in state.units && u.regionId == from ==> CanMoveTo(adj, state, u, to)
  }

  lemma OrderedMoves(adj: Adjacency, state: GameState, orders: map<Id, Order>, from: Id, to: Id)
    requires Occupied(state, from) && Ordered(adj, state, orders, from, to)
    ensures from in BattleOf(adj, state, orders).orders && BattleOf(adj, state, orders).orders[from] == Move(from, to)
  {
    SortByRegionKeeps(state.units);
    ByRegionHas(SortByRegion(state.units));
    var i :| 0 <= i < |state.units| && state.units[i].regionId == from;
    assert state.units[i] in SortByRegion(state.units);
    assert BattleOf(adj, state, orders).units[from] in state.units;
  }

  lemma BoardIsOpposed(adj: Adjacency, state: GameState, orders: map<Id, Order>, p: Id, q: Id, r: Id, s: Id)
    requires OpposedOnBoard(adj, state, orders, p, q, r, s)
    ensures Opposed(BattleOf(adj, state, orders), p, q, r, s)
  {
    var b := BattleOf(adj, state, orders);
    BattleIsValid(adj, state, orders);
    OrderedMoves(adj, state, orders, p, q);
    OrderedMoves(adj, state, orders, q, r);
    OrderedMoves(adj, state, orders, r, p);
    OrderedMoves(adj, state, orders, s, q);
    UnitsOnBoard(state);
    forall x | x in b.orders ensures x in {p, q, r, s} {
      assert b.units[x] in state.units;
    }
  }

  lemma FirstReport(b: Battle, flags: map<Id, bool>, keys: seq<Id>)
    requires Valid(b) && flags.Keys == b.orders.Keys && keys == Ascending(b.orders.Keys) && keys != []
    ensures |OutcomeOf(b, flags).unitResults| == |keys| && keys[0] in b.orders
    ensures OutcomeOf(b, flags).unitResults[0] ==
            ResultFor(b, flags[keys[0]], Outcomes(b), Winners(b, Outcomes(b), keys), keys[0])
  {
  }

  lemma OpposedReport(b: Battle, flags: map<Id, bool>, p: Id, q: Id, r: Id, s: Id)
    requires Opposed(b, p, q, r, s) && Sorted([p, q, r, s], Le) && flags.Keys == b.orders.Keys
    ensures var results := OutcomeOf(b, flags).unitResults;
            && |results| == 4 && results[0].regionId == p && results[0].dislodged && results[0].dislodgedBy == Some(r)
    ensures Moves(b, r) && Attack(b, r) == 1 && !SolvesAt(b, Outcomes(b), r)
  {
    OpposedFacts(b, p, q, r, s);
    FourInOrder(b.orders.Keys, [p, q, r, s]);
    FirstReport(b, flags, [p, q, r, s]);
    OpposedRingDislodgesUnsupported(b, p, q, r, s, flags[p]);
  }

  /** Whatever the map and the factions: the first report is that of the unit at `p`, dislodged by the
      unsupported unit from `r`. */
  lemma OpposedRingOnBoard(adj: Adjacency, state: GameState, orders: map<Id, Order>, p: Id, q: Id, r: Id, s: Id)
    requires OpposedOnBoard(adj, state, orders, p, q, r, s) && Sorted([p, q, r, s], Le)
    ensures var b, results := BattleOf(adj, state, orders), MovementOutcome(adj, state, orders).unitResults;
            && |results| == 4 && results[0].regionId == p && results[0].dislodged && results[0].dislodgedBy == Some(r)
            && Valid(b) && Moves(b, r) && Attack(b, r) == 1 && !SolvesAt(b, Outcomes(b), r)
  {
    BoardIsOpposed(adj, state, orders, p, q, r, s);
    OpposedReport(BattleOf(adj, state, orders), Flags(adj, state, orders), p, q, r, s);
  }

  /** The unit of report `i` was dislodged by an unsupported unit of its own faction. */
  ghost predicate FriendlyDislodgement(adj: Adjacency, state: GameState, orders: map<Id, Order>, i: nat) {
    var b, results := BattleOf(adj, state, orders), MovementOutcome(adj, state, orders).unitResults;
    && OwnDislodgement(adj, state, orders, i)
    && Moves(b, results[i].dislodgedBy.value) && Attack(b, results[i].dislodgedBy.value) == 1
  }

  lemma FriendlyRing(adj: Adjacency, state: GameState, orders: map<Id, Order>, p: Id, q: Id, r: Id, s: Id, u: Unit, v: Unit)
    requires OpposedOnBoard(adj, state, orders, p, q, r, s) && Sorted([p, q, r, s], Le)
    requires u in state.units && v in state.units && u.regionId == p && v.regionId == r && u.factionId == v.factionId
    ensures FriendlyDislodgement(adj, state, orders, 0)
  {
    OpposedRingOnBoard(adj, state, orders, p, q, r, s);
    FirstReportIsTheUnit(adj, state, orders, u);
    UnitsOnBoard(state);
  }

  lemma FirstReportIsTheUnit(adj: Adjacency, state: GameState, orders: map<Id, Order>, u: Unit)
    requires DistinctRegions(state.units) && u in state.units
    requires |MovementOutcome(adj, state, orders).unitResults| > 0
    requires MovementOutcome(adj, state, orders).unitResults[0].regionId == u.regionId
    ensures MovementOutcome(adj, state, orders).unitResults[0].factionId == u.factionId
  {
    ResultAt(adj, state, orders, 0);
    SortByRegionKeeps(state.units);
    ByRegionHas(SortByRegion(state.units));
  }

  lemma FourLetters()
    ensures Sorted(["a", "b", "c", "d"], Le)
    ensures "a" != "b" && "a" != "c" && "a" != "d" && "b" != "c" && "b" != "d" && "c" != "d"
  {
    assert Le("", "");
    assert "a"[0] != "b"[0] && "a"[0] != "c"[0] && "a"[0] != "d"[0] && "b"[0] != "c"[0] && "b"[0] != "d"[0] && "c"[0] != "d"[0];
  }

  lemma FourUnitsOppose(adj: Adjacency, state: GameState, orders: map<Id, Order>, p: Id, q: Id, r: Id, s: Id)
    requires |state.units| == 4
    requires state.units[0].regionId == p && state.units[1].regionId == q && state.units[2].regionId == r && state.units[3].regionId == s
    requires p != q && p != r && p != s && q != r && q != s && r != s
    requires Lookup(orders, p) == Some(Move(p, q)) && Lookup(orders, q) == Some(Move(q, r))
    requires Lookup(orders, r) == Some(Move(r, p)) && Lookup(orders, s) == Some(Move(s, q))
    requires CanMoveTo(adj, state, state.units[0], q) && CanMoveTo(adj, state, state.units[1], r)
    requires CanMoveTo(adj, state, state.units[2], p) && CanMoveTo(adj, state, state.units[3], q)
    ensures OpposedOnBoard(adj, state, orders, p, q, r, s)
  {
  }

  const RING_MAP: Adjacency := map["a" := {"b", "c"}, "b" := {"a", "c", "d"}, "c" := {"a", "b"}, "d" := {"b"}]

  const RING_ORDERS: map<Id, Order> :=
    map["a" := Move("a", "b"), "b" := Move("b", "c"), "c" := Move("c", "a"), "d" := Move("d", "b")]

  const RING_BOARD := GameState(
    map["a" := Inland("a"), "b" := Inland("b"), "c" := Inland("c"), "d" := Inland("d")],
    map["x" := Player("x"), "y" := Player("y"), "z" := Player("z")],
    [Unit(Army, "x", "a"), Unit(Army, "y", "b"), Unit(Army, "x", "c"), Unit(Army, "z", "d")],
    map[], Phase.Orders, 1, 1)

  lemma RingMapIsSymmetric()
    ensures Symmetric(RING_MAP)
  {
    FourLetters();
  }

  lemma RingUnitIsLegal(i: nat)
    requires i < |RING_BOARD.units|
    ensures LegalUnit(RING_BOARD, RING_BOARD.units[i])
  {
  }

  lemma RingBoardIsLegal()
    ensures LegalBoard(RING_BOARD)
  {
    FourLetters();
    forall i | 0 <= i < |RING_BOARD.units| ensures LegalUnit(RING_BOARD, RING_BOARD.units[i]) {
      RingUnitIsLegal(i);
    }
  }

  lemma RingBoardMoves()
    ensures CanMoveTo(RING_MAP, RING_BOARD, RING_BOARD.units[0], "b") && CanMoveTo(RING_MAP, RING_BOARD, RING_BOARD.units[1], "c")
    ensures CanMoveTo(RING_MAP, RING_BOARD, RING_BOARD.units[2], "a") && CanMoveTo(RING_MAP, RING_BOARD, RING_BOARD.units[3], "b")
  {
    FourLetters();
  }

  lemma RingOrdersGiven()
    ensures Lookup(RING_ORDERS, "a") == Some(Move("a", "b")) && Lookup(RING_ORDERS, "b") == Some(Move("b", "c"))
    ensures Lookup(RING_ORDERS, "c") == Some(Move("c", "a")) && Lookup(RING_ORDERS, "d") == Some(Move("d", "b"))
  {
    FourLetters();
  }

  /** Such a board and such orders exist: on this legal board the unit at "a" is dislodged by an
      unsupported unit of its own faction. */
  lemma RingBoardHurtsItsOwn()
    ensures Symmetric(RING_MAP) && LegalBoard(RING_BOARD) && FriendlyDislodgement(RING_MAP, RING_BOARD, RING_ORDERS, 0)
  {
    RingMapIsSymmetric();
    RingBoardIsLegal();
    RingBoardMoves();
    RingOrdersGiven();
    FourLetters();
    FourUnitsOppose(RING_MAP, RING_BOARD, RING_ORDERS, "a", "b", "c", "d");
    assert RING_BOARD.units[0] in RING_BOARD.units && RING_BOARD.units[2] in RING_BOARD.units;
    FriendlyRing(RING_MAP, RING_BOARD, RING_ORDERS, "a", "b", "c", "d", RING_BOARD.units[0], RING_BOARD.units[2]);
  }
}
