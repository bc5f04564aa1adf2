/** Boards and orders written out: what the engine does where documentation or comments suggest otherwise. */
module WrittenBoards {
  import opened Ordering
  import opened Board
  import opened Movement
  import opened Adjudication
  import opened MovementTheorems
  import opened MoveSearch
  import opened RingOutcome
  import opened Dislodgement
  import opened Rulebook

  /** The order is one the unit can carry out. */
  ghost predicate Legal(adj: Adjacency, state: GameState, u: Unit, order: Order) {
    && order.unit == u.regionId
    && match order
       case Hold(_) => true
       case Move(_, destination) => CanMoveTo(adj, state, u, destination)
       case SupportHold(_, supported) => Occupied(state, supported) && CanMoveTo(adj, state, u, supported)
       case SupportMove(_, supported, target) => Occupied(state, supported) && CanMoveTo(adj, state, u, target)
  }

  /** The unit `u` is on the board and has the legal order `order`. */
  ghost predicate Has(adj: Adjacency, state: GameState, orders: map<Id, Order>, u: Unit, order: Order) {
    u in state.units && Lookup(orders, u.regionId) == Some(order) && Legal(adj, state, u, order)
  }

  lemma LegalOrderStands(adj: Adjacency, state: GameState, orders: map<Id, Order>, u: Unit, order: Order)
    requires DistinctRegions(state.units) && Has(adj, state, orders, u, order)
    ensures var b := BattleOf(adj, state, orders);
            u.regionId in b.orders && b.orders[u.regionId] == order && u.regionId in b.units && b.units[u.regionId] == u
  {
    UnitsOnBoard(state);
  }

  lemma NobodyElse(adj: Adjacency, state: GameState, orders: map<Id, Order>, regions: set<Id>)
    requires forall u :: u in state.units ==> u.regionId in regions
    ensures forall r :: r in BattleOf(adj, state, orders).orders ==> r in regions
  {
    UnitsOnBoard(state);
  }

  /** Every unit on the board has its report. */
  lemma ReportOf(adj: Adjacency, state: GameState, orders: map<Id, Order>, r: Id) returns (i: nat)
    requires r in BattleOf(adj, state, orders).orders
    ensures i < |MovementOutcome(adj, state, orders).unitResults| && MovementOutcome(adj, state, orders).unitResults[i].regionId == r
  {
    BattleIsValid(adj, state, orders);
    var keys := Ascending(BattleOf(adj, state, orders).orders.Keys);
    assert r in keys;
    i :| 0 <= i < |keys| && keys[i] == r;
    ResultAt(adj, state, orders, i);
  }

  // ---------------------------------------------------------------- head to head within a faction

  /** `p` and `q` move into each other's regions, and `s` supports the move from `p`. */
  ghost predicate Facing(b: Battle, p: Id, q: Id, s: Id) {
    && Valid(b) && p != q && p != s && q != s && b.orders.Keys == {p, q, s}
    && b.orders[p] == Move(p, q) && b.orders[q] == Move(q, p) && b.orders[s] == SupportMove(s, p, q)
  }

  lemma FacingStrengths(b: Battle, p: Id, q: Id, s: Id)
    requires Facing(b, p, q, s)
    ensures Moves(b, p) && Moves(b, q) && Attack(b, p) == 2 && Attack(b, q) == 1
  {
    assert !IsCut(b, s);
    assert AttackSupports(b, p) == {s};
    assert AttackSupports(b, q) == {};
  }

  lemma FacingDrivesOut(b: Battle, p: Id, q: Id, s: Id)
    requires Facing(b, p, q, s) && b.units[p].factionId == b.units[q].factionId
    ensures DrivesOutItsOwn(b, p, q)
  {
    FacingStrengths(b, p, q, s);
    assert BeatsRivals(b, p) && BeatsHeadToHead(b, p) && BeatsHolder(b, p);
  }

  /** Three units on any map: of two that change places the supported one dislodges the other, although
      they are of one faction. */
  lemma FacingOnBoard(adj: Adjacency, state: GameState, orders: map<Id, Order>, u: Unit, v: Unit, w: Unit)
    requires DistinctRegions(state.units) && u != v && u != w && v != w
    requires forall x :: x in state.units ==> x.regionId in {u.regionId, v.regionId, w.regionId}
    requires u.regionId != v.regionId && u.regionId != w.regionId && v.regionId != w.regionId
    requires Has(adj, state, orders, u, Move(u.regionId, v.regionId)) && Has(adj, state, orders, v, Move(v.regionId, u.regionId))
    requires Has(adj, state, orders, w, SupportMove(w.regionId, u.regionId, v.regionId))
    requires u.factionId == v.factionId
    ensures exists i: nat :: OwnDislodgement(adj, state, orders, i) &&
                        MovementOutcome(adj, state, orders).unitResults[i].regionId == v.regionId
  {
    var b := BattleOf(adj, state, orders);
    BattleIsValid(adj, state, orders);
    LegalOrderStands(adj, state, orders, u, Move(u.regionId, v.regionId));
    LegalOrderStands(adj, state, orders, v, Move(v.regionId, u.regionId));
    LegalOrderStands(adj, state, orders, w, SupportMove(w.regionId, u.regionId, v.regionId));
    NobodyElse(adj, state, orders, {u.regionId, v.regionId, w.regionId});
    assert b.orders.Keys == {u.regionId, v.regionId, w.regionId};
    FacingDrivesOut(b, u.regionId, v.regionId, w.regionId);
    var i := ReportOf(adj, state, orders, v.regionId);
    OwnDislodgementExactly(adj, state, orders, i);
  }

  // ---------------------------------------------------------------- written out

  function Inland(id: Id): Region {
    Region(id, id, Land, false, id)
  }

  function Player(id: Id): Faction {
    Faction(id, id, id, id)
  }

  /** As on the game's own map, every edge goes both ways and none leads back to its start. */
  ghost predicate Symmetric(adj: Adjacency) {
    forall p, q :: p in adj && q in adj[p] ==> p != q && q in adj && p in adj[q]
  }

  const TRIANGLE: Adjacency := map["a" := {"b", "c"}, "b" := {"a", "c"}, "c" := {"a", "b"}]

  const TRIO := GameState(
    map["a" := Inland("a"), "b" := Inland("b"), "c" := Inland("c")],
    map["x" := Player("x")],
    [Unit(Army, "x", "a"), Unit(Army, "x", "b"), Unit(Army, "x", "c")],
    map[], Phase.Orders, 1, 1)

  lemma ThreeLetters()
    ensures "a" != "b" && "a" != "c" && "b" != "c"
  {
    assert "a"[0] != "b"[0] && "a"[0] != "c"[0] && "b"[0] != "c"[0];
  }

  lemma TriangleIsSymmetric()
    ensures Symmetric(TRIANGLE)
  {
    ThreeLetters();
  }

  lemma TrioIsLegal()
    ensures LegalBoard(TRIO)
    ensures Occupied(TRIO, "a") && Occupied(TRIO, "b") && Occupied(TRIO, "c")
  {
    ThreeLetters();
    assert TRIO.units[0].regionId == "a" && TRIO.units[1].regionId == "b" && TRIO.units[2].regionId == "c";
  }

  lemma TrioReaches(i: nat, to: Id)
    requires i < 3 && to in {"a", "b", "c"} && to != TRIO.units[i].regionId
    ensures TRIO.units[i] in TRIO.units && CanMoveTo(TRIANGLE, TRIO, TRIO.units[i], to)
  {
    ThreeLetters();
  }

  const SWAP_ORDERS: map<Id, Order> := map["a" := Move("a", "b"), "b" := Move("b", "a"), "c" := SupportMove("c", "a", "b")]

  lemma SwapGiven()
    ensures Lookup(SWAP_ORDERS, "a") == Some(Move("a", "b")) && Lookup(SWAP_ORDERS, "b") == Some(Move("b", "a"))
    ensures Lookup(SWAP_ORDERS, "c") == Some(SupportMove("c", "a", "b"))
  {
    ThreeLetters();
  }

  /** On this legal board a unit is dislodged head to head by a supported unit of its own faction. */
  lemma SwapHurtsItsOwn()
    ensures Symmetric(TRIANGLE) && LegalBoard(TRIO)
    ensures exists i: nat :: OwnDislodgement(TRIANGLE, TRIO, SWAP_ORDERS, i) &&
                        MovementOutcome(TRIANGLE, TRIO, SWAP_ORDERS).unitResults[i].regionId == "b"
  {
    ThreeLetters();
    TriangleIsSymmetric();
    TrioIsLegal();
    SwapGiven();
    TrioReaches(0, "b");
    TrioReaches(1, "a");
    TrioReaches(2, "b");
    FacingOnBoard(TRIANGLE, TRIO, SWAP_ORDERS, TRIO.units[0], TRIO.units[1], TRIO.units[2]);
  }

  // ---------------------------------------------------------------- support of a supporting unit

  const GUARD_ORDERS: map<Id, Order> := map["a" := Hold("a"), "b" := SupportHold("b", "a"), "c" := SupportHold("c", "b")]

  lemma GuardGiven()
    ensures Lookup(GUARD_ORDERS, "a") == Some(Hold("a")) && Lookup(GUARD_ORDERS, "b") == Some(SupportHold("b", "a"))
    ensures Lookup(GUARD_ORDERS, "c") == Some(SupportHold("c", "b"))
  {
    ThreeLetters();
  }

  lemma GuardsCount(b: Battle, h: Id, s: Id, x: Id)
    requires Valid(b) && h != s && h != x && s != x && b.orders.Keys == {h, s, x}
    requires b.orders[x] == Hold(x) && b.orders[h] == SupportHold(h, x) && b.orders[s] == SupportHold(s, h)
    ensures Supports(b, h) && !Moves(b, h) && HoldStrength(b, h) == 2
  {
    assert !IsCut(b, s);
    assert HoldSupports(b, h) == {s};
  }

  /** Hold support counts for a unit that is itself supporting: the unit at "b" supports that at "a", and
      defends with strength 2. */
  lemma SupportingUnitIsSupported()
    ensures var b := BattleOf(TRIANGLE, TRIO, GUARD_ORDERS);
            Valid(b) && Supports(b, "b") && !Moves(b, "b") && HoldStrength(b, "b") == 2
  {
    var b := BattleOf(TRIANGLE, TRIO, GUARD_ORDERS);
    ThreeLetters();
    TrioIsLegal();
    GuardGiven();
    TrioReaches(1, "a");
    TrioReaches(2, "b");
    BattleIsValid(TRIANGLE, TRIO, GUARD_ORDERS);
    assert TRIO.units[0] in TRIO.units;
    LegalOrderStands(TRIANGLE, TRIO, GUARD_ORDERS, TRIO.units[0], Hold("a"));
    LegalOrderStands(TRIANGLE, TRIO, GUARD_ORDERS, TRIO.units[1], SupportHold("b", "a"));
    LegalOrderStands(TRIANGLE, TRIO, GUARD_ORDERS, TRIO.units[2], SupportHold("c", "b"));
    NobodyElse(TRIANGLE, TRIO, GUARD_ORDERS, {"a", "b", "c"});
    assert b.orders.Keys == {"a", "b", "c"};
    GuardsCount(b, "b", "c", "a");
  }

  // ---------------------------------------------------------------- the unit under attack cuts nothing

  /** `s` supports the move from `p` to `q`, whose unit moves on `s`. */
  ghost predicate AttackedFromTarget(b: Battle, p: Id, q: Id, s: Id) {
    && Valid(b) && p != q && p != s && q != s && b.orders.Keys == {p, q, s}
    && b.orders[p] == Move(p, q) && b.orders[s] == SupportMove(s, p, q) && b.orders[q] == Move(q, s)
  }

  lemma TheOneSupporter(b: Battle, p: Id, q: Id, s: Id)
    requires AttackedFromTarget(b, p, q, s)
    ensures SupportersOfMove(b, p, q) == {s}
  {
    assert Undisturbed(b, s, q);
  }

  lemma NoOtherSupporter(b: Battle, p: Id, q: Id, s: Id)
    requires AttackedFromTarget(b, p, q, s)
    ensures SupportersOfMove(b, q, s) == {} && SupportersOfHold(b, s) == {}
  {
  }

  lemma SupportSurvivesTarget(b: Battle, p: Id, q: Id, s: Id)
    requires AttackedFromTarget(b, p, q, s)
    ensures Moves(b, p) && Moves(b, q) && Attack(b, p) == 2 && Attack(b, q) == 1 && HoldStrength(b, s) == 1
  {
    TheOneSupporter(b, p, q, s);
    NoOtherSupporter(b, p, q, s);
    AttackSupportsByTheBook(b, p, q);
    AttackSupportsByTheBook(b, q, s);
    HoldSupportsByTheBook(b, s);
  }

  lemma StrikePrevails(b: Battle, p: Id, q: Id, s: Id)
    requires AttackedFromTarget(b, p, q, s) && b.units[p].factionId != b.units[q].factionId
    ensures Moves(b, p) && Moves(b, q) && Prevails(b, p) && Shoves(b, p) && !Prevails(b, q)
  {
    SupportSurvivesTarget(b, p, q, s);
    assert !BeatsHolder(b, q);
    assert BeatsRivals(b, p) && BeatsHeadToHead(b, p) && BeatsHolder(b, p);
  }

  lemma TargetIsDislodged(b: Battle, p: Id, q: Id, s: Id)
    requires AttackedFromTarget(b, p, q, s) && b.units[p].factionId != b.units[q].factionId
    ensures Covers(b, EngineOrder(b)) && GrantedInto(b, p, q) && Moves(b, q) && !Granted(b, EngineOrder(b), q)
  {
    StrikePrevails(b, p, q, s);
    OutcomesPrevail(b);
    ShoveIsGranted(b, EngineOrder(b), p);
    assert NeedsUpTo(b, EngineOrder(b), q, 0) == Some(q);
  }

  lemma ShoveIsGranted(b: Battle, order: seq<Id>, r: Id)
    requires Valid(b) && Covers(b, order) && Moves(b, r) && Prevails(b, r) && Shoves(b, r)
    ensures Granted(b, order, r)
  {
    forall k: nat | NeedsUpTo(b, order, r, k).Some? ensures Prevails(b, NeedsUpTo(b, order, r, k).value) {
      assert k == 0;
    }
  }

  const PAIR_AND_RIVAL := GameState(
    map["a" := Inland("a"), "b" := Inland("b"), "c" := Inland("c")],
    map["x" := Player("x"), "y" := Player("y")],
    [Unit(Army, "x", "a"), Unit(Army, "y", "b"), Unit(Army, "x", "c")],
    map[], Phase.Orders, 1, 1)

  const STRIKE_ORDERS: map<Id, Order> := map["a" := Move("a", "b"), "b" := Move("b", "c"), "c" := SupportMove("c", "a", "b")]

  lemma StrikeIsLegal()
    ensures LegalBoard(PAIR_AND_RIVAL) && Occupied(PAIR_AND_RIVAL, "a")
  {
    ThreeLetters();
    assert PAIR_AND_RIVAL.units[0].regionId == "a";
  }

  lemma StrikeReaches(i: nat, to: Id)
    requires i < 3 && to in {"a", "b", "c"} && to != PAIR_AND_RIVAL.units[i].regionId
    ensures PAIR_AND_RIVAL.units[i] in PAIR_AND_RIVAL.units && CanMoveTo(TRIANGLE, PAIR_AND_RIVAL, PAIR_AND_RIVAL.units[i], to)
  {
    ThreeLetters();
  }

  lemma StrikeGiven()
    ensures Lookup(STRIKE_ORDERS, "a") == Some(Move("a", "b")) && Lookup(STRIKE_ORDERS, "b") == Some(Move("b", "c"))
    ensures Lookup(STRIKE_ORDERS, "c") == Some(SupportMove("c", "a", "b"))
  {
    ThreeLetters();
  }

  lemma StrikeBattle()
    ensures var b := BattleOf(TRIANGLE, PAIR_AND_RIVAL, STRIKE_ORDERS);
            AttackedFromTarget(b, "a", "b", "c") && b.units["a"].factionId == "x" && b.units["b"].factionId == "y"
  {
    var b := BattleOf(TRIANGLE, PAIR_AND_RIVAL, STRIKE_ORDERS);
    ThreeLetters();
    StrikeIsLegal();
    StrikeGiven();
    StrikeReaches(0, "b");
    StrikeReaches(1, "c");
    StrikeReaches(2, "b");
    BattleIsValid(TRIANGLE, PAIR_AND_RIVAL, STRIKE_ORDERS);
    LegalOrderStands(TRIANGLE, PAIR_AND_RIVAL, STRIKE_ORDERS, PAIR_AND_RIVAL.units[0], Move("a", "b"));
    LegalOrderStands(TRIANGLE, PAIR_AND_RIVAL, STRIKE_ORDERS, PAIR_AND_RIVAL.units[1], Move("b", "c"));
    LegalOrderStands(TRIANGLE, PAIR_AND_RIVAL, STRIKE_ORDERS, PAIR_AND_RIVAL.units[2], SupportMove("c", "a", "b"));
    NobodyElse(TRIANGLE, PAIR_AND_RIVAL, STRIKE_ORDERS, {"a", "b", "c"});
    assert b.orders.Keys == {"a", "b", "c"};
  }

  /** A move on a supporter does not cut the support when it comes from the region under attack: the unit
      at "b" moves on the supporter of the attack on it, and is dislodged by that attack all the same. */
  lemma StrikeGoesThrough()
    ensures LegalBoard(PAIR_AND_RIVAL)
    ensures exists i :: 0 <= i < |MovementOutcome(TRIANGLE, PAIR_AND_RIVAL, STRIKE_ORDERS).unitResults| &&
              var u := MovementOutcome(TRIANGLE, PAIR_AND_RIVAL, STRIKE_ORDERS).unitResults[i];
              u.regionId == "b" && u.dislodged && u.dislodgedBy == Some("a")
  {
    StrikeIsLegal();
    StrikeBattle();
    var b := BattleOf(TRIANGLE, PAIR_AND_RIVAL, STRIKE_ORDERS);
    TargetIsDislodged(b, "a", "b", "c");
    var i := ReportOf(TRIANGLE, PAIR_AND_RIVAL, STRIKE_ORDERS, "b");
    DislodgedExactly(TRIANGLE, PAIR_AND_RIVAL, STRIKE_ORDERS, i, "a");
  }
}
