/** The rules of movement as one would read them off the orders: who can go where, which orders stand,
    which supports count, and when a move succeeds; and that the engine keeps to them. */
module Rulebook {
  import opened Ordering
  import opened Board
  import opened Movement
  import opened MoveSearch
  import opened RingEntry
  import opened RingOutcome
  import opened Adjudication
  import opened MovementTheorems

  // ---------------------------------------------------------------- terrain and reach

  /** An army may be anywhere but at sea, a fleet anywhere but inland. */
  lemma TerrainExactly(unitType: UnitType, regionType: RegionType)
    ensures MayEnter(unitType, regionType) <==>
            !(unitType == Army && regionType == Sea) && !(unitType == Fleet && regionType == Land)
  {
  }

  /** `d` is a neighbouring region on the board, fit for the unit. */
  ghost predicate Neighbours(adj: Adjacency, state: GameState, u: Unit, d: Id) {
    && u.regionId in adj && d in adj[u.regionId] && d in state.regions
    && !(u.unitType == Army && state.regions[d].regionType == Sea)
    && !(u.unitType == Fleet && state.regions[d].regionType == Land)
  }

  /** Some unit stands at `r`. */
  ghost predicate Someone(state: GameState, r: Id) {
    exists u :: u in state.units && u.regionId == r
  }

  lemma SomeoneExactly(state: GameState, r: Id)
    ensures Occupied(state, r) <==> Someone(state, r)
  {
    if i :| 0 <= i < |state.units| && state.units[i].regionId == r {
      assert state.units[i] in state.units;
    }
  }

  /** The unit can carry the order out. */
  ghost predicate Possible(adj: Adjacency, state: GameState, u: Unit, order: Order) {
    match order
    case Hold(_) => true
    case Move(_, destination) => Neighbours(adj, state, u, destination)
    case SupportHold(_, supported) => Someone(state, supported) && Neighbours(adj, state, u, supported)
    case SupportMove(_, supported, target) => Someone(state, supported) && Neighbours(adj, state, u, target)
  }

  lemma NormalizeByTheBook(adj: Adjacency, state: GameState, u: Unit, order: Option<Order>)
    ensures Normalize(adj, state, u, order).0 ==
            if order.Some? && order.value.unit == u.regionId && Possible(adj, state, u, order.value)
            then order.value else Hold(u.regionId)
  {
    if order.Some? {
      match order.value
      case SupportHold(_, supported) => SomeoneExactly(state, supported);
      case SupportMove(_, supported, _) => SomeoneExactly(state, supported);
      case _ =>
    }
  }

  /** A unit does what it was ordered exactly when the order is its own and possible; it holds otherwise. */
  lemma OrdersByTheBook(adj: Adjacency, state: GameState, orders: map<Id, Order>, u: Unit)
    requires DistinctRegions(state.units) && u in state.units
    ensures var b, r := BattleOf(adj, state, orders), u.regionId;
            && r in b.units && b.units[r] == u && r in b.orders
            && b.orders[r] == if r in orders && orders[r].unit == r && Possible(adj, state, u, orders[r]) then orders[r] else Hold(r)
  {
    UnitsOnBoard(state);
    NormalizeByTheBook(adj, state, u, Lookup(orders, u.regionId));
  }

  // ---------------------------------------------------------------- supports and strengths

  /** Nobody moves on `s`, except perhaps from `spared`. */
  ghost predicate Undisturbed(b: Battle, s: Id, spared: Id) {
    forall a :: a in b.orders && a != spared && a != s ==> b.orders[a] != Move(a, s)
  }

  /** The supports that count for a move from `r` to `d`: those given for just that move by units on whom
      nobody moves except the unit under attack. */
  ghost function SupportersOfMove(b: Battle, r: Id, d: Id): set<Id> {
    set s | s in b.orders && b.orders[s] == SupportMove(s, r, d) && Undisturbed(b, s, d)
  }

  /** The supports that count for the unit standing at `d`: those given for it by units on whom nobody moves. */
  ghost function SupportersOfHold(b: Battle, d: Id): set<Id> {
    set s | s in b.orders && b.orders[s] == SupportHold(s, d) && Undisturbed(b, s, s)
  }

  lemma CutByTheBook(b: Battle, s: Id)
    requires Valid(b) && s in b.orders && Supports(b, s)
    ensures IsCut(b, s) <==> !Undisturbed(b, s, if b.orders[s].SupportMove? then b.orders[s].target else s)
  {
    var spared := if b.orders[s].SupportMove? then b.orders[s].target else s;
    forall a | a in b.orders ensures Cuts(b, a, s) <==> a != spared && a != s && b.orders[a] == Move(a, s) {
      assert b.orders[a].unit == a;
    }
  }

  /** A support counts for a move exactly when it is given for that move and nobody but the unit under
      attack moves on the supporter. */
  lemma AttackSupportsByTheBook(b: Battle, r: Id, d: Id)
    requires Valid(b) && r in b.orders && b.orders[r] == Move(r, d)
    ensures Moves(b, r) && Dest(b, r) == d && AttackSupports(b, r) == SupportersOfMove(b, r, d)
    ensures Attack(b, r) == 1 + |SupportersOfMove(b, r, d)|
  {
    forall s | s in b.orders ensures s in AttackSupports(b, r) <==> s in SupportersOfMove(b, r, d) {
      assert b.orders[s].unit == s;
      if Supports(b, s) { CutByTheBook(b, s); }
    }
  }

  /** A hold support counts exactly when nobody at all moves on the supporter. */
  lemma HoldSupportsByTheBook(b: Battle, d: Id)
    requires Valid(b)
    ensures HoldSupports(b, d) == SupportersOfHold(b, d) && HoldStrength(b, d) == 1 + |SupportersOfHold(b, d)|
  {
    forall s | s in b.orders ensures s in HoldSupports(b, d) <==> s in SupportersOfHold(b, d) {
      assert b.orders[s].unit == s;
      if Supports(b, s) { CutByTheBook(b, s); }
    }
  }

  /** What a report says about cut support, read off the orders. */
  ghost predicate CutReported(b: Battle, u: UnitOrderResult) {
    && u.regionId in b.orders
    && match b.orders[u.regionId]
       case SupportHold(s, _) => u.supportCut == !Undisturbed(b, s, s)
       case SupportMove(s, _, target) => u.supportCut == !Undisturbed(b, s, target)
       case _ => !u.supportCut
  }

  lemma SupportCutByTheBook(adj: Adjacency, state: GameState, orders: map<Id, Order>, i: nat)
    requires i < |MovementOutcome(adj, state, orders).unitResults|
    ensures CutReported(BattleOf(adj, state, orders), MovementOutcome(adj, state, orders).unitResults[i])
  {
    ResultAt(adj, state, orders, i);
    var b, u := BattleOf(adj, state, orders), MovementOutcome(adj, state, orders).unitResults[i];
    assert u.supportCut <==> Supports(b, u.regionId) && IsCut(b, u.regionId);
    assert b.orders[u.regionId].unit == u.regionId;
    if Supports(b, u.regionId) { CutByTheBook(b, u.regionId); }
  }

  // ---------------------------------------------------------------- success

  ghost function Strength(b: Battle, r: Id, d: Id): nat {
    1 + |SupportersOfMove(b, r, d)|
  }

  ghost function Standing(b: Battle, d: Id): nat {
    1 + |SupportersOfHold(b, d)|
  }

  /** The way from `r` into `d` is open: nobody stands there; or a unit of another faction that is too
      weak; or one that moves to `r` itself and is weaker; or one that gets away elsewhere, or that fails
      to and is of another faction, while the move has support. */
  ghost predicate WayOpen(b: Battle, moved: set<Id>, r: Id, d: Id)
    requires Valid(b) && r in b.orders
  {
    d in b.orders ==>
      var rival := b.units[d].factionId != b.units[r].factionId;
      match b.orders[d]
      case Move(_, e) =>
        if e == r then Strength(b, r, d) > Strength(b, d, r) else d in moved || (rival && Strength(b, r, d) >= 2)
      case _ => rival && Strength(b, r, d) > Standing(b, d)
  }

  /** Every other move into `d` is weaker. */
  ghost predicate Outdoes(b: Battle, r: Id, d: Id) {
    forall q :: q in b.orders && q != r && b.orders[q] == Move(q, d) ==> Strength(b, r, d) > Strength(b, q, d)
  }

  ghost function MovedRegions(b: Battle): set<Id>
    requires Valid(b)
  {
    set r | r in b.orders && Moved(b, Outcomes(b), r)
  }

  lemma OutdoesExactly(b: Battle, r: Id, d: Id)
    requires Valid(b) && r in b.orders && b.orders[r] == Move(r, d)
    ensures Moves(b, r) && (BeatsRivals(b, r) <==> Outdoes(b, r, d))
  {
    AttackSupportsByTheBook(b, r, d);
    forall q | q in b.orders && q != r
      ensures Moves(b, q) && Dest(b, q) == d <==> b.orders[q] == Move(q, d)
      ensures b.orders[q] == Move(q, d) ==> Attack(b, q) == Strength(b, q, d)
    {
      assert b.orders[q].unit == q;
      if b.orders[q] == Move(q, d) { AttackSupportsByTheBook(b, q, d); }
    }
  }

  lemma WayOpenExactly(b: Battle, moved: set<Id>, r: Id, d: Id)
    requires Valid(b) && r in b.orders && b.orders[r] == Move(r, d)
    ensures Moves(b, r)
    ensures WayOpen(b, moved, r, d) <==>
            BeatsHolder(b, r) && BeatsHeadToHead(b, r) && (Dep(b, r).Some? ==> d in moved || Shoves(b, r))
  {
    AttackSupportsByTheBook(b, r, d);
    HoldSupportsByTheBook(b, d);
    if d in b.orders && b.orders[d].Move? {
      assert b.orders[d].unit == d;
      AttackSupportsByTheBook(b, d, b.orders[d].destination);
    }
  }

  lemma WavedMoveSucceeds(b: Battle, r: Id)
    requires Valid(b) && Moves(b, r) && Covers(b, EngineOrder(b)) && WavedThrough(b, EngineOrder(b), r)
    ensures Moved(b, Outcomes(b), r)
  {
    SearchDecidesExactly(b, EngineOrder(b), r);
    assert NeedsUpTo(b, EngineOrder(b), r, 0) == Some(r);
  }

  lemma SolvedMove(b: Battle, r: Id, d: Id)
    requires Valid(b) && r in b.orders && b.orders[r] == Move(r, d) && Moves(b, r) && SolvesAt(b, Outcomes(b), r)
    ensures r in MovedRegions(b) <==> WayOpen(b, MovedRegions(b), r, d) && Outdoes(b, r, d)
  {
    OutdoesExactly(b, r, d);
    WayOpenExactly(b, MovedRegions(b), r, d);
  }

  /** A move succeeds exactly when the way is open and every other move there is weaker; the one exception
      is a fragile move whose ring the engine enters just past it, which succeeds regardless. */
  lemma MovesByTheBook(b: Battle, r: Id, d: Id)
    requires Valid(b) && r in b.orders && b.orders[r] == Move(r, d)
    ensures Covers(b, EngineOrder(b)) && Moves(b, r)
    ensures r in MovedRegions(b) <==>
            WavedThrough(b, EngineOrder(b), r) || (WayOpen(b, MovedRegions(b), r, d) && Outdoes(b, r, d))
  {
    assert b.orders[r].unit == r;
    OutcomesPrevail(b);
    assert r in Movers(b);
    EquationFailsExactly(b, EngineOrder(b), r);
    if WavedThrough(b, EngineOrder(b), r) {
      WavedMoveSucceeds(b, r);
    } else {
      SolvedMove(b, r, d);
    }
  }

  /** And a unit that was not ordered to move stays. */
  lemma OthersStay(b: Battle, r: Id)
    requires Valid(b) && r in MovedRegions(b)
    ensures b.orders[r].Move?
  {
  }

  /** What a report says, given the orders and which units moved: a unit that moved is at its destination
      and any other where it was, and that one is dislodged, by whom the report says, exactly when somebody
      moved in on it. */
  ghost predicate TrueReport(b: Battle, u: UnitOrderResult)
    requires Valid(b)
  {
    var r, moved := u.regionId, MovedRegions(b);
    && r in b.orders && u.unitType == b.units[r].unitType && u.factionId == b.units[r].factionId && u.order == b.orders[r]
    && (if r in moved
        then u.moved && b.orders[r] == Move(r, u.finalRegionId) && !u.dislodged && u.dislodgedBy == None
        else !u.moved && u.finalRegionId == r &&
             (forall a :: a in moved && b.orders[a] == Move(a, r) <==> u.dislodged && u.dislodgedBy == Some(a)) &&
             (u.dislodged <==> u.dislodgedBy.Some?))
  }

  /** One region is moved into from one place only. */
  lemma OneMovesIn(b: Battle, p: Id, q: Id, r: Id)
    requires Valid(b) && MovedTo(b, Outcomes(b), p, r) && MovedTo(b, Outcomes(b), q, r)
    ensures p == q
  {
    if p != q { MovesDoNotCollide(b, p, q); }
  }

  lemma ReportedTruly(b: Battle, u: UnitOrderResult)
    requires Valid(b) && Reports(b, Outcomes(b), u)
    ensures TrueReport(b, u)
  {
    var r := u.regionId;
    assert b.orders[r].unit == r;
    forall a | a in b.orders ensures a in MovedRegions(b) && b.orders[a] == Move(a, r) <==> MovedTo(b, Outcomes(b), a, r) {
      assert b.orders[a].unit == a;
    }
    if u.dislodged {
      forall a | MovedTo(b, Outcomes(b), a, r) ensures u.dislodgedBy == Some(a) {
        OneMovesIn(b, a, u.dislodgedBy.value, r);
      }
    }
  }

  /** Every report of the engine's is true. */
  lemma ReportsByTheBook(adj: Adjacency, state: GameState, orders: map<Id, Order>, i: nat)
    requires i < |MovementOutcome(adj, state, orders).unitResults|
    ensures Valid(BattleOf(adj, state, orders))
    ensures TrueReport(BattleOf(adj, state, orders), MovementOutcome(adj, state, orders).unitResults[i])
  {
    ResultAt(adj, state, orders, i);
    ReportedTruly(BattleOf(adj, state, orders), MovementOutcome(adj, state, orders).unitResults[i]);
  }
}
