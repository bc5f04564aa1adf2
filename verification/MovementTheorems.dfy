/** What every movement resolution guarantees, for every board and every set of orders. */
module MovementTheorems {
  import opened Ordering
  import opened Board
  import opened Movement
  import opened MoveSearch
  import opened RingEntry
  import opened Adjudication

  function Survivors(results: seq<UnitOrderResult>): seq<Unit> {
    if results == [] then [] else
      (if results[0].dislodged then []
       else [Unit(results[0].unitType, results[0].factionId, results[0].finalRegionId)]) + Survivors(results[1..])
  }

  /** The board after movement: dislodged units are off it until they retreat. */
  function ApplyMovement(state: GameState, result: MovementResult): GameState {
    state.(units := SortByRegion(Survivors(result.unitResults)))
  }

  lemma {:induction false} WinnersExact(b: Battle, resolved: map<Id, bool>, keys: seq<Id>, d: Id)
    ensures d in Winners(b, resolved, keys) ==>
              Winners(b, resolved, keys)[d] in keys && MovedTo(b, resolved, Winners(b, resolved, keys)[d], d)
    ensures (exists a :: a in keys && MovedTo(b, resolved, a, d)) ==> d in Winners(b, resolved, keys)
    decreases |keys|
  {
    if keys != [] {
      var front := keys[..|keys| - 1];
      WinnersExact(b, resolved, front, d);
      assert keys == front + [keys[|keys| - 1]];
    }
  }

  /** Every move has an outcome, and only moves that prevail succeed. */
  lemma OutcomesPrevail(b: Battle)
    requires Valid(b)
    ensures Covers(b, InTurn(b, Ascending(b.orders.Keys)))
    ensures Outcomes(b).Keys == Movers(b)
    ensures forall r :: r in Outcomes(b) && Outcomes(b)[r] ==> Prevails(b, r)
  {
    var order := InTurn(b, Ascending(b.orders.Keys));
    VisitFacts(b, order);
    var v := Outcomes(b);
    forall r | r in v && v[r] ensures Prevails(b, r) {
      assert r !in Closers(b, order) ==> SolvesAt(b, v, r);
    }
  }

  /** Rings or not: no two moves succeed into one region, and no two units swap places. */
  lemma MovesDoNotCollide(b: Battle, q: Id, r: Id)
    requires Valid(b) && Moved(b, Outcomes(b), q) && Moved(b, Outcomes(b), r)
    ensures Dest(b, q) == Dest(b, r) ==> q == r
    ensures !(Dest(b, q) == r && Dest(b, r) == q)
  {
    OutcomesPrevail(b);
    PrevailersKeepApart(b, q, r);
  }

  /** `u` reports what the outcome table `v` says about the unit at its region. */
  ghost predicate Reports(b: Battle, v: map<Id, bool>, u: UnitOrderResult)
    requires Valid(b)
  {
    var r := u.regionId;
    && r in b.units && u.unitType == b.units[r].unitType && u.factionId == b.units[r].factionId
    && u.order == b.orders[r]
    && u.moved == Moved(b, v, r)
    && u.finalRegionId == (if u.moved then Dest(b, r) else r)
    && u.dislodged == (!u.moved && exists a :: a in b.orders && MovedTo(b, v, a, r))
    && (if u.dislodged then u.dislodgedBy.Some? && MovedTo(b, v, u.dislodgedBy.value, r) else u.dislodgedBy.None?)
    && (u.supportCut <==> Supports(b, r) && exists a :: a in b.orders && Cuts(b, a, r))
  }

  ghost predicate MovedTo(b: Battle, v: map<Id, bool>, a: Id, r: Id) {
    Moved(b, v, a) && Dest(b, a) == r
  }

  lemma ResultReports(b: Battle, v: map<Id, bool>, keys: seq<Id>, flag: bool, r: Id)
    requires Valid(b) && r in b.orders && forall q :: q in keys <==> q in b.orders
    ensures Reports(b, v, ResultFor(b, flag, v, Winners(b, v, keys), r))
  {
    WinnersExact(b, v, keys, r);
    assert r in Winners(b, v, keys) <==> exists a :: a in b.orders && MovedTo(b, v, a, r);
  }

  /** A unit's order counts as normalised exactly when it is not the one submitted for it; then it is a Hold. */
  lemma NormalizedExactly(adj: Adjacency, state: GameState, orders: map<Id, Order>, r: Id)
    requires r in BattleOf(adj, state, orders).units
    ensures var b := BattleOf(adj, state, orders);
            && r in b.orders && r in Flags(adj, state, orders)
            && (Flags(adj, state, orders)[r] <==> Lookup(orders, r) != Some(b.orders[r]))
            && (Flags(adj, state, orders)[r] ==> b.orders[r] == Hold(r))
  {
    BattleIsValid(adj, state, orders);
  }

  /** One report for each unit, in ascending order of region. */
  lemma ResultAt(adj: Adjacency, state: GameState, orders: map<Id, Order>, i: nat)
    requires i < |MovementOutcome(adj, state, orders).unitResults|
    ensures Valid(BattleOf(adj, state, orders))
    ensures i < |Ascending(BattleOf(adj, state, orders).orders.Keys)|
    ensures var u := MovementOutcome(adj, state, orders).unitResults[i];
            && u.regionId == Ascending(BattleOf(adj, state, orders).orders.Keys)[i]
            && Reports(BattleOf(adj, state, orders), Outcomes(BattleOf(adj, state, orders)), u)
            && (u.normalized <==> Lookup(orders, u.regionId) != Some(u.order))
  {
    BattleIsValid(adj, state, orders);
    var b, flags := BattleOf(adj, state, orders), Flags(adj, state, orders);
    var keys := Ascending(b.orders.Keys);
    ResultReports(b, Outcomes(b), keys, flags[keys[i]], keys[i]);
    NormalizedExactly(adj, state, orders, keys[i]);
  }

  /** After movement no two units share a region, whatever the orders and rings. */
  lemma SurvivorsApart(adj: Adjacency, state: GameState, orders: map<Id, Order>, i: nat, j: nat)
    requires i < j < |MovementOutcome(adj, state, orders).unitResults|
    ensures var rs := MovementOutcome(adj, state, orders).unitResults;
            !rs[i].dislodged && !rs[j].dislodged ==> rs[i].finalRegionId != rs[j].finalRegionId
  {
    ResultAt(adj, state, orders, i);
    ResultAt(adj, state, orders, j);
    var b := BattleOf(adj, state, orders);
    var p, q := MovementOutcome(adj, state, orders).unitResults[i], MovementOutcome(adj, state, orders).unitResults[j];
    assert p.regionId != q.regionId;
    if p.moved && q.moved {
      MovesDoNotCollide(b, p.regionId, q.regionId);
    }
  }

  lemma {:induction false} SurvivorsFrom(results: seq<UnitOrderResult>, u: Unit)
    requires u in Survivors(results)
    ensures exists i :: 0 <= i < |results| && !results[i].dislodged &&
                        u == Unit(results[i].unitType, results[i].factionId, results[i].finalRegionId)
  {
    if u in Survivors(results[1..]) {
      SurvivorsFrom(results[1..], u);
      var i :| 0 <= i < |results[1..]| && !results[1..][i].dislodged &&
               u == Unit(results[1..][i].unitType, results[1..][i].factionId, results[1..][i].finalRegionId);
      assert results[i + 1] == results[1..][i];
    } else {
      assert !results[0].dislodged;
    }
  }

  ghost predicate FinalsApart(results: seq<UnitOrderResult>) {
    forall i, j :: 0 <= i < j < |results| && !results[i].dislodged && !results[j].dislodged ==>
      results[i].finalRegionId != results[j].finalRegionId
  }

  lemma {:induction false} SurvivorsDistinct(results: seq<UnitOrderResult>)
    requires FinalsApart(results)
    ensures DistinctRegions(Survivors(results))
  {
    if results != [] {
      var rest := Survivors(results[1..]);
      SurvivorsDistinct(results[1..]);
      if !results[0].dislodged {
        forall j | 0 <= j < |rest| ensures rest[j].regionId != results[0].finalRegionId {
          SurvivorsFrom(results[1..], rest[j]);
        }
      }
    }
  }

  /** Movement takes a legal board to a legal board. */
  lemma MovementKeepsBoard(adj: Adjacency, state: GameState, orders: map<Id, Order>)
    requires LegalBoard(state)
    ensures LegalBoard(ApplyMovement(state, MovementOutcome(adj, state, orders)))
  {
    var results := MovementOutcome(adj, state, orders).unitResults;
    forall i, j | 0 <= i < j < |results| && !results[i].dislodged && !results[j].dislodged
      ensures results[i].finalRegionId != results[j].finalRegionId
    {
      SurvivorsApart(adj, state, orders, i, j);
    }
    SurvivorsDistinct(results);
    SortByRegionKeeps(Survivors(results));
    forall u | u in Survivors(results) ensures LegalUnit(state, u) {
      SurvivorsFrom(results, u);
      var i :| 0 <= i < |results| && !results[i].dislodged &&
               u == Unit(results[i].unitType, results[i].factionId, results[i].finalRegionId);
      SurvivorIsLegal(adj, state, orders, i);
    }
  }

  lemma SurvivorIsLegal(adj: Adjacency, state: GameState, orders: map<Id, Order>, i: nat)
    requires LegalBoard(state) && i < |MovementOutcome(adj, state, orders).unitResults|
    ensures var r := MovementOutcome(adj, state, orders).unitResults[i];
            LegalUnit(state, Unit(r.unitType, r.factionId, r.finalRegionId))
  {
    ResultAt(adj, state, orders, i);
    BattleIsValid(adj, state, orders);
    ByRegionHas(SortByRegion(state.units));
    SortByRegionKeeps(state.units);
    var r := MovementOutcome(adj, state, orders).unitResults[i];
    var b := BattleOf(adj, state, orders);
    assert b.units[r.regionId] in state.units;
  }

  function Origin(r: UnitOrderResult): Unit {
    Unit(r.unitType, r.factionId, r.regionId)
  }

  function Origins(results: seq<UnitOrderResult>, dislodged: bool): seq<Unit> {
    if results == [] then [] else
      (if results[0].dislodged == dislodged then [Origin(results[0])] else []) + Origins(results[1..], dislodged)
  }

  function AllOrigins(results: seq<UnitOrderResult>): seq<Unit> {
    seq(|results|, i requires 0 <= i < |results| => Origin(results[i]))
  }

  lemma AllOriginsCons(results: seq<UnitOrderResult>)
    requires results != []
    ensures AllOrigins(results) == [Origin(results[0])] + AllOrigins(results[1..])
  {
  }

  lemma {:induction false} OriginsSplit(results: seq<UnitOrderResult>)
    ensures multiset(AllOrigins(results)) == multiset(Origins(results, false)) + multiset(Origins(results, true))
  {
    if results != [] {
      OriginsSplit(results[1..]);
      AllOriginsCons(results);
    }
  }

  ghost predicate SameUnits(s: seq<Unit>, t: seq<Unit>) {
    |s| == |t| && forall k :: 0 <= k < |s| ==> s[k].unitType == t[k].unitType && s[k].factionId == t[k].factionId
  }

  lemma {:induction false} SurvivorsAreOrigins(results: seq<UnitOrderResult>)
    ensures SameUnits(Survivors(results), Origins(results, false))
  {
    if results != [] {
      SurvivorsAreOrigins(results[1..]);
    }
  }

  /** `byRegion` finds each of the units at its region, and nothing else. */
  ghost predicate Indexes(byRegion: map<Id, Unit>, units: seq<Unit>) {
    && (forall r :: r in byRegion ==> byRegion[r] in units && byRegion[r].regionId == r)
    && (forall u :: u in units ==> u.regionId in byRegion && byRegion[u.regionId] == u)
  }

  ghost predicate ListsInOrder(all: seq<Unit>, byRegion: map<Id, Unit>, keys: seq<Id>) {
    && |all| == |keys| && NoDuplicates(keys) && (forall r :: r in keys <==> r in byRegion)
    && forall i :: 0 <= i < |keys| ==> all[i] == byRegion[keys[i]]
  }

  lemma UnitsInOrder(units: seq<Unit>, byRegion: map<Id, Unit>, keys: seq<Id>, all: seq<Unit>)
    requires DistinctRegions(units) && Indexes(byRegion, units) && ListsInOrder(all, byRegion, keys)
    ensures multiset(all) == multiset(units)
  {
    forall u | u in units ensures u in all {
      var i :| 0 <= i < |keys| && keys[i] == u.regionId;
      assert all[i] == u;
    }
    SameMembersSameMultiset(all, units);
  }

  lemma UnitsOnBoard(state: GameState)
    ensures forall r :: r in ByRegion(SortByRegion(state.units)) ==>
              ByRegion(SortByRegion(state.units))[r] in state.units && ByRegion(SortByRegion(state.units))[r].regionId == r
    ensures DistinctRegions(state.units) ==> Indexes(ByRegion(SortByRegion(state.units)), state.units)
  {
    SortByRegionKeeps(state.units);
    ByRegionHas(SortByRegion(state.units));
  }

  lemma OriginsInOrder(adj: Adjacency, state: GameState, orders: map<Id, Order>)
    ensures var b := BattleOf(adj, state, orders);
            ListsInOrder(AllOrigins(MovementOutcome(adj, state, orders).unitResults), b.units, Ascending(b.orders.Keys))
  {
    var results, b := MovementOutcome(adj, state, orders).unitResults, BattleOf(adj, state, orders);
    BattleIsValid(adj, state, orders);
    forall i | 0 <= i < |results|
      ensures Ascending(b.orders.Keys)[i] in b.units && AllOrigins(results)[i] == b.units[Ascending(b.orders.Keys)[i]]
    {
      ResultAt(adj, state, orders, i);
    }
  }

  lemma AllOriginsAreUnits(adj: Adjacency, state: GameState, orders: map<Id, Order>)
    requires DistinctRegions(state.units)
    ensures multiset(AllOrigins(MovementOutcome(adj, state, orders).unitResults)) == multiset(state.units)
  {
    var b := BattleOf(adj, state, orders);
    UnitsOnBoard(state);
    OriginsInOrder(adj, state, orders);
    UnitsInOrder(state.units, b.units, Ascending(b.orders.Keys), AllOrigins(MovementOutcome(adj, state, orders).unitResults));
  }

  /** No unit appears or vanishes: the units before are exactly the survivors, each of unchanged type
      and faction, and the dislodged. */
  lemma UnitsAreConserved(adj: Adjacency, state: GameState, orders: map<Id, Order>)
    requires DistinctRegions(state.units)
    ensures var rs := MovementOutcome(adj, state, orders).unitResults;
            && multiset(state.units) == multiset(Origins(rs, false)) + multiset(Origins(rs, true))
            && multiset(ApplyMovement(state, MovementOutcome(adj, state, orders)).units) == multiset(Survivors(rs))
            && SameUnits(Survivors(rs), Origins(rs, false))
  {
    var rs := MovementOutcome(adj, state, orders).unitResults;
    AllOriginsAreUnits(adj, state, orders);
    OriginsSplit(rs);
    SurvivorsAreOrigins(rs);
    SortByRegionKeeps(Survivors(rs));
  }

  /** The order in which the engine visits the moves. */
  function EngineOrder(b: Battle): seq<Id> {
    InTurn(b, Ascending(b.orders.Keys))
  }

  /** Why the unit at `r` gives way to the one that moved in from `a`. The last case, a failed mover run
      over from a third region, is justified exactly when the entrant's move is not a fragile one whose
      ring the engine enters at `r`. */
  ghost predicate Justified(b: Battle, a: Id, r: Id)
    requires Valid(b) && Moves(b, a) && Dest(b, a) == r && r in b.units
  {
    var rival := b.units[a].factionId != b.units[r].factionId;
    if !Moves(b, r) then rival && Attack(b, a) > HoldStrength(b, r)
    else if Dest(b, r) == a then Attack(b, a) > Attack(b, r)
    else rival && Attack(b, a) >= 2 <==> !(Fragile(b, a) && Entered(b, EngineOrder(b), r))
  }

  lemma EntryIsJustified(b: Battle, a: Id, r: Id)
    requires Valid(b) && MovedTo(b, Outcomes(b), a, r) && r in b.units && !Moved(b, Outcomes(b), r)
    ensures Justified(b, a, r)
  {
    OutcomesPrevail(b);
    assert Prevails(b, a);
    if Moves(b, r) && Dest(b, r) != a {
      assert Dep(b, a) == Some(r) && r in Movers(b) && a in Movers(b);
      EquationFailsExactly(b, EngineOrder(b), a);
    }
  }

  lemma DislodgementIsJustified(adj: Adjacency, state: GameState, orders: map<Id, Order>, i: nat)
    requires i < |MovementOutcome(adj, state, orders).unitResults|
    requires MovementOutcome(adj, state, orders).unitResults[i].dislodged
    ensures var b := BattleOf(adj, state, orders);
            var u := MovementOutcome(adj, state, orders).unitResults[i];
            && Valid(b) && u.dislodgedBy.Some? && Moves(b, u.dislodgedBy.value)
            && Dest(b, u.dislodgedBy.value) == u.regionId && u.regionId in b.units
            && Justified(b, u.dislodgedBy.value, u.regionId)
  {
    ResultAt(adj, state, orders, i);
    var b := BattleOf(adj, state, orders);
    var u := MovementOutcome(adj, state, orders).unitResults[i];
    EntryIsJustified(b, u.dislodgedBy.value, u.regionId);
  }

  /** With no ring of moves every dislodged unit that failed to leave for a third region was beaten
      by another faction with support. */
  lemma DislodgementWithoutRings(adj: Adjacency, state: GameState, orders: map<Id, Order>, i: nat)
    requires i < |MovementOutcome(adj, state, orders).unitResults|
    requires MovementOutcome(adj, state, orders).unitResults[i].dislodged
    requires NoRings(BattleOf(adj, state, orders))
    ensures var b := BattleOf(adj, state, orders);
            var u := MovementOutcome(adj, state, orders).unitResults[i];
            && u.dislodgedBy.Some? && Moves(b, u.dislodgedBy.value) && u.regionId in b.units
            && var a := u.dislodgedBy.value;
               Moves(b, u.regionId) && Dest(b, u.regionId) != a ==>
                 b.units[a].factionId != b.units[u.regionId].factionId && Attack(b, a) >= 2
  {
    DislodgementIsJustified(adj, state, orders, i);
    var a := MovementOutcome(adj, state, orders).unitResults[i].dislodgedBy.value;
    assert a in Movers(BattleOf(adj, state, orders));
  }

  /** Applying a movement result changes the units and nothing else; they are listed by region. */
  lemma MovementTouchesOnlyUnits(state: GameState, result: MovementResult)
    ensures ApplyMovement(state, result) == state.(units := ApplyMovement(state, result).units)
    ensures InRegionOrder(ApplyMovement(state, result).units)
  {
    SortedByRegion(Survivors(result.unitResults));
  }

  lemma {:induction false} SurvivorsHave(results: seq<UnitOrderResult>, i: nat)
    requires i < |results| && !results[i].dislodged
    ensures Unit(results[i].unitType, results[i].factionId, results[i].finalRegionId) in Survivors(results)
  {
    if i > 0 { SurvivorsHave(results[1..], i - 1); }
  }

  /** The unit of the report, where the report leaves it. */
  ghost predicate StandsAs(r: UnitOrderResult, u: Unit) {
    !r.dislodged && u.unitType == r.unitType && u.factionId == r.factionId && u.regionId == r.finalRegionId
  }

  /** After movement stand exactly the units that were not dislodged, each where its report says. */
  lemma UnitsAfterMovement(state: GameState, result: MovementResult, u: Unit)
    ensures u in ApplyMovement(state, result).units <==>
            exists i :: 0 <= i < |result.unitResults| && StandsAs(result.unitResults[i], u)
  {
    SortByRegionKeeps(Survivors(result.unitResults));
    if u in Survivors(result.unitResults) {
      SurvivorsFrom(result.unitResults, u);
      var i :| 0 <= i < |result.unitResults| && !result.unitResults[i].dislodged &&
               u == Unit(result.unitResults[i].unitType, result.unitResults[i].factionId, result.unitResults[i].finalRegionId);
      assert StandsAs(result.unitResults[i], u);
    }
    if i :| 0 <= i < |result.unitResults| && StandsAs(result.unitResults[i], u) {
      SurvivorsHave(result.unitResults, i);
    }
  }
}
