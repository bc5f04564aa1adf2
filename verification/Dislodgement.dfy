/** Exactly which units a movement phase dislodges, and exactly when one is dislodged by its own faction. */
module Dislodgement {
  import opened Ordering
  import opened Board
  import opened Movement
  import opened MoveSearch
  import opened RingEntry
  import opened RingOutcome
  import opened Adjudication
  import opened MovementTheorems

  /** The engine moves a unit exactly when the closed form grants its move. */
  lemma MovedExactly(b: Battle, r: Id)
    requires Valid(b)
    ensures Covers(b, EngineOrder(b))
    ensures Moved(b, Outcomes(b), r) <==> Moves(b, r) && Granted(b, EngineOrder(b), r)
  {
    OutcomesPrevail(b);
    if Moves(b, r) { SearchDecidesExactly(b, EngineOrder(b), r); }
  }

  /** The move from `a` is into `r` and granted. */
  ghost predicate GrantedInto(b: Battle, a: Id, r: Id)
    requires Valid(b) && Covers(b, EngineOrder(b))
  {
    Moves(b, a) && Dest(b, a) == r && Granted(b, EngineOrder(b), a)
  }

  /** A unit is reported dislodged exactly when some move into its region is granted and its own is not;
      the reported attacker is the one such move there is. */
  lemma DislodgedExactly(adj: Adjacency, state: GameState, orders: map<Id, Order>, i: nat, a: Id)
    requires i < |MovementOutcome(adj, state, orders).unitResults|
    ensures var b, u := BattleOf(adj, state, orders), MovementOutcome(adj, state, orders).unitResults[i];
            && Valid(b) && Covers(b, EngineOrder(b))
            && (u.dislodged && u.dislodgedBy == Some(a) <==>
                  GrantedInto(b, a, u.regionId) && !(Moves(b, u.regionId) && Granted(b, EngineOrder(b), u.regionId)))
  {
    ResultAt(adj, state, orders, i);
    ReportedAttacker(BattleOf(adj, state, orders), MovementOutcome(adj, state, orders).unitResults[i], a);
  }

  lemma ReportedAttacker(b: Battle, u: UnitOrderResult, a: Id)
    requires Valid(b) && Reports(b, Outcomes(b), u)
    ensures Covers(b, EngineOrder(b))
    ensures u.dislodged && u.dislodgedBy == Some(a) <==>
            GrantedInto(b, a, u.regionId) && !(Moves(b, u.regionId) && Granted(b, EngineOrder(b), u.regionId))
  {
    MovedExactly(b, a);
    MovedExactly(b, u.regionId);
    if MovedTo(b, Outcomes(b), a, u.regionId) && u.dislodged {
      MovesDoNotCollide(b, a, u.dislodgedBy.value);
    }
  }

  // ---------------------------------------------------------------- own units

  /** The move from `a` drives its own faction's unit out of `r`: it prevails, and either the two units
      face each other, or the move is fragile and the engine enters its ring at `r`. */
  ghost predicate DrivesOutItsOwn(b: Battle, a: Id, r: Id)
    requires Valid(b)
  {
    && Moves(b, a) && Moves(b, r) && Dest(b, a) == r && b.units[a].factionId == b.units[r].factionId
    && Prevails(b, a)
    && (Dest(b, r) == a || (Fragile(b, a) && EntersAtRegion(b, r)))
  }

  ghost predicate EntersAtRegion(b: Battle, r: Id) {
    Entered(b, EngineOrder(b), r)
  }

  lemma FacingMoveSucceeds(b: Battle, a: Id)
    requires Valid(b) && Moves(b, a) && Prevails(b, a) && Dep(b, a).None?
    ensures Moved(b, Outcomes(b), a)
  {
    OutcomesPrevail(b);
    assert a in Movers(b);
    EquationFailsExactly(b, EngineOrder(b), a);
  }

  lemma FragileMoveSucceeds(b: Battle, a: Id)
    requires Valid(b) && Moves(b, a) && Fragile(b, a) && EntersAtRegion(b, Dest(b, a))
    ensures Moved(b, Outcomes(b), a) && !Moved(b, Outcomes(b), Dest(b, a))
  {
    OutcomesPrevail(b);
    VisitFacts(b, EngineOrder(b));
    assert a in Movers(b);
    ClosersPrecedeEntries(b, EngineOrder(b), a);
    EquationFailsExactly(b, EngineOrder(b), a);
  }

  lemma OwnEntrySucceeds(b: Battle, a: Id, r: Id)
    requires Valid(b) && DrivesOutItsOwn(b, a, r)
    ensures MovedTo(b, Outcomes(b), a, r) && !Moved(b, Outcomes(b), r)
  {
    if Dest(b, r) == a {
      FacingMoveSucceeds(b, a);
      if Moved(b, Outcomes(b), r) { MovesDoNotCollide(b, a, r); }
    } else {
      FragileMoveSucceeds(b, a);
    }
  }

  lemma OwnEntryIsDriven(b: Battle, a: Id, r: Id)
    requires Valid(b) && MovedTo(b, Outcomes(b), a, r) && r in b.units && !Moved(b, Outcomes(b), r)
    requires b.units[a].factionId == b.units[r].factionId
    ensures DrivesOutItsOwn(b, a, r)
  {
    OutcomesPrevail(b);
    assert Prevails(b, a);
    EntryIsJustified(b, a, r);
  }

  /** Report `i` is of a unit dislodged by one of its own faction. */
  ghost predicate OwnDislodgement(adj: Adjacency, state: GameState, orders: map<Id, Order>, i: nat) {
    var b, results := BattleOf(adj, state, orders), MovementOutcome(adj, state, orders).unitResults;
    && i < |results| && results[i].dislodged && results[i].dislodgedBy.Some?
    && results[i].dislodgedBy.value in b.units
    && b.units[results[i].dislodgedBy.value].factionId == results[i].factionId
  }

  lemma OwnReport(b: Battle, u: UnitOrderResult)
    requires Valid(b) && Reports(b, Outcomes(b), u)
    ensures u.dislodged && b.units[u.dislodgedBy.value].factionId == u.factionId <==>
            exists a :: DrivesOutItsOwn(b, a, u.regionId)
  {
    var r := u.regionId;
    if u.dislodged && b.units[u.dislodgedBy.value].factionId == u.factionId {
      OwnEntryIsDriven(b, u.dislodgedBy.value, r);
    }
    if a :| DrivesOutItsOwn(b, a, r) {
      OwnEntrySucceeds(b, a, r);
      assert a in b.orders;
      MovesDoNotCollide(b, a, u.dislodgedBy.value);
    }
  }

  /** For every board and order set: a unit is dislodged by its own faction exactly when some move of its
      faction drives it out, head to head or on a ring, as can be read off the orders. */
  lemma OwnDislodgementExactly(adj: Adjacency, state: GameState, orders: map<Id, Order>, i: nat)
    requires i < |MovementOutcome(adj, state, orders).unitResults|
    ensures var b, u := BattleOf(adj, state, orders), MovementOutcome(adj, state, orders).unitResults[i];
            && Valid(b)
            && (OwnDislodgement(adj, state, orders, i) <==> exists a :: DrivesOutItsOwn(b, a, u.regionId))
  {
    ResultAt(adj, state, orders, i);
    OwnReport(BattleOf(adj, state, orders), MovementOutcome(adj, state, orders).unitResults[i]);
  }
}
