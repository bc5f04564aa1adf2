/** Whole turns: what any number of rounds with any orders keeps. */
module Rounds {
  import opened Ordering
  import opened Board
  import opened Adjudication
  import opened MovementTheorems
  import opened Retreats
  import opened Adjustment
  import opened AdjustmentTheorems

  datatype RoundOrders = RoundOrders(
    moves: map<Id, Order>, retreats: map<Id, RetreatOrder>, builds: seq<BuildOrder>, disbands: seq<DisbandOrder>)

  /** Movement, retreat, ownership update and adjustment, one after the other. */
  function PlayRound(adj: Adjacency, homes: HomeCenters, state: GameState, orders: RoundOrders): GameState {
    var result := MovementOutcome(adj, state, orders.moves);
    var post := ApplyMovement(state, result);
    var settled := UpdateOwnership(ApplyRetreats(post, RetreatOutcome(adj, post, result, orders.retreats)));
    ApplyAdjustment(settled, AdjustmentOutcome(settled, homes, orders.builds, orders.disbands))
  }

  function PlayRounds(adj: Adjacency, homes: HomeCenters, state: GameState, rounds: seq<RoundOrders>): GameState {
    if rounds == [] then state else
      PlayRound(adj, homes, PlayRounds(adj, homes, state, rounds[..|rounds| - 1]), rounds[|rounds| - 1])
  }

  ghost predicate OwnersKnown(state: GameState) {
    forall r :: r in state.supplyCenters ==> state.supplyCenters[r] in state.factions
  }

  lemma OwnershipKeepsOwnersKnown(state: GameState)
    requires LegalBoard(state) && OwnersKnown(state)
    ensures OwnersKnown(UpdateOwnership(state))
  {
    var after := UpdateOwnership(state);
    forall r | r in after.supplyCenters ensures after.supplyCenters[r] in state.factions {
      OwnershipFollowsOccupation(state, r);
    }
  }

  /** A round keeps the board legal and the map fixed, and leaves no faction more units than centres. */
  lemma RoundKeepsBoard(adj: Adjacency, homes: HomeCenters, state: GameState, orders: RoundOrders)
    requires LegalBoard(state) && OwnersKnown(state)
    ensures var after := PlayRound(adj, homes, state, orders);
            && LegalBoard(after) && OwnersKnown(after)
            && after.regions == state.regions && after.factions == state.factions
            && forall f :: f in state.factions ==> UnitCount(after, f) <= CenterCount(after, f)
  {
    var result := MovementOutcome(adj, state, orders.moves);
    var post := ApplyMovement(state, result);
    var retreated := ApplyRetreats(post, RetreatOutcome(adj, post, result, orders.retreats));
    RetreatKeepsBoard(adj, state, orders.moves, orders.retreats);
    OwnershipKeepsOwnersKnown(retreated);
    var settled := UpdateOwnership(retreated);
    assert LegalBoard(settled);
    AdjustmentKeepsBoard(settled, homes, orders.builds, orders.disbands);
    forall f | f in state.factions
      ensures UnitCount(PlayRound(adj, homes, state, orders), f) <= CenterCount(PlayRound(adj, homes, state, orders), f)
    {
      UnitsMatchCenters(settled, homes, orders.builds, orders.disbands, f);
    }
  }

  /** So does any number of rounds, whatever the players order. */
  lemma {:induction false} RoundsKeepBoard(adj: Adjacency, homes: HomeCenters, state: GameState, rounds: seq<RoundOrders>)
    requires LegalBoard(state) && OwnersKnown(state)
    ensures var after := PlayRounds(adj, homes, state, rounds);
            && LegalBoard(after) && OwnersKnown(after)
            && after.regions == state.regions && after.factions == state.factions
            && (rounds != [] ==> forall f :: f in state.factions ==> UnitCount(after, f) <= CenterCount(after, f))
    decreases |rounds|
  {
    if rounds != [] {
      RoundsKeepBoard(adj, homes, state, rounds[..|rounds| - 1]);
      RoundKeepsBoard(adj, homes, PlayRounds(adj, homes, state, rounds[..|rounds| - 1]), rounds[|rounds| - 1]);
    }
  }
}
