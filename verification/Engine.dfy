/** The adjudication engine as the coordinator uses it: one function for each phase it leaves. */
module Engine {
  import opened Ordering
  import opened Board
  import opened Adjudication
  import opened MovementTheorems
  import opened Retreats
  import opened Adjustment
  import opened AdjustmentTheorems
  import opened Rounds
  import opened Verification

  datatype Engine = Engine(
    afterOrders: (GameState, map<Id, Order>) -> GameState,
    dislodges: (GameState, map<Id, Order>) -> bool,
    afterRetreat: (GameState, map<Id, Order>) -> GameState,
    afterBuild: GameState -> GameState,
    unbalanced: GameState -> bool)

  predicate AnyDislodged(results: seq<UnitOrderResult>) {
    exists i :: 0 <= i < |results| && results[i].dislodged
  }

  predicate Dislodges(adj: Adjacency, pre: GameState, orders: map<Id, Order>) {
    AnyDislodged(MovementOutcome(adj, pre, orders).unitResults)
  }

  /** Leaving the retreat phase: movement is derived again and no retreat order is ever given. */
  function AfterRetreat(adj: Adjacency, pre: GameState, orders: map<Id, Order>): GameState {
    var result := MovementOutcome(adj, pre, orders);
    var post := ApplyMovement(pre, result);
    UpdateOwnership(ApplyRetreats(post, RetreatOutcome(adj, post, result, map[])))
  }

  function AfterBuild(homes: HomeCenters, board: GameState): GameState {
    ApplyAdjustment(board, AdjustmentOutcome(board, homes, [], []))
  }

  predicate Unbalanced(board: GameState) {
    exists f :: f in board.factions && Delta(board, f) != 0
  }

  function AdjudicationEngine(adj: Adjacency, homes: HomeCenters): Engine {
    Engine(
      (pre, orders) => AfterOrders(adj, pre, orders),
      (pre, orders) => Dislodges(adj, pre, orders),
      (pre, orders) => AfterRetreat(adj, pre, orders),
      board => AfterBuild(homes, board),
      board => Unbalanced(board))
  }

  /** A legal board on the match's own map. */
  ghost predicate Playable(initial: GameState, board: GameState) {
    LegalBoard(board) && OwnersKnown(board) && board.regions == initial.regions && board.factions == initial.factions
  }

  lemma OrdersKeepPlayable(adj: Adjacency, initial: GameState, board: GameState, orders: map<Id, Order>)
    requires Playable(initial, board)
    ensures Playable(initial, AfterOrders(adj, board, orders))
  {
    MovementKeepsBoard(adj, board, orders);
    OwnershipKeepsOwnersKnown(ApplyMovement(board, MovementOutcome(adj, board, orders)));
  }

  /** Retreats without orders leave the board as it was when the phase was entered. */
  lemma RetreatChangesNothing(adj: Adjacency, board: GameState, orders: map<Id, Order>)
    ensures AfterRetreat(adj, board, orders) == AfterOrders(adj, board, orders)
  {
    NoRetreatOrders(adj, board, MovementOutcome(adj, board, orders));
  }

  lemma BuildKeepsPlayable(homes: HomeCenters, initial: GameState, board: GameState)
    requires Playable(initial, board)
    ensures Playable(initial, AfterBuild(homes, board))
  {
    AdjustmentKeepsBoard(board, homes, [], []);
  }

  /** What the coordinator's runs need of the engine. */
  ghost predicate Dependable(engine: Engine, initial: GameState) {
    && (forall board, orders :: Playable(initial, board) ==> Playable(initial, engine.afterOrders(board, orders)))
    && (forall board, orders :: engine.afterRetreat(board, orders) == engine.afterOrders(board, orders))
    && (forall board :: Playable(initial, board) ==> Playable(initial, engine.afterBuild(board)))
  }

  lemma EngineIsDependable(adj: Adjacency, homes: HomeCenters, initial: GameState)
    ensures Dependable(AdjudicationEngine(adj, homes), initial)
  {
    var engine := AdjudicationEngine(adj, homes);
    forall board, orders | Playable(initial, board) ensures Playable(initial, engine.afterOrders(board, orders)) {
      OrdersKeepPlayable(adj, initial, board, orders);
    }
    forall board, orders ensures engine.afterRetreat(board, orders) == engine.afterOrders(board, orders) {
      RetreatChangesNothing(adj, board, orders);
    }
    forall board | Playable(initial, board) ensures Playable(initial, engine.afterBuild(board)) {
      BuildKeepsPlayable(homes, initial, board);
    }
  }

  method PlayOrders(adj: Adjacency, pre: GameState, orders: map<Id, Order>) returns (board: GameState, dislodged: bool)
    ensures board == AfterOrders(adj, pre, orders) && dislodged == Dislodges(adj, pre, orders)
  {
    var result := ResolveMovement(adj, pre, orders);
    board := ApplyMovement(pre, result);
    board := UpdateSupplyCenterOwnership(board);
    dislodged := AnyDislodged(result.unitResults);
  }

  method PlayRetreats(adj: Adjacency, pre: GameState, orders: map<Id, Order>) returns (board: GameState)
    ensures board == AfterRetreat(adj, pre, orders)
  {
    var result := ResolveMovement(adj, pre, orders);
    var post := ApplyMovement(pre, result);
    var retreats := ResolveRetreats(adj, post, result, map[]);
    board := UpdateSupplyCenterOwnership(ApplyRetreats(post, retreats));
  }

  method PlayBuilds(homes: HomeCenters, pre: GameState) returns (board: GameState)
    ensures board == AfterBuild(homes, pre)
  {
    var result := ResolveAdjustments(pre, homes, [], []);
    board := ApplyAdjustment(pre, result);
  }
}
