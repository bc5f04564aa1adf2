/** What every operation of the coordinator keeps. */
module Invariant {
  import opened Ordering
  import opened Board
  import opened Canonical
  import opened Verification
  import opened Phases
  import opened Store
  import opened OrderDesk
  import opened Engine
  import opened Match

  // ---------------------------------------------------------------- result rows

  ghost predicate GoodRow(setup: Setup, results: seq<PhaseRow>, i: nat)
    requires i < |results|
  {
    var row := results[i];
    && row.previous == (if i == 0 then None else Some(results[i - 1].stateHash))
    && row.stateHash == Digest(row.previous, row.canon)
    && row.signature == Signed(setup.key, row.stateHash)
    && Canonicalize(Decode(row.canon)) == row.canon
    && Playable(setup.initial, Decode(row.canon))
  }

  /** Every row is signed, chained to the one before, and holds a legal board in canonical form. */
  ghost predicate GoodRows(setup: Setup, results: seq<PhaseRow>) {
    forall i :: 0 <= i < |results| ==> GoodRow(setup, results, i)
  }

  function PositionOf(row: PhaseRow): int {
    Position(row.turn, row.phase)
  }

  ghost predicate Before(results: seq<PhaseRow>, i: nat, j: nat)
    requires i < j < |results|
  {
    PositionOf(results[i]) < PositionOf(results[j])
  }

  /** Rows are written at ever later positions. */
  ghost predicate Forward(results: seq<PhaseRow>) {
    forall i, j :: 0 <= i < j < |results| ==> Before(results, i, j)
  }

  /** What the orders that count make of a stored board. */
  type NextForm = (CanonState, int) -> CanonState

  ghost function FormAfterOrders(setup: Setup, orders: map<OrderKey, OrderRow>): NextForm {
    (canon: CanonState, turn: int) => Canonicalize(setup.engine.afterOrders(Decode(canon), EffectiveOrders(orders, turn)))
  }

  ghost predicate Follows(next: NextForm, before: PhaseRow, after: PhaseRow) {
    before.phase == Phase.Orders ==> after.canon == next(before.canon, before.turn)
  }

  ghost predicate AllFollow(next: NextForm, results: seq<PhaseRow>) {
    forall i :: 0 <= i < |results| - 1 ==> Follows(next, results[i], results[i + 1])
  }

  /** The row after each orders row holds what the orders that count make of it. */
  ghost predicate AllReproducible(setup: Setup, orders: map<OrderKey, OrderRow>, results: seq<PhaseRow>) {
    AllFollow(FormAfterOrders(setup, orders), results)
  }

  lemma ReproducibleAt(setup: Setup, orders: map<OrderKey, OrderRow>, results: seq<PhaseRow>, i: nat)
    requires AllReproducible(setup, orders, results) && i + 1 < |results| && results[i].phase == Phase.Orders
    ensures results[i + 1].canon ==
            Canonicalize(setup.engine.afterOrders(Decode(results[i].canon), EffectiveOrders(orders, results[i].turn)))
  {
    assert Follows(FormAfterOrders(setup, orders), results[i], results[i + 1]);
  }

  // ---------------------------------------------------------------- players and orders

  ghost predicate DistinctPlayers(setup: Setup, players: seq<PlayerRow>) {
    && (forall i, j :: 0 <= i < j < |players| ==>
          players[i].publicKey != players[j].publicKey && players[i].factionId != players[j].factionId)
    && (forall i :: 0 <= i < |players| ==> players[i].factionId in setup.initial.factions)
    && |players| <= MAX_PLAYERS
  }

  /** An accepted row names units of its player's faction on the board its turn started from. */
  ghost predicate GoodOrder(rows: Rows, k: OrderKey)
    requires k in rows.orders
  {
    && DecodeOrders(rows.orders[k].orders).Some?
    && (rows.orders[k].status == Accepted ==>
          && FactionOf(rows, k.player).Some? && TurnStart(rows, k.turn).Some?
          && ValidOrders(TurnStart(rows, k.turn).value, FactionOf(rows, k.player).value,
                         DecodeOrders(rows.orders[k].orders).value))
  }

  ghost predicate GoodOrders(rows: Rows) {
    forall k :: k in rows.orders ==> k.turn <= rows.state.turn && GoodOrder(rows, k)
  }

  // ---------------------------------------------------------------- the life cycle

  ghost predicate AtRest(s: MatchState) {
    && (s.phase == Phase.Orders || s.phase == Phase.Retreat || s.phase == Phase.Build)
    && s.year == s.turn && s.turn >= 1
  }

  ghost predicate InLobby(w: World) {
    && w.rows.state == FRESH && w.rows.results == [] && w.rows.orders == map[]
    && w.start == None && w.results == []
  }

  /** The newest row is the one of the current phase, and the turn's starting board is on record. */
  ghost predicate UnderWay(rows: Rows) {
    && AtRest(rows.state) && |rows.results| >= 2
    && rows.results[|rows.results| - 1].turn == rows.state.turn
    && rows.results[|rows.results| - 1].phase == rows.state.phase
    && FindRow(rows.results, rows.state.turn, Phase.Orders).Some?
    && (rows.state.phase == Phase.Retreat ==>
          rows.results[|rows.results| - 2].turn == rows.state.turn &&
          rows.results[|rows.results| - 2].phase == Phase.Orders)
  }

  /** Everything on record has been broadcast. */
  ghost predicate Broadcast(w: World) {
    && w.rows.results != [] && w.start == Some(StartOf(w.rows.results[0]))
    && |w.results| == |w.rows.results| - 1
    && forall i :: 0 <= i < |w.results| ==> w.results[i] == MessageOf(w.rows.results[i + 1], w.rows.results[i + 1].turn)
  }

  ghost predicate Inv(setup: Setup, w: World) {
    && DistinctPlayers(setup, w.rows.players)
    && if w.rows.state.status == Lobby then InLobby(w) else
         && UnderWay(w.rows) && Broadcast(w)
         && GoodRows(setup, w.rows.results) && Forward(w.rows.results)
         && AllReproducible(setup, w.rows.orders, w.rows.results)
         && GoodOrders(w.rows)
  }

  ghost predicate FairSetup(setup: Setup) {
    Playable(setup.initial, setup.initial) && Dependable(setup.engine, setup.initial)
  }

  // ---------------------------------------------------------------- rows: appending one

  lemma SameBoardPlayable(initial: GameState, s: GameState, t: GameState)
    requires Playable(initial, s) && SameBoard(s, t)
    ensures Playable(initial, t)
  {
    DistinctAfterPermutation(s.units, t.units);
    SameElements(s.units, t.units);
  }

  lemma StoredBoard(initial: GameState, board: GameState)
    requires Playable(initial, board)
    ensures Canonicalize(Decode(Canonicalize(board))) == Canonicalize(board)
    ensures Playable(initial, Decode(Canonicalize(board)))
  {
    CanonicalRoundTrip(board);
    DecodeCanonical(board);
    SameBoardPlayable(initial, board, Decode(Canonicalize(board)));
  }

  lemma GoodRowStays(setup: Setup, results: seq<PhaseRow>, row: PhaseRow, i: nat)
    requires i < |results| && GoodRow(setup, results, i)
    ensures GoodRow(setup, results + [row], i)
  {
    var longer := results + [row];
    assert longer[i] == results[i] && (i > 0 ==> longer[i - 1] == results[i - 1]);
  }

  lemma NewRowIsGood(setup: Setup, results: seq<PhaseRow>, turn: int, phase: Phase, board: GameState)
    requires Playable(setup.initial, board)
    ensures GoodRow(setup, results + [NewRow(setup, results, turn, phase, board)], |results|)
  {
    StoredBoard(setup.initial, board);
  }

  lemma AppendGoodRow(setup: Setup, results: seq<PhaseRow>, row: PhaseRow)
    requires GoodRows(setup, results) && GoodRow(setup, results + [row], |results|)
    ensures GoodRows(setup, results + [row])
  {
    forall i | 0 <= i < |results| ensures GoodRow(setup, results + [row], i) {
      GoodRowStays(setup, results, row, i);
    }
  }

  lemma AppendForward(results: seq<PhaseRow>, row: PhaseRow)
    requires Forward(results)
    requires results != [] ==> PositionOf(results[|results| - 1]) < PositionOf(row)
    ensures Forward(results + [row]) && FindRow(results, row.turn, row.phase).None?
  {
    var longer, n := results + [row], |results|;
    forall i | 0 <= i < n ensures PositionOf(results[i]) < PositionOf(row) {
      if i < n - 1 { assert Before(results, i, n - 1); }
    }
    forall i, j | 0 <= i < j < |longer| ensures Before(longer, i, j) {
      if j < n { assert Before(results, i, j); }
    }
  }

  lemma {:induction false} FindRowAppend(results: seq<PhaseRow>, row: PhaseRow, turn: int, phase: Phase)
    ensures FindRow(results + [row], turn, phase) ==
            if FindRow(results, turn, phase).Some? then FindRow(results, turn, phase)
            else if row.turn == turn && row.phase == phase then Some(row) else None
  {
    if results == [] {
      assert results + [row] == [row] && [row][1..] == [];
    } else {
      FindRowAppend(results[1..], row, turn, phase);
      assert (results + [row])[1..] == results[1..] + [row];
    }
  }

  lemma FindRowAt(results: seq<PhaseRow>, i: nat)
    requires Forward(results) && i < |results|
    ensures FindRow(results, results[i].turn, results[i].phase) == Some(results[i])
  {
    var found := FindRow(results, results[i].turn, results[i].phase);
    var j :| 0 <= j < |results| && results[j] == found.value;
    assert i < j ==> Before(results, i, j);
    assert j < i ==> Before(results, j, i);
    PositionsDiffer(results[i].turn, results[i].phase, results[j].turn, results[j].phase);
  }

  // ---------------------------------------------------------------- orders of other turns

  ghost predicate SameAt(a: map<OrderKey, OrderRow>, b: map<OrderKey, OrderRow>, turn: int) {
    forall k: OrderKey :: k.turn == turn ==> (k in a <==> k in b) && (k in a ==> a[k] == b[k])
  }

  lemma SameEffective(a: map<OrderKey, OrderRow>, b: map<OrderKey, OrderRow>, turn: int)
    requires SameAt(a, b, turn)
    ensures EffectiveOrders(a, turn) == EffectiveOrders(b, turn)
    ensures forall p :: Register(a, p, turn) == Register(b, p, turn)
  {
    forall p ensures Register(a, p, turn) == Register(b, p, turn) {
      assert forall r :: OrderKey(p, turn, r) in a <==> OrderKey(p, turn, r) in b;
      SameLatest(a, b, p, turn);
    }
    forall p ensures p in Submitters(a, turn) <==> p in Submitters(b, turn) {
      if p in Submitters(a, turn) {
        var k :| k in a && k.turn == turn && k.player == p;
        assert k in b;
      }
      if p in Submitters(b, turn) {
        var k :| k in b && k.turn == turn && k.player == p;
        assert k in a;
      }
    }
    assert Submitters(a, turn) == Submitters(b, turn);
    SameEffectiveFrom(a, b, turn, Ascending(Submitters(a, turn)));
  }

  lemma {:induction false} SameEffectiveFrom(a: map<OrderKey, OrderRow>, b: map<OrderKey, OrderRow>, turn: int, players: seq<Id>)
    requires forall p :: Register(a, p, turn) == Register(b, p, turn)
    ensures EffectiveFrom(a, turn, players) == EffectiveFrom(b, turn, players)
    decreases |players|
  {
    if players != [] {
      SameEffectiveFrom(a, b, turn, players[..|players| - 1]);
    }
  }

  /** Submissions and cancellations touch only orders of the current turn, and only in the orders phase. */
  lemma DeskTouchesCurrentTurn(rows: Rows, player: Id, revision: int, orders: seq<Order>, valid: bool, turn: int)
    requires turn != rows.state.turn || rows.state.phase != Phase.Orders
    ensures SameAt(rows.orders, AfterSubmit(rows, player, revision, orders, valid).orders, turn)
    ensures SameAt(rows.orders, AfterCancel(rows, player, revision).orders, turn)
  {
  }

  lemma StillReproducible(setup: Setup, a: map<OrderKey, OrderRow>, b: map<OrderKey, OrderRow>, results: seq<PhaseRow>)
    requires AllReproducible(setup, a, results)
    requires forall i :: 0 <= i < |results| - 1 && results[i].phase == Phase.Orders ==> SameAt(a, b, results[i].turn)
    ensures AllReproducible(setup, b, results)
  {
    var before, after := FormAfterOrders(setup, a), FormAfterOrders(setup, b);
    forall i | 0 <= i < |results| - 1 ensures Follows(after, results[i], results[i + 1]) {
      assert Follows(before, results[i], results[i + 1]);
      if results[i].phase == Phase.Orders {
        SameEffective(a, b, results[i].turn);
      }
    }
  }

  /** An orders row with a successor is of a turn, or a phase, already left. */
  lemma EarlierOrdersAreClosed(rows: Rows, i: nat)
    requires UnderWay(rows) && Forward(rows.results) && i < |rows.results| - 1 && rows.results[i].phase == Phase.Orders
    ensures rows.results[i].turn != rows.state.turn || rows.state.phase != Phase.Orders
    ensures rows.results[i].turn <= rows.state.turn
  {
    assert Before(rows.results, i, |rows.results| - 1);
  }
}
