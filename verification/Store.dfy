/** The persisted rows of one match, with the queries and updates the coordinator makes on them. */
module Store {
  import opened Ordering
  import opened Board
  import opened Canonical
  import opened Verification
  import opened Phases

  datatype OrderStatus = Accepted | Rejected | Superseded

  datatype OrderRow = OrderRow(orders: seq<RawOrder>, status: OrderStatus)

  datatype OrderKey = OrderKey(player: Id, turn: int, revision: int)

  datatype PlayerRow = PlayerRow(publicKey: Id, factionId: Id)

  datatype PhaseRow = PhaseRow(
    turn: int, phase: Phase, canon: CanonState, stateHash: Hash, previous: Option<Hash>, signature: Signature)

  /** The contents of the database, as a value. */
  datatype Rows = Rows(
    state: MatchState,
    deadline: Option<real>,
    paused: Option<real>,
    players: seq<PlayerRow>,
    orders: map<OrderKey, OrderRow>,
    results: seq<PhaseRow>)

  const EMPTY := Rows(FRESH, None, None, [], map[], [])

  // ---------------------------------------------------------------- queries

  function FactionOf(rows: Rows, player: Id): Option<Id> {
    FindFaction(rows.players, player)
  }

  function FindFaction(players: seq<PlayerRow>, player: Id): Option<Id> {
    if players == [] then None
    else if players[0].publicKey == player then Some(players[0].factionId)
    else FindFaction(players[1..], player)
  }

  function Revisions(orders: map<OrderKey, OrderRow>, player: Id, turn: int): set<int> {
    set k | k in orders && k.player == player && k.turn == turn :: k.revision
  }

  /** The key of the player's newest revision for the turn. */
  function Latest(orders: map<OrderKey, OrderRow>, player: Id, turn: int): (k: Option<OrderKey>)
    ensures k.Some? ==> k.value in orders && k.value.player == player && k.value.turn == turn
    ensures k.Some? ==> forall r :: OrderKey(player, turn, r) in orders ==> r <= k.value.revision
    ensures k.None? ==> forall r :: OrderKey(player, turn, r) !in orders
  {
    var revisions := Revisions(orders, player, turn);
    assert forall r :: OrderKey(player, turn, r) in orders ==> r in revisions;
    if exists k :: k in orders && k.player == player && k.turn == turn then
      ghost var some :| some in orders && some.player == player && some.turn == turn;
      Some(OrderKey(player, turn, Greatest(revisions, some.revision)))
    else
      assert forall r :: OrderKey(player, turn, r).player == player;
      None
  }

  function Submitters(orders: map<OrderKey, OrderRow>, turn: int): set<Id> {
    set k | k in orders && k.turn == turn :: k.player
  }

  function FindRow(results: seq<PhaseRow>, turn: int, phase: Phase): (row: Option<PhaseRow>)
    ensures row.Some? ==> row.value in results && row.value.turn == turn && row.value.phase == phase
    ensures row.None? ==> forall i :: 0 <= i < |results| ==> results[i].turn != turn || results[i].phase != phase
  {
    if results == [] then None
    else if results[0].turn == turn && results[0].phase == phase then Some(results[0])
    else FindRow(results[1..], turn, phase)
  }

  function LatestRow(results: seq<PhaseRow>): Option<PhaseRow> {
    if results == [] then None else Some(results[|results| - 1])
  }

  function SetStatus(orders: map<OrderKey, OrderRow>, key: OrderKey, status: OrderStatus): map<OrderKey, OrderRow>
    requires key in orders
  {
    orders[key := orders[key].(status := status)]
  }

  // ---------------------------------------------------------------- the store itself

  /** The database: inserts report whether the row's key was still free. */
  class MatchStore {
    var state: MatchState
    var deadline: Option<real>
    var paused: Option<real>
    var players: seq<PlayerRow>
    var orders: map<OrderKey, OrderRow>
    var results: seq<PhaseRow>

    function View(): Rows
      reads this
    {
      Rows(state, deadline, paused, players, orders, results)
    }

    constructor ()
      ensures View() == EMPTY
    {
      state, deadline, paused := FRESH, None, None;
      players, orders, results := [], map[], [];
    }

    method SaveMatchState(s: MatchState)
      modifies this`state
      ensures View() == old(View()).(state := s)
    {
      state := s;
    }

    method SetDeadline(d: Option<real>)
      modifies this`deadline
      ensures View() == old(View()).(deadline := d)
    {
      deadline := d;
    }

    method SetPausedRemaining(remaining: Option<real>)
      modifies this`paused
      ensures View() == old(View()).(paused := remaining)
    {
      paused := remaining;
    }

    method AddPlayer(player: Id, faction: Id) returns (ok: bool)
      modifies this`players
      ensures ok <==> FactionOf(old(View()), player).None?
      ensures View() == if ok then old(View()).(players := old(players) + [PlayerRow(player, faction)]) else old(View())
    {
      ok := FactionOf(View(), player).None?;
      if ok {
        players := players + [PlayerRow(player, faction)];
      }
    }

    method RecordOrderSubmission(key: OrderKey, row: OrderRow) returns (ok: bool)
      modifies this`orders
      ensures ok <==> key !in old(orders)
      ensures View() == if ok then old(View()).(orders := old(orders)[key := row]) else old(View())
    {
      ok := key !in orders;
      if ok {
        orders := orders[key := row];
      }
    }

    method UpdateOrderStatus(key: OrderKey, status: OrderStatus) returns (ok: bool)
      modifies this`orders
      ensures ok <==> key in old(orders)
      ensures View() == if ok then old(View()).(orders := SetStatus(old(orders), key, status)) else old(View())
    {
      ok := key in orders;
      if ok {
        orders := SetStatus(orders, key, status);
      }
    }

    method RecordPhaseResult(row: PhaseRow) returns (ok: bool)
      modifies this`results
      ensures ok <==> FindRow(old(results), row.turn, row.phase).None?
      ensures View() == if ok then old(View()).(results := old(results) + [row]) else old(View())
    {
      ok := FindRow(results, row.turn, row.phase).None?;
      if ok {
        results := results + [row];
      }
    }
  }
}
