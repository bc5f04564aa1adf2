/** The coordinator itself: each operation reads and writes the store step by step, and amounts to the
    step of the same name. */
module Coordinator {
  import opened Ordering
  import opened Board
  import opened Canonical
  import opened Verification
  import opened Adjustment
  import opened Phases
  import opened Store
  import opened OrderDesk
  import opened Engine
  import opened Match

  /** What has gone out to the players, who keep it across a restart of the coordinator. */
  class Outbox {
    var start: Option<MatchStart>
    var results: seq<PhaseResult>
    var notices: seq<Notice>

    constructor ()
      ensures start == None && results == [] && notices == []
    {
      start, results, notices := None, [], [];
    }

    method SendStart(m: MatchStart)
      modifies this`start
      ensures start == Some(m)
    {
      start := Some(m);
    }

    method SendResult(m: PhaseResult)
      modifies this`results
      ensures results == old(results) + [m]
    {
      results := results + [m];
    }

    method SendNotice(n: Notice)
      modifies this`notices
      ensures notices == old(notices) + [n]
    {
      notices := notices + [n];
    }
  }

  /** The answer to a join request: `Ignored` when the limiter drops it. */
  datatype JoinReply = Ignored | JoinRejected | JoinAccepted(factionId: Id)

  lemma {:induction false} FindFactionAppend(players: seq<PlayerRow>, row: PlayerRow, player: Id)
    ensures FindFaction(players + [row], player) ==
            if FindFaction(players, player).Some? then FindFaction(players, player)
            else if row.publicKey == player then Some(row.factionId) else None
  {
    if players == [] {
      assert players + [row] == [row] && [row][1..] == [];
    } else {
      FindFactionAppend(players[1..], row, player);
      assert (players + [row])[1..] == players[1..] + [row];
    }
  }

  lemma DeskKeepsReadable(rows: Rows, player: Id, revision: int, orders: seq<Order>, valid: bool)
    requires Readable(rows.orders)
    ensures Readable(AfterSubmit(rows, player, revision, orders, valid).orders)
    ensures Readable(AfterCancel(rows, player, revision).orders)
  {
    OrdersRoundTrip(orders);
  }

  class MatchCoordinator {
    const store: MatchStore
    const outbox: Outbox
    const setup: Setup
    const adj: Adjacency
    const homes: HomeCenters
    var attempts: map<Id, seq<real>>
    var warned: bool

    ghost function View(): World
      reads this, store, outbox
    {
      World(store.View(), outbox.start, outbox.results, outbox.notices, attempts, warned)
    }

    ghost predicate Ready()
      reads this, store
    {
      setup.engine == AdjudicationEngine(adj, homes) && Readable(store.orders)
    }

    /** A coordinator taking up a match from its store, new or after a restart. */
    constructor (store: MatchStore, outbox: Outbox, setup: Setup, adj: Adjacency, homes: HomeCenters,
                 ghost before: World)
      requires setup.engine == AdjudicationEngine(adj, homes) && Readable(store.orders)
      requires before == World(store.View(), outbox.start, outbox.results, outbox.notices, before.attempts, before.warned)
      ensures Ready() && this.store == store && this.outbox == outbox && this.setup == setup
      ensures View() == Restart(before)
    {
      this.store, this.outbox, this.setup, this.adj, this.homes := store, outbox, setup, adj, homes;
      attempts, warned := map[], false;
    }

    // -------------------------------------------------------------- joining

    /** Idempotent for a player who already has a faction; the answer is what the store now says. */
    method HandleJoinRequest(player: Id, draw: nat) returns (reply: JoinReply)
      modifies store
      ensures store.View() == AfterJoin(setup, old(store.View()), player, draw)
      ensures reply == (
        if old(store.state.status) == Lobby && FactionOf(store.View(), player).Some?
        then JoinAccepted(FactionOf(store.View(), player).value) else JoinRejected)
    {
      if store.state.status != Lobby {
        return JoinRejected;
      }
      var existing := FactionOf(store.View(), player);
      if existing.Some? {
        return JoinAccepted(existing.value);
      }
      var available := Available(setup, store.View());
      if |store.players| >= MAX_PLAYERS || available == [] {
        return JoinRejected;
      }
      var faction := available[draw % |available|];
      FindFactionAppend(store.players, PlayerRow(player, faction), player);
      var ok := store.AddPlayer(player, faction);
      reply := JoinAccepted(faction);
    }

    method OnJoinRequest(player: Id, draw: nat, now: real) returns (reply: JoinReply)
      requires Ready()
      modifies this, store
      ensures Ready() && View() == Join(setup, old(View()), player, draw, now)
      ensures reply == Ignored <==> !Admitted(old(attempts), player, now)
    {
      var recent := Recent(AttemptsOf(attempts, player), now);
      if |recent| >= JOIN_LIMIT {
        attempts := attempts[player := recent];
        return Ignored;
      }
      attempts := attempts[player := recent + [now]];
      reply := HandleJoinRequest(player, draw);
    }

    // -------------------------------------------------------------- orders

    method OnOrderSubmit(player: Id, revision: int, orders: seq<Order>) returns (receipt: Option<Receipt>)
      requires Ready()
      modifies store
      ensures Ready() && View() == Submit(old(View()), player, revision, orders)
      ensures receipt.Some? <==> CurrentBoard(old(store.View())).Some?
    {
      var board := CurrentBoard(store.View());
      if board.None? {
        return None;
      }
      ghost var rows := store.View();
      var r, valid := HandleOrderSubmit(store, board.value, player, revision, orders);
      DeskKeepsReadable(rows, player, revision, orders, valid);
      receipt := Some(r);
    }

    method OnOrderCancel(player: Id, revision: int) returns (receipt: Receipt)
      requires Ready()
      modifies store
      ensures Ready() && View() == Cancel(old(View()), player, revision)
    {
      DeskKeepsReadable(store.View(), player, revision, [], false);
      receipt := HandleOrderCancel(store, player, revision);
    }

    // -------------------------------------------------------------- results

    /** Chains, signs and stores one board; fails only when the place is taken. */
    method PersistPhaseResult(turn: int, phase: Phase, board: GameState) returns (row: PhaseRow, ok: bool)
      modifies store`results
      ensures row == NewRow(setup, old(store.results), turn, phase, board)
      ensures ok <==> FindRow(old(store.results), turn, phase).None?
      ensures store.View() == if ok then old(store.View()).(results := old(store.results) + [row]) else old(store.View())
    {
      var latest := LatestRow(store.results);
      var previous := if latest.Some? then Some(latest.value.stateHash) else None;
      var hash := HashState(board, previous);
      row := PhaseRow(turn, phase, Canonicalize(board), hash, previous, Signed(setup.key, hash));
      ok := store.RecordPhaseResult(row);
    }

    /** Saves the entered phase with its board and deadline, and announces both. */
    method EnterPhase(s: MatchState, board: GameState, now: real) returns (outcome: Outcome)
      modifies this, store, outbox
      ensures store.orders == old(store.orders)
      ensures (View(), outcome) == Match.EnterPhase(setup, old(View()), s, board, now)
      ensures outcome == Done ==>
                store.deadline == Some(now + if s.phase == Phase.Retreat then setup.retreatSeconds
                                             else if s.phase == Phase.Build then setup.adjustmentSeconds
                                             else setup.movementSeconds)
    {
      store.SaveMatchState(s);
      var row, ok := PersistPhaseResult(s.turn, s.phase, board);
      if !ok {
        return Clash;
      }
      var deadline := now + Duration(setup, s.phase);
      store.SetDeadline(Some(deadline));
      warned := false;
      outbox.SendResult(MessageOf(row, s.year));
      outbox.SendNotice(PhaseStart(s.phase, s.turn, s.year, deadline));
      return Done;
    }

    // -------------------------------------------------------------- the life cycle

    /** The signed genesis link, stored and sent. */
    method Seed(s: MatchState, now: real) returns (outcome: Outcome)
      modifies store, outbox
      ensures store.orders == old(store.orders)
      ensures (View(), outcome) == SeedMatch(setup, old(View()), s, now)
    {
      store.SaveMatchState(s);
      var hash := HashState(setup.initial, None);
      var row := PhaseRow(s.turn, s.phase, Canonicalize(setup.initial), hash, None, Signed(setup.key, hash));
      var ok := store.RecordPhaseResult(row);
      if !ok {
        return Clash;
      }
      store.SetDeadline(Some(now + setup.movementSeconds));
      outbox.SendStart(MatchStart(Packed(row.canon), row.stateHash, row.signature));
      return Done;
    }

    method StartMatch(now: real) returns (outcome: Outcome)
      requires Ready()
      modifies this, store, outbox
      ensures Ready() && (View(), outcome) == Match.StartMatch(setup, old(View()), now)
    {
      if |store.players| != MAX_PLAYERS {
        return Refused;
      }
      var s := Start(store.state);
      if s.None? {
        return Refused;
      }
      outcome := Seed(s.value, now);
      if outcome == Clash {
        return;
      }
      outcome := EnterPhase(Advance(s.value, false, false).value, setup.initial, now);
    }

    /** From orders through resolution to the next phase that waits for players. */
    static method LandAfterMovement(s: MatchState, dislodged: bool, adjust: bool) returns (landing: MatchState)
      requires s.status == Active && s.phase == Phase.Orders
      ensures landing == SkipDiplomacy(Advance(s.(phase := Phase.Resolution), dislodged, adjust).value)
    {
      landing := Advance(s, false, false).value;
      landing := Advance(landing, dislodged, adjust).value;
      if landing.phase == Phase.Diplomacy {
        landing := Advance(landing, false, false).value;
      }
    }

    /** Movement and ownership, with what they mean for the phases to come. */
    method AdjudicateOrders(pre: GameState, orders: map<Id, Order>) returns (board: GameState, dislodged: bool, adjust: bool)
      requires Ready()
      ensures board == setup.engine.afterOrders(pre, orders)
      ensures dislodged == setup.engine.dislodges(pre, orders)
      ensures adjust == (!dislodged && setup.engine.unbalanced(board))
    {
      board, dislodged := PlayOrders(adj, pre, orders);
      adjust := false;
      if !dislodged {
        adjust := Unbalanced(board);
      }
    }

    /** Leaving the orders phase: movement and ownership, from the turn's own starting row. */
    method ResolveOrders() returns (next: Option<(MatchState, GameState)>)
      requires Ready() && store.state.phase == Phase.Orders
      ensures next == LeaveOrders(setup, store.View())
    {
      var pre := TurnStart(store.View(), store.state.turn);
      if pre.None? || store.state.status != Active {
        return None;
      }
      var orders := GetEffectiveOrders(store, store.state.turn);
      var board, dislodged, adjust := AdjudicateOrders(pre.value, orders);
      var landing := LandAfterMovement(store.state, dislodged, adjust);
      next := Some((landing, board));
    }

    /** Leaving the retreat phase: movement again, from the same rows, then retreats without orders. */
    method ResolveRetreats() returns (next: Option<(MatchState, GameState)>)
      requires Ready() && store.state.phase == Phase.Retreat
      ensures next == LeaveRetreat(setup, store.View())
    {
      var pre := TurnStart(store.View(), store.state.turn);
      if pre.None? || store.state.status != Active {
        return None;
      }
      var orders := GetEffectiveOrders(store, store.state.turn);
      var board := PlayRetreats(adj, pre.value, orders);
      var landing := Advance(store.state, false, Unbalanced(board));
      next := Some((SkipDiplomacy(landing.value), board));
    }

    method ResolveBuilds() returns (next: Option<(MatchState, GameState)>)
      requires Ready() && store.state.phase == Phase.Build
      ensures next == LeaveBuild(setup, store.View())
    {
      var pre := CurrentBoard(store.View());
      var landing := Advance(store.state, false, false);
      if pre.None? || landing.None? {
        return None;
      }
      var board := PlayBuilds(homes, pre.value);
      next := Some((SkipDiplomacy(landing.value), board));
    }

    /** Where the match goes from here, worked out from the stored rows alone. */
    method ResolvePhase() returns (next: Option<(MatchState, GameState)>)
      requires Ready()
      ensures next == Resolve(setup, store.View())
    {
      match store.state.phase
      case Orders => next := ResolveOrders();
      case Retreat => next := ResolveRetreats();
      case Build => next := ResolveBuilds();
      case _ => next := None;
    }

    method AdvancePhase(now: real) returns (outcome: Outcome)
      requires Ready()
      modifies this, store, outbox
      ensures Ready() && (View(), outcome) == Match.AdvancePhase(setup, old(View()), now)
    {
      var next := ResolvePhase();
      if next.None? {
        return Refused;
      }
      outcome := EnterPhase(next.value.0, next.value.1, now);
    }

    method EndMatch() returns (outcome: Outcome)
      requires Ready()
      modifies store, outbox
      ensures Ready() && (View(), outcome) == Match.EndMatch(old(View()))
    {
      var s := End(store.state);
      if s.None? {
        return Refused;
      }
      store.SaveMatchState(s.value);
      var latest := LatestRow(store.results);
      outbox.SendNotice(MatchEnd(if latest.Some? then Some(latest.value.stateHash) else None));
      return Done;
    }

    // -------------------------------------------------------------- the clock

    method Pause(now: real)
      requires Ready()
      modifies store
      ensures Ready() && View() == PauseMatch(old(View()), now)
    {
      var expiresAt := store.deadline;
      if expiresAt.None? {
        return;
      }
      var left := expiresAt.value - now;
      store.SetPausedRemaining(Some(if left > 0.0 then left else 0.0));
      store.SetDeadline(None);
    }

    method Resume(now: real)
      requires Ready()
      modifies this, store
      ensures Ready() && View() == ResumeMatch(old(View()), now)
    {
      var remaining := store.paused;
      if remaining.None? {
        return;
      }
      store.SetDeadline(Some(now + remaining.value));
      store.SetPausedRemaining(None);
      warned := false;
    }

    /** One look at the clock, as made by each poll of an active match. */
    method CheckDeadline(now: real)
      requires Ready()
      modifies this, store, outbox
      ensures Ready() && View() == Match.CheckDeadline(setup, old(View()), now)
    {
      if store.state.status != Active || store.deadline.None? {
        return;
      }
      var left := Remaining(store.deadline.value, now);
      if left <= 0.0 {
        var outcome := AdvancePhase(now);
      } else if left <= WARNING_LEAD && !warned {
        warned := true;
        outbox.SendNotice(DeadlineWarning(store.state.phase, left));
      }
    }
  }
}
