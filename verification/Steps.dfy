/** Every operation keeps the invariant, so every run does. */
module Steps {
  import opened Ordering
  import opened Board
  import opened Canonical
  import opened Phases
  import opened Store
  import opened OrderDesk
  import opened Engine
  import opened Match
  import opened Invariant

  // ---------------------------------------------------------------- joining

  lemma FactionFound(players: seq<PlayerRow>, player: Id)
    ensures FindFaction(players, player).Some? ==>
              exists i :: 0 <= i < |players| && players[i] == PlayerRow(player, FindFaction(players, player).value)
    ensures FindFaction(players, player).None? ==> forall i :: 0 <= i < |players| ==> players[i].publicKey != player
  {
    if players != [] && players[0].publicKey != player {
      FactionFound(players[1..], player);
      var f := FindFaction(players, player);
      if f.Some? {
        var i :| 0 <= i < |players[1..]| && players[1..][i] == PlayerRow(player, f.value);
        assert players[i + 1] == PlayerRow(player, f.value);
      }
    } else if players != [] {
      assert players[0] == PlayerRow(player, players[0].factionId);
    }
  }

  lemma NewPlayerIsDistinct(setup: Setup, players: seq<PlayerRow>, row: PlayerRow)
    requires DistinctPlayers(setup, players) && |players| < MAX_PLAYERS && row.factionId in setup.initial.factions
    requires forall i :: 0 <= i < |players| ==> players[i].publicKey != row.publicKey && players[i].factionId != row.factionId
    ensures DistinctPlayers(setup, players + [row])
  {
  }

  lemma FreeFactionIsNew(setup: Setup, rows: Rows, f: Id)
    requires f in Available(setup, rows)
    ensures f in setup.initial.factions && forall i :: 0 <= i < |rows.players| ==> rows.players[i].factionId != f
  {
    forall i | 0 <= i < |rows.players| ensures rows.players[i].factionId != f {
      assert rows.players[i].factionId in Taken(rows.players);
    }
  }

  /** Nobody joins twice and no faction is given out twice. */
  lemma JoinKeepsPlayersDistinct(setup: Setup, rows: Rows, player: Id, draw: nat)
    requires DistinctPlayers(setup, rows.players)
    ensures DistinctPlayers(setup, AfterJoin(setup, rows, player, draw).players)
    ensures rows.state.status != Lobby ==> AfterJoin(setup, rows, player, draw) == rows
    ensures AfterJoin(setup, rows, player, draw) == rows.(players := AfterJoin(setup, rows, player, draw).players)
  {
    var after := AfterJoin(setup, rows, player, draw);
    if after != rows {
      var available := Available(setup, rows);
      var f := available[draw % |available|];
      FactionFound(rows.players, player);
      FreeFactionIsNew(setup, rows, f);
      NewPlayerIsDistinct(setup, rows.players, PlayerRow(player, f));
    }
  }

  lemma JoinKeeps(setup: Setup, w: World, player: Id, draw: nat, now: real)
    requires Inv(setup, w)
    ensures Inv(setup, Join(setup, w, player, draw, now))
  {
    JoinKeepsPlayersDistinct(setup, w.rows, player, draw);
    if w.rows.state.status != Lobby {
      assert Join(setup, w, player, draw, now).rows == w.rows;
      assert Broadcast(Join(setup, w, player, draw, now));
    }
  }

  // ---------------------------------------------------------------- operations off the chain

  /** Changing the clock, the memory or the notices, or completing the match, keeps everything. */
  lemma AsideKeeps(setup: Setup, w: World, v: World)
    requires Inv(setup, w)
    requires v.start == w.start && v.results == w.results
    requires v.rows == w.rows.(deadline := v.rows.deadline, paused := v.rows.paused, state := v.rows.state)
    requires v.rows.state == w.rows.state || (w.rows.state.status == Active && v.rows.state == w.rows.state.(status := Completed))
    ensures Inv(setup, v)
  {
    if w.rows.state.status != Lobby {
      assert Broadcast(v);
      forall k | k in v.rows.orders ensures GoodOrder(v.rows, k) {
        assert GoodOrder(w.rows, k);
      }
    }
  }

  // ---------------------------------------------------------------- orders

  lemma NoRows(results: seq<PhaseRow>, turn: int, phase: Phase)
    requires results == []
    ensures FindRow(results, turn, phase).None?
  {
  }

  lemma SubmittedOrderIsGood(rows: Rows, player: Id, orders: seq<Order>, after: Rows, k: OrderKey)
    requires UnderWay(rows) && Forward(rows.results) && rows.state.phase == Phase.Orders
    requires after == rows.(orders := after.orders) && k in after.orders && k.player == player && k.turn == rows.state.turn
    requires after.orders[k] == OrderRow(EncodeOrders(orders), if SubmissionValid(rows, player, orders) then Accepted else Rejected)
    ensures GoodOrder(after, k)
  {
    OrdersRoundTrip(orders);
  }

  lemma StillGood(rows: Rows, after: Rows, k: OrderKey)
    requires k in rows.orders && GoodOrder(rows, k) && after == rows.(orders := after.orders) && k in after.orders
    requires after.orders[k] == rows.orders[k] || after.orders[k] == rows.orders[k].(status := Superseded)
    ensures GoodOrder(after, k)
  {
  }

  lemma SubmitKeepsOrders(rows: Rows, player: Id, revision: int, orders: seq<Order>)
    requires GoodOrders(rows) && UnderWay(rows) && Forward(rows.results)
    ensures GoodOrders(AfterSubmit(rows, player, revision, orders, SubmissionValid(rows, player, orders)))
  {
    var after := AfterSubmit(rows, player, revision, orders, SubmissionValid(rows, player, orders));
    forall k | k in after.orders ensures k.turn <= after.state.turn && GoodOrder(after, k) {
      if k in rows.orders {
        StillGood(rows, after, k);
      } else {
        SubmittedOrderIsGood(rows, player, orders, after, k);
      }
    }
  }

  lemma CancelKeepsOrders(rows: Rows, player: Id, revision: int)
    requires GoodOrders(rows)
    ensures GoodOrders(AfterCancel(rows, player, revision))
  {
    var after := AfterCancel(rows, player, revision);
    forall k | k in after.orders ensures k.turn <= after.state.turn && GoodOrder(after, k) {
      if k in rows.orders { assert GoodOrder(rows, k); }
    }
  }

  lemma DeskKeepsResults(setup: Setup, rows: Rows, after: Rows)
    requires UnderWay(rows) && Forward(rows.results) && AllReproducible(setup, rows.orders, rows.results)
    requires forall t :: t != rows.state.turn || rows.state.phase != Phase.Orders ==> SameAt(rows.orders, after.orders, t)
    requires after == rows.(orders := after.orders)
    ensures AllReproducible(setup, after.orders, after.results)
  {
    forall i | 0 <= i < |rows.results| - 1 && rows.results[i].phase == Phase.Orders
      ensures SameAt(rows.orders, after.orders, rows.results[i].turn)
    {
      EarlierOrdersAreClosed(rows, i);
    }
    StillReproducible(setup, rows.orders, after.orders, rows.results);
  }

  lemma SubmitKeeps(setup: Setup, w: World, player: Id, revision: int, orders: seq<Order>)
    requires Inv(setup, w)
    ensures Inv(setup, Submit(w, player, revision, orders))
  {
    if w.rows.state.status != Lobby {
      var valid := SubmissionValid(w.rows, player, orders);
      var after := AfterSubmit(w.rows, player, revision, orders, valid);
      SubmitKeepsOrders(w.rows, player, revision, orders);
      forall t | t != w.rows.state.turn || w.rows.state.phase != Phase.Orders ensures SameAt(w.rows.orders, after.orders, t) {
        DeskTouchesCurrentTurn(w.rows, player, revision, orders, valid, t);
      }
      DeskKeepsResults(setup, w.rows, after);
      assert Broadcast(Submit(w, player, revision, orders));
    } else {
      NoRows(w.rows.results, w.rows.state.turn, w.rows.state.phase);
    }
  }

  lemma CancelKeeps(setup: Setup, w: World, player: Id, revision: int)
    requires Inv(setup, w)
    ensures Inv(setup, Cancel(w, player, revision))
  {
    if w.rows.state.status != Lobby {
      var after := AfterCancel(w.rows, player, revision);
      CancelKeepsOrders(w.rows, player, revision);
      forall t | t != w.rows.state.turn || w.rows.state.phase != Phase.Orders ensures SameAt(w.rows.orders, after.orders, t) {
        DeskTouchesCurrentTurn(w.rows, player, revision, [], false, t);
      }
      DeskKeepsResults(setup, w.rows, after);
      assert Broadcast(Cancel(w, player, revision));
    }
  }

  // ---------------------------------------------------------------- entering a phase

  /** `s` is a later place where an active match may rest. */
  ghost predicate NextRest(from: MatchState, s: MatchState) {
    && s.status == Active && AtRest(s)
    && Position(from.turn, from.phase) < Position(s.turn, s.phase)
    && (s.turn == from.turn || s.phase == Phase.Orders)
    && (s.phase == Phase.Retreat ==> from.phase == Phase.Orders)
  }

  /** What entering a phase needs: the row follows from the newest one when that is an orders row. */
  ghost predicate RightBoard(setup: Setup, rows: Rows, board: GameState) {
    && Playable(setup.initial, board)
    && (rows.state.phase == Phase.Orders ==>
          TurnStart(rows, rows.state.turn).Some? &&
          board == setup.engine.afterOrders(TurnStart(rows, rows.state.turn).value, EffectiveOrders(rows.orders, rows.state.turn)))
  }

  /** The newest row of an orders phase is its turn's starting board. */
  lemma NewestIsTurnStart(rows: Rows)
    requires UnderWay(rows) && Forward(rows.results) && rows.state.phase == Phase.Orders
    ensures TurnStart(rows, rows.state.turn) == Some(Decode(rows.results[|rows.results| - 1].canon))
  {
    FindRowAt(rows.results, |rows.results| - 1);
  }

  lemma AppendFollows(next: NextForm, results: seq<PhaseRow>, row: PhaseRow, longer: seq<PhaseRow>)
    requires AllFollow(next, results) && results != [] && longer == results + [row]
    requires Follows(next, results[|results| - 1], row)
    ensures AllFollow(next, longer)
  {
    forall i | 0 <= i < |results| ensures Follows(next, longer[i], longer[i + 1]) {
      if i < |results| - 1 { assert Follows(next, results[i], results[i + 1]); }
    }
  }

  /** The new row follows from the newest one. */
  lemma EntryIsReproducible(setup: Setup, rows: Rows, board: GameState, row: PhaseRow)
    requires UnderWay(rows) && Forward(rows.results) && RightBoard(setup, rows, board)
    requires row.canon == Canonicalize(board)
    ensures Follows(FormAfterOrders(setup, rows.orders), rows.results[|rows.results| - 1], row)
  {
    if rows.state.phase == Phase.Orders { NewestIsTurnStart(rows); }
  }

  lemma EntryKeepsReproducible(setup: Setup, rows: Rows, board: GameState, row: PhaseRow, longer: seq<PhaseRow>)
    requires UnderWay(rows) && Forward(rows.results) && AllReproducible(setup, rows.orders, rows.results)
    requires RightBoard(setup, rows, board) && row.canon == Canonicalize(board) && longer == rows.results + [row]
    ensures AllReproducible(setup, rows.orders, longer)
  {
    EntryIsReproducible(setup, rows, board, row);
    AppendFollows(FormAfterOrders(setup, rows.orders), rows.results, row, longer);
  }

  lemma EntryMovesForward(rows: Rows, s: MatchState, row: PhaseRow)
    requires UnderWay(rows) && Forward(rows.results) && NextRest(rows.state, s)
    requires row.turn == s.turn && row.phase == s.phase
    ensures Forward(rows.results + [row]) && FindRow(rows.results, s.turn, s.phase).None?
  {
    AppendForward(rows.results, row);
  }

  lemma EntryIsUnderWay(setup: Setup, rows: Rows, s: MatchState, row: PhaseRow, after: Rows)
    requires UnderWay(rows) && NextRest(rows.state, s) && row.turn == s.turn && row.phase == s.phase
    requires after == rows.(state := s, results := rows.results + [row], deadline := after.deadline)
    ensures UnderWay(after)
  {
    FindRowAppend(rows.results, row, s.turn, Phase.Orders);
  }

  lemma EntryKeepsOrders(rows: Rows, s: MatchState, row: PhaseRow, after: Rows)
    requires GoodOrders(rows) && s.turn >= rows.state.turn
    requires after == rows.(state := s, results := rows.results + [row], deadline := after.deadline)
    ensures GoodOrders(after)
  {
    forall k | k in after.orders ensures k.turn <= s.turn && GoodOrder(after, k) {
      assert GoodOrder(rows, k);
      FindRowAppend(rows.results, row, k.turn, Phase.Orders);
    }
  }

  lemma EntryIsBroadcast(w: World, row: PhaseRow, s: MatchState, after: World)
    requires Broadcast(w) && row.turn == s.turn == s.year
    requires after.rows.results == w.rows.results + [row] && after.start == w.start
    requires after.results == w.results + [MessageOf(row, s.year)]
    ensures Broadcast(after)
  {
    forall i | 0 <= i < |after.results|
      ensures after.results[i] == MessageOf(after.rows.results[i + 1], after.rows.results[i + 1].turn)
    {
      if i < |w.results| { assert w.results[i] == MessageOf(w.rows.results[i + 1], w.rows.results[i + 1].turn); }
    }
  }

  /** What entering a free place writes: the row, the state, the deadline, and its announcement. */
  ghost predicate Entered(setup: Setup, w: World, s: MatchState, row: PhaseRow, after: World) {
    && after.rows == w.rows.(state := s, results := w.rows.results + [row], deadline := after.rows.deadline)
    && after.start == w.start && after.results == w.results + [MessageOf(row, s.year)]
  }

  lemma EntryWrites(setup: Setup, w: World, s: MatchState, board: GameState, now: real)
    requires FindRow(w.rows.results, s.turn, s.phase).None?
    ensures EnterPhase(setup, w, s, board, now).1 == Done
    ensures Entered(setup, w, s, NewRow(setup, w.rows.results, s.turn, s.phase, board), EnterPhase(setup, w, s, board, now).0)
  {
  }

  lemma EntryKeepsRows(setup: Setup, rows: Rows, s: MatchState, row: PhaseRow, longer: seq<PhaseRow>)
    requires UnderWay(rows) && GoodRows(setup, rows.results) && Forward(rows.results) && NextRest(rows.state, s)
    requires row.turn == s.turn && row.phase == s.phase && longer == rows.results + [row]
    requires GoodRow(setup, longer, |rows.results|)
    ensures GoodRows(setup, longer) && Forward(longer)
  {
    AppendGoodRow(setup, rows.results, row);
    EntryMovesForward(rows, s, row);
  }

  lemma EntryKeepsInv(setup: Setup, w: World, s: MatchState, row: PhaseRow, after: World)
    requires Inv(setup, w) && w.rows.state.status == Active && NextRest(w.rows.state, s)
    requires row.turn == s.turn && row.phase == s.phase && Entered(setup, w, s, row, after)
    requires GoodRow(setup, after.rows.results, |w.rows.results|)
    requires AllReproducible(setup, w.rows.orders, after.rows.results)
    ensures Inv(setup, after)
  {
    EntryKeepsRows(setup, w.rows, s, row, after.rows.results);
    EntryIsUnderWay(setup, w.rows, s, row, after.rows);
    EntryKeepsOrders(w.rows, s, row, after.rows);
    EntryIsBroadcast(w, row, s, after);
  }

  lemma EntryKeeps(setup: Setup, w: World, s: MatchState, board: GameState, now: real)
    requires Inv(setup, w) && w.rows.state.status == Active
    requires NextRest(w.rows.state, s) && RightBoard(setup, w.rows, board)
    ensures EnterPhase(setup, w, s, board, now).1 == Done && Inv(setup, EnterPhase(setup, w, s, board, now).0)
    ensures EnterPhase(setup, w, s, board, now).0.rows.results ==
            w.rows.results + [NewRow(setup, w.rows.results, s.turn, s.phase, board)]
    ensures EnterPhase(setup, w, s, board, now).0.rows.state == s
  {
    var row := NewRow(setup, w.rows.results, s.turn, s.phase, board);
    EntryMovesForward(w.rows, s, row);
    EntryWrites(setup, w, s, board, now);
    NewRowIsGood(setup, w.rows.results, s.turn, s.phase, board);
    var after := EnterPhase(setup, w, s, board, now).0;
    EntryKeepsReproducible(setup, w.rows, board, row, after.rows.results);
    EntryKeepsInv(setup, w, s, row, after);
  }

  /** From each resting phase the machine comes to rest again, further on. */
  lemma ComesToRest(s: MatchState, dislodged: bool, adjust: bool)
    requires s.status == Active && AtRest(s)
    ensures s.phase == Phase.Orders ==> NextRest(s, SkipDiplomacy(Advance(s.(phase := Phase.Resolution), dislodged, adjust).value))
    ensures s.phase != Phase.Orders ==> NextRest(s, SkipDiplomacy(Advance(s, false, adjust).value))
  {
  }

  lemma BoardsOnRecord(setup: Setup, rows: Rows)
    requires UnderWay(rows) && GoodRows(setup, rows.results) && Forward(rows.results)
    ensures TurnStart(rows, rows.state.turn).Some? && Playable(setup.initial, TurnStart(rows, rows.state.turn).value)
    ensures CurrentBoard(rows) == Some(Decode(rows.results[|rows.results| - 1].canon))
    ensures Playable(setup.initial, CurrentBoard(rows).value)
  {
    var n := |rows.results| - 1;
    FindRowAt(rows.results, n);
    assert GoodRow(setup, rows.results, n);
    var start := FindRow(rows.results, rows.state.turn, Phase.Orders);
    var i :| 0 <= i < |rows.results| && rows.results[i] == start.value;
    assert GoodRow(setup, rows.results, i);
  }

  ghost predicate RightNext(setup: Setup, rows: Rows, next: Option<(MatchState, GameState)>) {
    next.Some? && NextRest(rows.state, next.value.0) && RightBoard(setup, rows, next.value.1)
  }

  lemma OrdersLeadOn(setup: Setup, rows: Rows, pre: GameState)
    requires Dependable(setup.engine, setup.initial) && Playable(setup.initial, pre)
    requires rows.state.status == Active && AtRest(rows.state) && rows.state.phase == Phase.Orders
    requires TurnStart(rows, rows.state.turn) == Some(pre)
    ensures RightNext(setup, rows, LeaveOrders(setup, rows))
  {
    var orders := EffectiveOrders(rows.orders, rows.state.turn);
    var board := setup.engine.afterOrders(pre, orders);
    assert Playable(setup.initial, board);
    var dislodged := setup.engine.dislodges(pre, orders);
    ComesToRest(rows.state, dislodged, !dislodged && setup.engine.unbalanced(board));
  }

  lemma RetreatLeadsOn(setup: Setup, rows: Rows, pre: GameState)
    requires Dependable(setup.engine, setup.initial) && Playable(setup.initial, pre)
    requires rows.state.status == Active && AtRest(rows.state) && rows.state.phase == Phase.Retreat
    requires TurnStart(rows, rows.state.turn) == Some(pre)
    ensures RightNext(setup, rows, LeaveRetreat(setup, rows))
  {
    var orders := EffectiveOrders(rows.orders, rows.state.turn);
    var board := setup.engine.afterOrders(pre, orders);
    assert Playable(setup.initial, board) && setup.engine.afterRetreat(pre, orders) == board;
    ComesToRest(rows.state, false, setup.engine.unbalanced(board));
  }

  lemma BuildLeadsOn(setup: Setup, rows: Rows, pre: GameState)
    requires Dependable(setup.engine, setup.initial) && Playable(setup.initial, pre)
    requires rows.state.status == Active && AtRest(rows.state) && rows.state.phase == Phase.Build
    requires CurrentBoard(rows) == Some(pre)
    ensures RightNext(setup, rows, LeaveBuild(setup, rows))
  {
    assert Playable(setup.initial, setup.engine.afterBuild(pre));
    ComesToRest(rows.state, false, false);
  }

  /** What an active match resolves to is a later place to rest, with the right board. */
  lemma ResolutionIsRight(setup: Setup, w: World)
    requires FairSetup(setup) && Inv(setup, w) && w.rows.state.status == Active
    ensures Resolve(setup, w.rows).Some?
    ensures var (s, board) := Resolve(setup, w.rows).value; NextRest(w.rows.state, s) && RightBoard(setup, w.rows, board)
  {
    var rows := w.rows;
    BoardsOnRecord(setup, rows);
    match rows.state.phase
    case Orders => OrdersLeadOn(setup, rows, TurnStart(rows, rows.state.turn).value);
    case Retreat => RetreatLeadsOn(setup, rows, TurnStart(rows, rows.state.turn).value);
    case Build => BuildLeadsOn(setup, rows, CurrentBoard(rows).value);
  }

  /** Advancing an active match never fails, and never meets a row already taken. */
  lemma AdvanceKeeps(setup: Setup, w: World, now: real)
    requires FairSetup(setup) && Inv(setup, w)
    ensures Inv(setup, AdvancePhase(setup, w, now).0)
    ensures AdvancePhase(setup, w, now).1 == if w.rows.state.status == Active then Done else Refused
    ensures w.rows.state.status != Active ==> AdvancePhase(setup, w, now).0 == w
  {
    if w.rows.state.status == Active {
      ResolutionIsRight(setup, w);
      var (s, board) := Resolve(setup, w.rows).value;
      EntryKeeps(setup, w, s, board, now);
    }
  }

  // ---------------------------------------------------------------- starting

  lemma FirstRows(setup: Setup)
    requires Playable(setup.initial, setup.initial)
    ensures var genesis := GenesisRow(setup, MatchState(Active, Phase.Diplomacy, 1, 1));
            var row := NewRow(setup, [genesis], 1, Phase.Orders, setup.initial);
            GoodRows(setup, [genesis, row]) && Forward([genesis, row])
  {
    var genesis := GenesisRow(setup, MatchState(Active, Phase.Diplomacy, 1, 1));
    var row := NewRow(setup, [genesis], 1, Phase.Orders, setup.initial);
    StoredBoard(setup.initial, setup.initial);
    assert GoodRow(setup, [genesis, row], 0) && GoodRow(setup, [genesis, row], 1);
  }

  /** What starting makes of a full lobby: the genesis row and the first orders row. */
  lemma StartWrites(setup: Setup, w: World, now: real)
    requires InLobby(w) && |w.rows.players| == MAX_PLAYERS
    ensures var s, t := MatchState(Active, Phase.Diplomacy, 1, 1), MatchState(Active, Phase.Orders, 1, 1);
            var genesis := GenesisRow(setup, s);
            var row := NewRow(setup, [genesis], 1, Phase.Orders, setup.initial);
            && StartMatch(setup, w, now).1 == Done
            && StartMatch(setup, w, now).0 ==
               w.(rows := w.rows.(state := t, results := [genesis, row], deadline := Some(now + setup.movementSeconds)),
                  start := Some(StartOf(genesis)), results := [MessageOf(row, 1)],
                  notices := w.notices + [PhaseStart(Phase.Orders, 1, 1, now + setup.movementSeconds)], warned := false)
  {
    var genesis := GenesisRow(setup, MatchState(Active, Phase.Diplomacy, 1, 1));
    var row := NewRow(setup, [genesis], 1, Phase.Orders, setup.initial);
    assert w.rows.results + [genesis] == [genesis] && [genesis] + [row] == [genesis, row];
    FindRowAppend([], genesis, 1, Phase.Orders);
    NoRows([], 1, Phase.Diplomacy);
  }

  lemma StartKeeps(setup: Setup, w: World, now: real)
    requires FairSetup(setup) && Inv(setup, w)
    ensures Inv(setup, StartMatch(setup, w, now).0)
    ensures StartMatch(setup, w, now).1 ==
            if w.rows.state.status == Lobby && |w.rows.players| == MAX_PLAYERS then Done else Refused
  {
    if w.rows.state.status == Lobby && |w.rows.players| == MAX_PLAYERS {
      FirstRows(setup);
      StartWrites(setup, w, now);
      var genesis := GenesisRow(setup, MatchState(Active, Phase.Diplomacy, 1, 1));
      var row := NewRow(setup, [genesis], 1, Phase.Orders, setup.initial);
      FindRowAppend([genesis], row, 1, Phase.Orders);
      assert Follows(FormAfterOrders(setup, map[]), genesis, row);
    }
  }

  // ---------------------------------------------------------------- runs

  /** The steps that touch neither the players, the orders nor the chain. */
  lemma OtherStepsKeep(setup: Setup, w: World, e: Event)
    requires Inv(setup, w)
    requires e.Pausing? || e.Resuming? || e.Ending? || e.Restarting? || (e.Polling? && !Expired(w.rows, e.now))
    ensures Inv(setup, Step(setup, w, e))
  {
    AsideKeeps(setup, w, Step(setup, w, e));
  }

  lemma PollKeeps(setup: Setup, w: World, now: real)
    requires FairSetup(setup) && Inv(setup, w)
    ensures Inv(setup, CheckDeadline(setup, w, now))
  {
    if Expired(w.rows, now) {
      AdvanceKeeps(setup, w, now);
    } else {
      OtherStepsKeep(setup, w, Polling(now));
    }
  }

  lemma StepKeeps(setup: Setup, w: World, e: Event)
    requires FairSetup(setup) && Inv(setup, w)
    ensures Inv(setup, Step(setup, w, e))
  {
    match e
    case Joining(player, draw, now) => JoinKeeps(setup, w, player, draw, now);
    case Starting(now) => StartKeeps(setup, w, now);
    case Submitting(player, revision, orders) => SubmitKeeps(setup, w, player, revision, orders);
    case Cancelling(player, revision) => CancelKeeps(setup, w, player, revision);
    case Advancing(now) => AdvanceKeeps(setup, w, now);
    case Polling(now) => PollKeeps(setup, w, now);
    case _ => OtherStepsKeep(setup, w, e);
  }

  /** Every world reached from a new match by any sequence of operations satisfies the invariant. */
  lemma {:induction false} RunsKeepInvariant(setup: Setup, events: seq<Event>)
    requires FairSetup(setup)
    ensures Inv(setup, Run(setup, NEW_MATCH, events))
    decreases |events|
  {
    if events != [] {
      RunsKeepInvariant(setup, events[..|events| - 1]);
      StepKeeps(setup, Run(setup, NEW_MATCH, events[..|events| - 1]), events[|events| - 1]);
    }
  }
}
