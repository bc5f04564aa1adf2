/** No faction begins a turn, after the first, with more units than centres. */
module Balance {
  import opened Ordering
  import opened Board
  import opened Adjustment
  import opened AdjustmentTheorems
  import opened Canonical
  import opened Phases
  import opened Store
  import opened Engine
  import opened Match
  import opened Invariant
  import opened Steps
  import opened Runs

  /** Every faction of the board has at most as many units as centres. */
  ghost predicate WithinCenters(board: GameState) {
    forall f :: f in board.factions ==> UnitCount(board, f) <= CenterCount(board, f)
  }

  /** What the runs need of the engine here: it asks for no build phase only on such boards, and leaves
      the build phase with one. */
  ghost predicate Balances(engine: Engine, initial: GameState) {
    && (forall board :: !engine.unbalanced(board) ==> WithinCenters(board))
    && (forall board :: Playable(initial, board) ==> WithinCenters(engine.afterBuild(board)))
  }

  lemma BalancedIsWithin(board: GameState)
    requires !Unbalanced(board)
    ensures WithinCenters(board)
  {
    forall f | f in board.factions ensures UnitCount(board, f) <= CenterCount(board, f) {
      assert Delta(board, f) == 0;
    }
  }

  lemma BuildsEndWithin(homes: HomeCenters, initial: GameState, board: GameState)
    requires Playable(initial, board)
    ensures WithinCenters(AfterBuild(homes, board))
  {
    forall f | f in board.factions ensures UnitCount(AfterBuild(homes, board), f) <= CenterCount(AfterBuild(homes, board), f) {
      UnitsMatchCenters(board, homes, [], [], f);
    }
  }

  lemma EngineBalances(adj: Adjacency, homes: HomeCenters, initial: GameState)
    ensures Balances(AdjudicationEngine(adj, homes), initial)
  {
    var engine := AdjudicationEngine(adj, homes);
    forall board | !engine.unbalanced(board) ensures WithinCenters(board) {
      BalancedIsWithin(board);
    }
    forall board | Playable(initial, board) ensures WithinCenters(engine.afterBuild(board)) {
      BuildsEndWithin(homes, initial, board);
    }
  }

  // ---------------------------------------------------------------- counting on stored boards

  lemma {:induction false} CountIgnoresListing(s: seq<Unit>, t: seq<Unit>, f: Id)
    requires multiset(s) == multiset(t)
    ensures |UnitsOf(s, f)| == |UnitsOf(t, f)|
    decreases |t|
  {
    if t == [] {
      assert |s| == |multiset(s)| == |multiset(t)| == 0;
    } else {
      SameElements(s, t);
      assert t[0] in t;
      var i :| 0 <= i < |s| && s[i] == t[0];
      TakeOut(s, t, i);
      CountIgnoresListing(s[..i] + s[i + 1..], t[1..], f);
      CountWithout(s, i, f);
    }
  }

  lemma {:induction false} CountWithout(s: seq<Unit>, i: nat, f: Id)
    requires i < |s|
    ensures |UnitsOf(s, f)| == |UnitsOf(s[..i] + s[i + 1..], f)| + if s[i].factionId == f then 1 else 0
  {
    var rest := s[..i] + s[i + 1..];
    if i == 0 {
      assert rest == s[1..];
    } else {
      CountWithout(s[1..], i - 1, f);
      assert rest[0] == s[0] && rest[1..] == s[1..][..i - 1] + s[1..][i..];
    }
  }

  lemma WithinAsStored(board: GameState)
    requires WithinCenters(board)
    ensures WithinCenters(Decode(Canonicalize(board)))
  {
    DecodeCanonical(board);
    var stored := Decode(Canonicalize(board));
    forall f | f in stored.factions ensures UnitCount(stored, f) <= CenterCount(stored, f) {
      CountIgnoresListing(board.units, stored.units, f);
    }
  }

  // ---------------------------------------------------------------- runs

  /** A row that opens a turn after the first holds such a board. */
  ghost predicate OpensWithin(row: PhaseRow) {
    row.phase == Phase.Orders && row.turn > 1 ==> WithinCenters(Decode(row.canon))
  }

  ghost predicate AllOpenWithin(results: seq<PhaseRow>) {
    forall row :: row in results ==> OpensWithin(row)
  }

  lemma OrdersLeadWithin(setup: Setup, rows: Rows)
    requires Balances(setup.engine, setup.initial) && AtRest(rows.state) && rows.state.phase == Phase.Orders
    requires LeaveOrders(setup, rows).Some? && LeaveOrders(setup, rows).value.0.phase == Phase.Orders
    ensures WithinCenters(LeaveOrders(setup, rows).value.1)
  {
  }

  lemma RetreatLeadsWithin(setup: Setup, rows: Rows)
    requires Balances(setup.engine, setup.initial) && AtRest(rows.state) && rows.state.phase == Phase.Retreat
    requires LeaveRetreat(setup, rows).Some? && LeaveRetreat(setup, rows).value.0.phase == Phase.Orders
    ensures WithinCenters(LeaveRetreat(setup, rows).value.1)
  {
  }

  lemma BuildLeadsWithin(setup: Setup, rows: Rows)
    requires Balances(setup.engine, setup.initial) && AtRest(rows.state) && rows.state.phase == Phase.Build
    requires CurrentBoard(rows).Some? && Playable(setup.initial, CurrentBoard(rows).value)
    requires LeaveBuild(setup, rows).Some?
    ensures WithinCenters(LeaveBuild(setup, rows).value.1)
  {
  }

  /** Whatever phase a turn's orders are opened from, the board is within its centres. */
  lemma NextTurnOpensWithin(setup: Setup, rows: Rows)
    requires Balances(setup.engine, setup.initial)
    requires UnderWay(rows) && GoodRows(setup, rows.results) && Forward(rows.results)
    requires Resolve(setup, rows).Some? && Resolve(setup, rows).value.0.phase == Phase.Orders
    ensures WithinCenters(Resolve(setup, rows).value.1)
  {
    BoardsOnRecord(setup, rows);
    match rows.state.phase
    case Orders => OrdersLeadWithin(setup, rows);
    case Retreat => RetreatLeadsWithin(setup, rows);
    case Build => BuildLeadsWithin(setup, rows);
  }

  lemma EntryOpensWithin(results: seq<PhaseRow>, row: PhaseRow)
    requires AllOpenWithin(results) && OpensWithin(row)
    ensures AllOpenWithin(results + [row])
  {
  }

  lemma NewRowOpensWithin(setup: Setup, results: seq<PhaseRow>, turn: int, phase: Phase, board: GameState)
    requires phase == Phase.Orders ==> WithinCenters(board)
    ensures OpensWithin(NewRow(setup, results, turn, phase, board))
  {
    if phase == Phase.Orders { WithinAsStored(board); }
  }

  lemma AdvanceOpensWithin(setup: Setup, w: World, now: real)
    requires FairSetup(setup) && Balances(setup.engine, setup.initial) && Inv(setup, w) && w.rows.state.status == Active
    requires AllOpenWithin(w.rows.results)
    ensures AllOpenWithin(AdvancePhase(setup, w, now).0.rows.results)
  {
    ResolutionIsRight(setup, w);
    var (s, board) := Resolve(setup, w.rows).value;
    EntryKeeps(setup, w, s, board, now);
    if s.phase == Phase.Orders { NextTurnOpensWithin(setup, w.rows); }
    NewRowOpensWithin(setup, w.rows.results, s.turn, s.phase, board);
    EntryOpensWithin(w.rows.results, NewRow(setup, w.rows.results, s.turn, s.phase, board));
  }

  lemma StartOpensWithin(setup: Setup, w: World, now: real)
    requires Inv(setup, w) && AllOpenWithin(w.rows.results)
    ensures AllOpenWithin(StartMatch(setup, w, now).0.rows.results)
  {
    if w.rows.state.status == Lobby && |w.rows.players| == MAX_PLAYERS {
      StartWrites(setup, w, now);
    }
  }

  lemma OthersKeepResults(setup: Setup, w: World, e: Event)
    requires !e.Starting? && !e.Advancing? && !e.Polling?
    ensures Step(setup, w, e).rows.results == w.rows.results
  {
  }

  lemma LeavingOpensWithin(setup: Setup, w: World, now: real)
    requires FairSetup(setup) && Balances(setup.engine, setup.initial) && Inv(setup, w) && AllOpenWithin(w.rows.results)
    ensures AllOpenWithin(AdvancePhase(setup, w, now).0.rows.results)
  {
    if w.rows.state.status == Active {
      AdvanceOpensWithin(setup, w, now);
    } else {
      AdvanceKeeps(setup, w, now);
    }
  }

  lemma PollOpensWithin(setup: Setup, w: World, now: real)
    requires FairSetup(setup) && Balances(setup.engine, setup.initial) && Inv(setup, w) && AllOpenWithin(w.rows.results)
    ensures AllOpenWithin(CheckDeadline(setup, w, now).rows.results)
  {
    if w.rows.state.status == Active && Expired(w.rows, now) { LeavingOpensWithin(setup, w, now); }
  }

  lemma StepOpensWithin(setup: Setup, w: World, e: Event)
    requires FairSetup(setup) && Balances(setup.engine, setup.initial) && Inv(setup, w) && AllOpenWithin(w.rows.results)
    ensures AllOpenWithin(Step(setup, w, e).rows.results)
  {
    match e
    case Starting(now) => StartOpensWithin(setup, w, now);
    case Advancing(now) => LeavingOpensWithin(setup, w, now);
    case Polling(now) => PollOpensWithin(setup, w, now);
    case _ => OthersKeepResults(setup, w, e);
  }

  /** In every run, every row that opens a turn after the first leaves no faction more units than centres. */
  lemma {:induction false} TurnsOpenWithinCenters(setup: Setup, adj: Adjacency, homes: HomeCenters, events: seq<Event>)
    requires RealMatch(setup, adj, homes)
    ensures AllOpenWithin(Reached(setup, events).rows.results)
    decreases |events|
  {
    if events != [] {
      var front := events[..|events| - 1];
      TurnsOpenWithinCenters(setup, adj, homes, front);
      RealMatchIsFair(setup, adj, homes);
      EngineBalances(adj, homes, setup.initial);
      RunsKeepInvariant(setup, front);
      StepOpensWithin(setup, Reached(setup, front), events[|events| - 1]);
    }
  }
}
