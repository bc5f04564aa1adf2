/** How every run goes on: where each phase leads and with which board, which deadline is set and announced,
    when a warning is sent, and how a match ends; all in terms of the boards, the orders and the times. */
module Progress {
  import opened Ordering
  import opened Board
  import opened Adjudication
  import opened Adjustment
  import opened AdjustmentTheorems
  import opened Canonical
  import opened Phases
  import opened Store
  import opened OrderDesk
  import opened Engine
  import opened Match
  import opened Invariant
  import opened Steps
  import opened Runs
  import opened Balance
  import opened Records
  import opened Counterexamples

  /** The newest board on record. */
  function Newest(rows: Rows): GameState
    requires rows.results != []
  {
    Decode(rows.results[|rows.results| - 1].canon)
  }

  /** The movement that the orders make of the board dislodges somebody. */
  ghost predicate SomeoneDislodged(adj: Adjacency, board: GameState, orders: map<Id, Order>) {
    exists report :: report in MovementOutcome(adj, board, orders).unitResults && report.dislodged
  }

  /** Some faction has more or fewer units than centres. */
  ghost predicate SomeoneUneven(board: GameState) {
    exists f :: f in board.factions && UnitCount(board, f) != CenterCount(board, f)
  }

  ghost predicate Resting(setup: Setup, events: seq<Event>, phase: Phase) {
    Reached(setup, events).rows.state.status == Active && Reached(setup, events).rows.state.phase == phase
  }

  // ---------------------------------------------------------------- what an advance writes and announces

  function Allowed(setup: Setup, phase: Phase): real
    requires phase == Phase.Orders || phase == Phase.Retreat || phase == Phase.Build
  {
    if phase == Phase.Orders then setup.movementSeconds
    else if phase == Phase.Retreat then setup.retreatSeconds
    else setup.adjustmentSeconds
  }

  /** One more row, for the state the match is in now. */
  ghost predicate OneMoreRow(before: Rows, after: Rows) {
    var n := |before.results|;
    && |after.results| == n + 1 && after.results[..n] == before.results
    && after.results[n].turn == after.state.turn && after.results[n].phase == after.state.phase
  }

  /** One more broadcast, a deadline a full phase ahead of `now`, and the notice that says so; the players,
      the orders, any paused remainder and the start message are as they were. */
  ghost predicate Announced(setup: Setup, w: World, v: World, now: real) {
    var s := v.rows.state;
    && (s.phase == Phase.Orders || s.phase == Phase.Retreat || s.phase == Phase.Build)
    && |v.results| == |w.results| + 1 && v.results[..|w.results|] == w.results
    && v.rows.deadline == Some(now + Allowed(setup, s.phase))
    && v.notices == w.notices + [PhaseStart(s.phase, s.turn, s.year, now + Allowed(setup, s.phase))]
    && v.rows.players == w.rows.players && v.rows.orders == w.rows.orders && v.rows.paused == w.rows.paused
    && v.start == w.start
  }

  /** `v` is `w` after a phase has been entered at `now`. */
  ghost predicate Enters(setup: Setup, w: World, v: World, now: real) {
    v.rows.state.status == Active && OneMoreRow(w.rows, v.rows) && Announced(setup, w, v, now)
  }

  lemma EntryAnnounces(setup: Setup, w: World, s: MatchState, board: GameState, now: real)
    requires s.phase == Phase.Orders || s.phase == Phase.Retreat || s.phase == Phase.Build
    requires EnterPhase(setup, w, s, board, now).1 == Done
    ensures Announced(setup, w, EnterPhase(setup, w, s, board, now).0, now)
  {
  }

  lemma NewRowHolds(setup: Setup, results: seq<PhaseRow>, s: MatchState, board: GameState, before: Rows, after: Rows)
    requires before.results == results && after.state == s
    requires after.results == results + [NewRow(setup, results, s.turn, s.phase, board)]
    ensures OneMoreRow(before, after) && SameBoard(Newest(after), board)
  {
    DecodeCanonical(board);
  }

  lemma EntryAddsRow(setup: Setup, w: World, s: MatchState, board: GameState, now: real)
    requires Inv(setup, w) && w.rows.state.status == Active
    requires NextRest(w.rows.state, s) && RightBoard(setup, w.rows, board)
    ensures EnterPhase(setup, w, s, board, now).1 == Done && EnterPhase(setup, w, s, board, now).0.rows.state == s
    ensures OneMoreRow(w.rows, EnterPhase(setup, w, s, board, now).0.rows)
    ensures SameBoard(Newest(EnterPhase(setup, w, s, board, now).0.rows), board)
  {
    EntryKeeps(setup, w, s, board, now);
    NewRowHolds(setup, w.rows.results, s, board, w.rows, EnterPhase(setup, w, s, board, now).0.rows);
  }

  lemma EntryEnters(setup: Setup, w: World, s: MatchState, board: GameState, now: real)
    requires Inv(setup, w) && w.rows.state.status == Active
    requires NextRest(w.rows.state, s) && RightBoard(setup, w.rows, board)
    ensures Enters(setup, w, EnterPhase(setup, w, s, board, now).0, now)
    ensures EnterPhase(setup, w, s, board, now).0.rows.state == s
    ensures SameBoard(Newest(EnterPhase(setup, w, s, board, now).0.rows), board)
  {
    EntryAddsRow(setup, w, s, board, now);
    EntryAnnounces(setup, w, s, board, now);
  }

  lemma AdvanceEnters(setup: Setup, w: World, now: real)
    requires FairSetup(setup) && Inv(setup, w) && w.rows.state.status == Active
    ensures Resolve(setup, w.rows).Some?
    ensures var (s, board) := Resolve(setup, w.rows).value;
            var v := AdvancePhase(setup, w, now).0;
            Enters(setup, w, v, now) && v.rows.state == s && SameBoard(Newest(v.rows), board)
  {
    ResolutionIsRight(setup, w);
    var (s, board) := Resolve(setup, w.rows).value;
    EntryEnters(setup, w, s, board, now);
  }

  /** What an advance makes of `w`: nothing unless the match is active, and otherwise it enters a phase. */
  ghost predicate Advanced(setup: Setup, w: World, v: World, now: real) {
    if w.rows.state.status == Active then Enters(setup, w, v, now) else v == w
  }

  lemma AdvanceDoes(setup: Setup, w: World, now: real)
    requires FairSetup(setup) && Inv(setup, w)
    ensures Advanced(setup, w, AdvancePhase(setup, w, now).0, now)
  {
    AdvanceKeeps(setup, w, now);
    if w.rows.state.status == Active { AdvanceEnters(setup, w, now); }
  }

  lemma AdvanceStep(setup: Setup, events: seq<Event>, now: real)
    ensures Reached(setup, events + [Advancing(now)]) == AdvancePhase(setup, Reached(setup, events), now).0
  {
    OneMore(setup, events, Advancing(now));
  }

  lemma PollStep(setup: Setup, events: seq<Event>, now: real)
    ensures Reached(setup, events + [Polling(now)]) == CheckDeadline(setup, Reached(setup, events), now)
  {
    OneMore(setup, events, Polling(now));
  }

  /** In every run: an advance is refused, and changes nothing, exactly when the match is not active;
      otherwise it enters a phase, with the time that phase is allowed. */
  lemma AdvancesEnter(setup: Setup, adj: Adjacency, homes: HomeCenters, events: seq<Event>, now: real)
    requires RealMatch(setup, adj, homes)
    ensures Advanced(setup, Reached(setup, events), Reached(setup, events + [Advancing(now)]), now)
  {
    RealMatchIsFair(setup, adj, homes);
    RunsKeepInvariant(setup, events);
    AdvanceStep(setup, events, now);
    AdvanceDoes(setup, Reached(setup, events), now);
  }

  // ---------------------------------------------------------------- where each phase leads

  lemma UnevenAsStored(s: GameState, t: GameState)
    requires SameBoard(s, t)
    ensures Unbalanced(s) <==> SomeoneUneven(t)
  {
    forall f ensures UnitCount(s, f) == UnitCount(t, f) {
      CountIgnoresListing(s.units, t.units, f);
    }
  }

  lemma AnyDislodgedExactly(reports: seq<UnitOrderResult>)
    ensures AnyDislodged(reports) <==> exists report :: report in reports && report.dislodged
  {
    if report :| report in reports && report.dislodged {
      var i :| 0 <= i < |reports| && reports[i] == report;
    }
  }

  /** Leaving a turn's orders: with somebody dislodged its retreats are next, otherwise its adjustments if
      some faction's units and centres do not match, and otherwise the next turn's orders. */
  ghost function AfterOrdersPhase(s: MatchState, dislodged: bool, uneven: bool): MatchState {
    if dislodged then MatchState(Active, Phase.Retreat, s.turn, s.turn)
    else if uneven then MatchState(Active, Phase.Build, s.turn, s.turn)
    else MatchState(Active, Phase.Orders, s.turn + 1, s.turn + 1)
  }

  lemma OrdersResolve(setup: Setup, rows: Rows, pre: GameState)
    requires AtRest(rows.state) && rows.state.status == Active && rows.state.phase == Phase.Orders
    requires TurnStart(rows, rows.state.turn) == Some(pre)
    ensures var board := setup.engine.afterOrders(pre, EffectiveOrders(rows.orders, rows.state.turn));
            var dislodged := setup.engine.dislodges(pre, EffectiveOrders(rows.orders, rows.state.turn));
            Resolve(setup, rows) == Some((AfterOrdersPhase(rows.state, dislodged, setup.engine.unbalanced(board)), board))
  {
  }

  /** The same of any engine, on the world as it is. */
  lemma LeavingOrdersLeads(setup: Setup, w: World, now: real) returns (board: GameState)
    requires FairSetup(setup) && Inv(setup, w) && w.rows.state.status == Active && w.rows.state.phase == Phase.Orders
    ensures AdvancePhase(setup, w, now).0.rows.results != []
    ensures SameBoard(board, Newest(AdvancePhase(setup, w, now).0.rows))
    ensures var dislodged := setup.engine.dislodges(Newest(w.rows), EffectiveOrders(w.rows.orders, w.rows.state.turn));
            AdvancePhase(setup, w, now).0.rows.state == AfterOrdersPhase(w.rows.state, dislodged, setup.engine.unbalanced(board))
  {
    NewestIsTurnStart(w.rows);
    OrdersResolve(setup, w.rows, Newest(w.rows));
    AdvanceEnters(setup, w, now);
    board := Resolve(setup, w.rows).value.1;
  }

  lemma EngineAnswers(adj: Adjacency, homes: HomeCenters, board: GameState, orders: map<Id, Order>)
    ensures AdjudicationEngine(adj, homes).dislodges(board, orders) == Dislodges(adj, board, orders)
    ensures AdjudicationEngine(adj, homes).unbalanced(board) == Unbalanced(board)
    ensures AdjudicationEngine(adj, homes).afterBuild(board) == AfterBuild(homes, board)
  {
  }

  /** Where the orders phase leads, from the board on record and the orders that count. */
  ghost predicate LeadsFromOrders(adj: Adjacency, rows: Rows, after: Rows) {
    && rows.results != [] && after.results != []
    && var dislodged := SomeoneDislodged(adj, Newest(rows), EffectiveOrders(rows.orders, rows.state.turn));
       after.state == AfterOrdersPhase(rows.state, dislodged, SomeoneUneven(Newest(after)))
  }

  lemma RealOrdersLead(setup: Setup, adj: Adjacency, homes: HomeCenters, w: World, now: real)
    requires setup.engine == AdjudicationEngine(adj, homes) && FairSetup(setup) && Inv(setup, w)
    requires w.rows.state.status == Active && w.rows.state.phase == Phase.Orders
    ensures LeadsFromOrders(adj, w.rows, AdvancePhase(setup, w, now).0.rows)
  {
    var orders := EffectiveOrders(w.rows.orders, w.rows.state.turn);
    var board := LeavingOrdersLeads(setup, w, now);
    EngineAnswers(adj, homes, Newest(w.rows), orders);
    EngineAnswers(adj, homes, board, orders);
    UnevenAsStored(board, Newest(AdvancePhase(setup, w, now).0.rows));
    AnyDislodgedExactly(MovementOutcome(adj, Newest(w.rows), orders).unitResults);
  }

  /** In every run: retreats follow an orders phase exactly when a report of its movement has somebody
      dislodged, adjustments exactly when nobody is and some faction is uneven on the new board, and
      otherwise the next turn's orders. */
  lemma LeavesOrdersExactly(setup: Setup, adj: Adjacency, homes: HomeCenters, events: seq<Event>, now: real)
    requires RealMatch(setup, adj, homes) && Resting(setup, events, Phase.Orders)
    ensures LeadsFromOrders(adj, Reached(setup, events).rows, Reached(setup, events + [Advancing(now)]).rows)
  {
    RealMatchIsFair(setup, adj, homes);
    RunsKeepInvariant(setup, events);
    AdvanceStep(setup, events, now);
    RealOrdersLead(setup, adj, homes, Reached(setup, events), now);
  }

  lemma RetreatResolves(setup: Setup, rows: Rows)
    requires AtRest(rows.state) && rows.state.status == Active && rows.state.phase == Phase.Retreat
    requires TurnStart(rows, rows.state.turn).Some?
    ensures Resolve(setup, rows).Some?
    ensures Resolve(setup, rows).value.0 == AfterOrdersPhase(rows.state, false, setup.engine.unbalanced(Resolve(setup, rows).value.1))
  {
  }

  lemma LeavingRetreatLeads(setup: Setup, w: World, now: real) returns (board: GameState)
    requires FairSetup(setup) && Inv(setup, w) && w.rows.state.status == Active && w.rows.state.phase == Phase.Retreat
    ensures AdvancePhase(setup, w, now).0.rows.results != []
    ensures SameBoard(board, Newest(AdvancePhase(setup, w, now).0.rows))
    ensures Newest(AdvancePhase(setup, w, now).0.rows) == Newest(w.rows)
    ensures AdvancePhase(setup, w, now).0.rows.state == AfterOrdersPhase(w.rows.state, false, setup.engine.unbalanced(board))
  {
    BoardsOnRecord(setup, w.rows);
    RetreatResolves(setup, w.rows);
    RetreatStepKeepsBoard(setup, w, now);
    AdvanceEnters(setup, w, now);
    board := Resolve(setup, w.rows).value.1;
  }

  /** The retreat phase leads to adjustments if some faction is uneven, and to the next turn's orders
      otherwise; the board stays. */
  ghost predicate LeadsFromRetreat(rows: Rows, after: Rows) {
    && rows.results != [] && after.results != [] && Newest(after) == Newest(rows)
    && after.state == if SomeoneUneven(Newest(rows)) then MatchState(Active, Phase.Build, rows.state.turn, rows.state.turn)
                      else MatchState(Active, Phase.Orders, rows.state.turn + 1, rows.state.turn + 1)
  }

  lemma RealRetreatLeads(setup: Setup, adj: Adjacency, homes: HomeCenters, w: World, now: real)
    requires setup.engine == AdjudicationEngine(adj, homes) && FairSetup(setup) && Inv(setup, w)
    requires w.rows.state.status == Active && w.rows.state.phase == Phase.Retreat
    ensures LeadsFromRetreat(w.rows, AdvancePhase(setup, w, now).0.rows)
  {
    var board := LeavingRetreatLeads(setup, w, now);
    EngineAnswers(adj, homes, board, map[]);
    UnevenAsStored(board, Newest(w.rows));
  }

  lemma LeavesRetreatExactly(setup: Setup, adj: Adjacency, homes: HomeCenters, events: seq<Event>, now: real)
    requires RealMatch(setup, adj, homes) && Resting(setup, events, Phase.Retreat)
    ensures LeadsFromRetreat(Reached(setup, events).rows, Reached(setup, events + [Advancing(now)]).rows)
  {
    RealMatchIsFair(setup, adj, homes);
    RunsKeepInvariant(setup, events);
    AdvanceStep(setup, events, now);
    RealRetreatLeads(setup, adj, homes, Reached(setup, events), now);
  }

  /** `after` is `before` with the units of the last regions gone until each faction has at most as many
      units as centres; nothing else is different. */
  ghost predicate CutBack(before: GameState, after: GameState) {
    && after == before.(units := after.units)
    && (forall u :: u in after.units ==> u in before.units) && LastFirst(before, after)
    && forall f :: f in before.factions ==>
         UnitCount(after, f) == if UnitCount(before, f) <= CenterCount(before, f) then UnitCount(before, f) else CenterCount(before, f)
  }

  lemma CutBackAsStored(before: GameState, after: GameState, stored: GameState)
    requires CutBack(before, after) && SameBoard(stored, after)
    ensures CutBack(before, stored)
  {
    SameElements(after.units, stored.units);
    forall f ensures UnitCount(after, f) == UnitCount(stored, f) {
      CountIgnoresListing(after.units, stored.units, f);
    }
  }

  lemma BuildCutsBack(homes: HomeCenters, board: GameState)
    requires LegalBoard(board)
    ensures CutBack(board, AfterBuild(homes, board))
  {
    DefaultDisbands(board, homes);
    AdjustmentTouchesOnlyUnits(board, AdjustmentOutcome(board, homes, [], []));
  }

  lemma BuildResolves(setup: Setup, rows: Rows, board: GameState)
    requires AtRest(rows.state) && rows.state.status == Active && rows.state.phase == Phase.Build
    requires CurrentBoard(rows) == Some(board)
    ensures Resolve(setup, rows) == Some((AfterOrdersPhase(rows.state, false, false), setup.engine.afterBuild(board)))
  {
  }

  lemma LeavingBuildLeads(setup: Setup, w: World, now: real)
    requires FairSetup(setup) && Inv(setup, w) && w.rows.state.status == Active && w.rows.state.phase == Phase.Build
    ensures LegalBoard(Newest(w.rows))
    ensures AdvancePhase(setup, w, now).0.rows.results != []
    ensures SameBoard(Newest(AdvancePhase(setup, w, now).0.rows), setup.engine.afterBuild(Newest(w.rows)))
    ensures AdvancePhase(setup, w, now).0.rows.state == AfterOrdersPhase(w.rows.state, false, false)
  {
    BoardsOnRecord(setup, w.rows);
    BuildResolves(setup, w.rows, Newest(w.rows));
    AdvanceEnters(setup, w, now);
  }

  /** The build phase always leads to the next turn's orders, and cuts every faction back to its centres. */
  ghost predicate LeadsFromBuild(rows: Rows, after: Rows) {
    && rows.results != [] && after.results != [] && CutBack(Newest(rows), Newest(after))
    && after.state == MatchState(Active, Phase.Orders, rows.state.turn + 1, rows.state.turn + 1)
  }

  lemma RealBuildLeads(setup: Setup, adj: Adjacency, homes: HomeCenters, w: World, now: real)
    requires setup.engine == AdjudicationEngine(adj, homes) && FairSetup(setup) && Inv(setup, w)
    requires w.rows.state.status == Active && w.rows.state.phase == Phase.Build
    ensures LeadsFromBuild(w.rows, AdvancePhase(setup, w, now).0.rows)
  {
    LeavingBuildLeads(setup, w, now);
    EngineAnswers(adj, homes, Newest(w.rows), map[]);
    BuildCutsBack(homes, Newest(w.rows));
    CutBackAsStored(Newest(w.rows), AfterBuild(homes, Newest(w.rows)), Newest(AdvancePhase(setup, w, now).0.rows));
  }

  lemma LeavesBuildExactly(setup: Setup, adj: Adjacency, homes: HomeCenters, events: seq<Event>, now: real)
    requires RealMatch(setup, adj, homes) && Resting(setup, events, Phase.Build)
    ensures LeadsFromBuild(Reached(setup, events).rows, Reached(setup, events + [Advancing(now)]).rows)
  {
    RealMatchIsFair(setup, adj, homes);
    RunsKeepInvariant(setup, events);
    AdvanceStep(setup, events, now);
    RealBuildLeads(setup, adj, homes, Reached(setup, events), now);
  }

  // ---------------------------------------------------------------- starting and ending

  /** In every run: a match starts exactly from a lobby of seven, into turn 1's orders with the time they
      are allowed; otherwise the request changes nothing. */
  lemma StartExactly(setup: Setup, adj: Adjacency, homes: HomeCenters, events: seq<Event>, now: real)
    requires RealMatch(setup, adj, homes)
    ensures var w, v := Reached(setup, events), Reached(setup, events + [Starting(now)]);
            if w.rows.state.status == Lobby && |w.rows.players| == 7 then
              && v.rows.state == MatchState(Active, Phase.Orders, 1, 1)
              && v.rows.deadline == Some(now + setup.movementSeconds)
              && v.notices == w.notices + [PhaseStart(Phase.Orders, 1, 1, now + setup.movementSeconds)]
              && v.rows.players == w.rows.players && v.rows.orders == map[] && Begins(setup, v.rows.results) && |v.rows.results| == 2
            else v == w
  {
    RealMatchIsFair(setup, adj, homes);
    RunsKeepInvariant(setup, events);
    OneMore(setup, events, Starting(now));
    var w := Reached(setup, events);
    if w.rows.state.status == Lobby && |w.rows.players| == 7 {
      StartWrites(setup, w, now);
      StartBegins(setup, w, now);
    }
  }

  /** In every run: ending an active match completes it where it stands and announces the newest row's
      hash; ending any other changes nothing. */
  lemma EndExactly(setup: Setup, adj: Adjacency, homes: HomeCenters, events: seq<Event>)
    requires RealMatch(setup, adj, homes)
    ensures var w, v := Reached(setup, events), Reached(setup, events + [Ending]);
            if w.rows.state.status == Active then
              && w.rows.results != []
              && v == w.(rows := w.rows.(state := w.rows.state.(status := Completed)),
                         notices := w.notices + [MatchEnd(Some(w.rows.results[|w.rows.results| - 1].stateHash))])
            else v == w
  {
    RealMatchIsFair(setup, adj, homes);
    RunsKeepInvariant(setup, events);
    OneMore(setup, events, Ending);
  }

  // ---------------------------------------------------------------- warnings

  function Warnings(notices: seq<Notice>): nat {
    if notices == [] then 0 else
      Warnings(notices[..|notices| - 1]) + if notices[|notices| - 1].DeadlineWarning? then 1 else 0
  }

  /** The event enters a phase, resumes the clock, or restarts the coordinator. */
  ghost predicate Renews(setup: Setup, w: World, e: Event) {
    || |Step(setup, w, e).results| > |w.results|
    || (e.Resuming? && w.rows.paused.Some?)
    || e.Restarting?
  }

  /** The warnings sent since a phase was last entered, the clock resumed or the coordinator restarted. */
  ghost function WarnedSince(setup: Setup, events: seq<Event>): int {
    if events == [] then 0 else
      var front, e := events[..|events| - 1], events[|events| - 1];
      var w := Reached(setup, front);
      if Renews(setup, w, e) then 0
      else WarnedSince(setup, front) + Warnings(Step(setup, w, e).notices) - Warnings(w.notices)
  }

  /** A step that does not renew either leaves the memory alone and sends no warning, or sends the first one. */
  ghost predicate WarnsOnce(w: World, v: World) {
    if v.warned == w.warned then Warnings(v.notices) == Warnings(w.notices)
    else v.warned && Warnings(v.notices) == Warnings(w.notices) + 1
  }

  lemma OneMoreNotice(notices: seq<Notice>, notice: Notice)
    ensures Warnings(notices + [notice]) == Warnings(notices) + if notice.DeadlineWarning? then 1 else 0
  {
    assert (notices + [notice])[..|notices|] == notices;
  }

  /** What a poll makes of `w`, given how many warnings came last and what an advance would make of it. */
  ghost predicate Polled(w: World, v: World, now: real, warnings: int, advanced: World) {
    if w.rows.state.status != Active || w.rows.deadline.None? then v == w
    else if w.rows.deadline.value <= now then v == advanced
    else if w.rows.deadline.value - now <= 3600.0 && warnings == 0 then
      v == w.(warned := true, notices := w.notices + [DeadlineWarning(w.rows.state.phase, w.rows.deadline.value - now)])
    else v == w
  }

  lemma PollDoes(setup: Setup, w: World, now: real)
    ensures Polled(w, CheckDeadline(setup, w, now), now, if w.warned then 1 else 0, AdvancePhase(setup, w, now).0)
  {
  }

  lemma StartRenews(setup: Setup, w: World, now: real)
    requires FairSetup(setup) && Inv(setup, w)
    ensures var v := StartMatch(setup, w, now).0; v == w || (|v.results| > |w.results| && !v.warned)
  {
    if w.rows.state.status == Lobby && |w.rows.players| == MAX_PLAYERS {
      StartWrites(setup, w, now);
    }
  }

  lemma AdvanceRenews(setup: Setup, w: World, now: real)
    requires FairSetup(setup) && Inv(setup, w)
    ensures var v := AdvancePhase(setup, w, now).0; v == w || (|v.results| > |w.results| && !v.warned)
  {
    AdvanceKeeps(setup, w, now);
    if w.rows.state.status == Active {
      AdvanceEnters(setup, w, now);
    }
  }

  lemma PollRenews(setup: Setup, w: World, now: real)
    requires FairSetup(setup) && Inv(setup, w)
    ensures var v := CheckDeadline(setup, w, now); if |v.results| > |w.results| then !v.warned else WarnsOnce(w, v)
  {
    if w.rows.state.status == Active && w.rows.deadline.Some? {
      PollDoes(setup, w, now);
      if now < w.rows.deadline.value {
        OneMoreNotice(w.notices, DeadlineWarning(w.rows.state.phase, w.rows.deadline.value - now));
      } else {
        AdvanceRenews(setup, w, now);
      }
    }
  }

  lemma AsideWarns(setup: Setup, w: World, e: Event)
    requires !e.Starting? && !e.Advancing? && !e.Polling?
    ensures var v := Step(setup, w, e); if Renews(setup, w, e) then !v.warned else WarnsOnce(w, v)
  {
    if e.Ending? { OneMoreNotice(w.notices, MatchEnd(FinalHash(w.rows))); }
  }

  lemma StepWarns(setup: Setup, w: World, e: Event)
    requires FairSetup(setup) && Inv(setup, w)
    ensures var v := Step(setup, w, e); if Renews(setup, w, e) then !v.warned else WarnsOnce(w, v)
  {
    match e
    case Starting(now) => StartRenews(setup, w, now);
    case Advancing(now) => AdvanceRenews(setup, w, now);
    case Polling(now) => PollRenews(setup, w, now);
    case _ => AsideWarns(setup, w, e);
  }

  /** In every run: at most one warning is sent between two of these, and the coordinator remembers it. */
  lemma {:induction false} AtMostOneWarning(setup: Setup, adj: Adjacency, homes: HomeCenters, events: seq<Event>)
    requires RealMatch(setup, adj, homes)
    ensures 0 <= WarnedSince(setup, events) <= 1
    ensures Reached(setup, events).warned <==> WarnedSince(setup, events) == 1
    decreases |events|
  {
    if events != [] {
      var front := events[..|events| - 1];
      AtMostOneWarning(setup, adj, homes, front);
      RealMatchIsFair(setup, adj, homes);
      RunsKeepInvariant(setup, front);
      StepWarns(setup, Reached(setup, front), events[|events| - 1]);
    }
  }

  /** In every run: a poll does nothing in a match that is not active or has no deadline; from the deadline
      on it advances the match; in the last hour before it warns, once; and otherwise it does nothing. */
  lemma PollExactly(setup: Setup, adj: Adjacency, homes: HomeCenters, events: seq<Event>, now: real)
    requires RealMatch(setup, adj, homes)
    ensures Polled(Reached(setup, events), Reached(setup, events + [Polling(now)]), now,
                   WarnedSince(setup, events), Reached(setup, events + [Advancing(now)]))
  {
    PollStep(setup, events, now);
    AdvanceStep(setup, events, now);
    AtMostOneWarning(setup, adj, homes, events);
    PollDoes(setup, Reached(setup, events), now);
  }

  // ---------------------------------------------------------------- nothing is taken back

  /** What is on record and what has been sent in `w` is so in `v`. */
  ghost predicate Extends(w: World, v: World) {
    && w.notices <= v.notices && w.results <= v.results && (w.start.Some? ==> v.start == w.start)
    && w.rows.results <= v.rows.results && w.rows.players <= v.rows.players && w.rows.orders.Keys <= v.rows.orders.Keys
  }

  lemma StartExtends(setup: Setup, w: World, now: real)
    requires FairSetup(setup) && Inv(setup, w)
    ensures Extends(w, StartMatch(setup, w, now).0)
  {
    if w.rows.state.status == Lobby && |w.rows.players| == MAX_PLAYERS {
      StartWrites(setup, w, now);
    }
  }

  lemma AdvanceExtends(setup: Setup, w: World, now: real)
    requires FairSetup(setup) && Inv(setup, w)
    ensures Extends(w, AdvancePhase(setup, w, now).0)
  {
    AdvanceKeeps(setup, w, now);
    if w.rows.state.status == Active {
      AdvanceEnters(setup, w, now);
    }
  }

  lemma PollExtends(setup: Setup, w: World, now: real)
    requires FairSetup(setup) && Inv(setup, w)
    ensures Extends(w, CheckDeadline(setup, w, now))
  {
    PollDoes(setup, w, now);
    AdvanceExtends(setup, w, now);
  }

  lemma DeskExtends(w: World, player: Id, revision: int, orders: seq<Order>)
    ensures Extends(w, Submit(w, player, revision, orders)) && Extends(w, Cancel(w, player, revision))
  {
  }

  lemma AsideExtends(setup: Setup, w: World, e: Event)
    requires e.Joining? || e.Pausing? || e.Resuming? || e.Ending? || e.Restarting?
    ensures Extends(w, Step(setup, w, e))
  {
  }

  lemma StepExtends(setup: Setup, w: World, e: Event)
    requires FairSetup(setup) && Inv(setup, w)
    ensures Extends(w, Step(setup, w, e))
  {
    match e
    case Starting(now) => StartExtends(setup, w, now);
    case Advancing(now) => AdvanceExtends(setup, w, now);
    case Polling(now) => PollExtends(setup, w, now);
    case Submitting(player, revision, orders) => DeskExtends(w, player, revision, orders);
    case Cancelling(player, revision) => DeskExtends(w, player, revision, []);
    case _ => AsideExtends(setup, w, e);
  }

  /** In every run: no event, a restart included, takes back a row, a player, an order or anything sent. */
  lemma NothingIsTakenBack(setup: Setup, adj: Adjacency, homes: HomeCenters, events: seq<Event>, e: Event)
    requires RealMatch(setup, adj, homes)
    ensures Extends(Reached(setup, events), Reached(setup, events + [e]))
  {
    RealMatchIsFair(setup, adj, homes);
    RunsKeepInvariant(setup, events);
    OneMore(setup, events, e);
    StepExtends(setup, Reached(setup, events), e);
  }
}
