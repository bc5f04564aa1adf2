/** What holds over whole runs of the coordinator, and what the client makes of them. */
module Runs {
  import opened Ordering
  import opened Board
  import opened Adjudication
  import opened Adjustment
  import opened Canonical
  import opened Verification
  import opened Phases
  import opened Store
  import opened OrderDesk
  import opened Engine
  import opened Match
  import opened Invariant
  import opened Steps

  /** A match played by the real engine on some map. */
  ghost predicate RealMatch(setup: Setup, adj: Adjacency, homes: HomeCenters) {
    setup.engine == AdjudicationEngine(adj, homes) && Playable(setup.initial, setup.initial)
  }

  lemma RealMatchIsFair(setup: Setup, adj: Adjacency, homes: HomeCenters)
    requires RealMatch(setup, adj, homes)
    ensures FairSetup(setup)
  {
    EngineIsDependable(adj, homes, setup.initial);
  }

  ghost function Reached(setup: Setup, events: seq<Event>): World {
    Run(setup, NEW_MATCH, events)
  }

  // ---------------------------------------------------------------- an orderly record

  /** In every reachable world of a started match the coordinator rests in orders, retreat or build with
      year and turn equal; rows stand at strictly increasing positions, the newest at the current one;
      the turn's starting board is on record; every recorded board is legal on the match's map; and
      neither starting nor advancing ever meets a row that is already there. */
  lemma RunsAreOrderly(setup: Setup, adj: Adjacency, homes: HomeCenters, events: seq<Event>, now: real)
    requires RealMatch(setup, adj, homes)
    ensures var w := Reached(setup, events);
            && (w.rows.state.status != Lobby ==>
                  && AtRest(w.rows.state) && Forward(w.rows.results) && w.rows.results != []
                  && PositionOf(w.rows.results[|w.rows.results| - 1]) == Position(w.rows.state.turn, w.rows.state.phase)
                  && TurnStart(w.rows, w.rows.state.turn).Some?
                  && forall i :: 0 <= i < |w.rows.results| ==> Playable(setup.initial, Decode(w.rows.results[i].canon)))
            && StartMatch(setup, w, now).1 != Clash
            && AdvancePhase(setup, w, now).1 == (if w.rows.state.status == Active then Done else Refused)
  {
    RealMatchIsFair(setup, adj, homes);
    RunsKeepInvariant(setup, events);
    var w := Reached(setup, events);
    StartKeeps(setup, w, now);
    AdvanceKeeps(setup, w, now);
    if w.rows.state.status != Lobby {
      forall i | 0 <= i < |w.rows.results| ensures Playable(setup.initial, Decode(w.rows.results[i].canon)) {
        assert GoodRow(setup, w.rows.results, i);
      }
    }
  }

  /** State, phase rows and broadcasts are the same. */
  ghost predicate SameRecord(w: World, v: World) {
    v.rows.state == w.rows.state && v.rows.results == w.rows.results && v.start == w.start && v.results == w.results
  }

  lemma CompletedDoesNotResolve(setup: Setup, w: World, now: real)
    requires w.rows.state.status == Completed
    ensures AdvancePhase(setup, w, now).0 == w && StartMatch(setup, w, now).0 == w && EndMatch(w).0 == w
  {
  }

  lemma CompletedStep(setup: Setup, w: World, e: Event)
    requires w.rows.state.status == Completed
    ensures SameRecord(w, Step(setup, w, e))
  {
    if e.Starting? || e.Advancing? || e.Polling? {
      CompletedDoesNotResolve(setup, w, e.now);
    }
  }

  /** A completed match gains no phase row, no broadcast result and no new state, whatever happens to it;
      orders may still be filed with it. */
  lemma {:induction false} CompletedIsFrozen(setup: Setup, w: World, events: seq<Event>)
    requires w.rows.state.status == Completed
    ensures SameRecord(w, Run(setup, w, events))
    decreases |events|
  {
    if events != [] {
      CompletedIsFrozen(setup, w, events[..|events| - 1]);
      CompletedStep(setup, Run(setup, w, events[..|events| - 1]), events[|events| - 1]);
    }
  }

  // ---------------------------------------------------------------- the client accepts

  lemma StoredFormMatches(canon: CanonState, previous: Option<Hash>)
    requires Canonicalize(Decode(canon)) == canon && (previous.Some? ==> previous.value.Digest?)
    ensures HashMatches(Packed(canon), Digest(previous, canon), previous)
  {
  }

  lemma RowHashMatches(setup: Setup, results: seq<PhaseRow>, i: nat)
    requires GoodRows(setup, results) && i < |results|
    ensures HashMatches(Packed(results[i].canon), results[i].stateHash, results[i].previous)
    ensures Checks(setup.key, results[i].signature, results[i].stateHash)
    ensures results[i].previous == if i == 0 then None else Some(results[i - 1].stateHash)
  {
    if i > 0 { assert GoodRow(setup, results, i - 1); }
    assert GoodRow(setup, results, i);
    StoredFormMatches(results[i].canon, results[i].previous);
  }

  lemma LinkIsGood(setup: Setup, w: World, i: nat)
    requires GoodRows(setup, w.rows.results) && Broadcast(w) && i < |w.results|
    ensures GoodAt(setup.key, w.start, w.results, i)
  {
    RowHashMatches(setup, w.rows.results, i + 1);
    if i > 0 {
      assert w.results[i - 1] == MessageOf(w.rows.results[i], w.rows.results[i].turn);
    }
  }

  lemma BroadcastsAreGood(setup: Setup, w: World)
    requires GoodRows(setup, w.rows.results) && Broadcast(w)
    ensures w.start.Some? && GoodHistory(setup.key, w.start, w.results)
  {
    RowHashMatches(setup, w.rows.results, 0);
    forall i | 0 <= i < |w.results| ensures GoodAt(setup.key, w.start, w.results, i) {
      LinkIsGood(setup, w, i);
    }
  }

  /** Everything broadcast in any run checks: the whole history from its anchor, and any contiguous
      part of it without one. */
  lemma ClientAcceptsEveryRun(setup: Setup, adj: Adjacency, homes: HomeCenters, events: seq<Event>, i: nat, j: nat)
    requires RealMatch(setup, adj, homes)
    requires Reached(setup, events).rows.state.status != Lobby
    requires i <= j <= |Reached(setup, events).results|
    ensures var w := Reached(setup, events);
            && w.start.Some? && !SomeRaises(w.results) && AllIssues(setup.key, w.start, w.results) == []
            && !SomeRaises(w.results[i..j]) && AllIssues(setup.key, None, w.results[i..j]) == []
  {
    RealMatchIsFair(setup, adj, homes);
    RunsKeepInvariant(setup, events);
    var w := Reached(setup, events);
    BroadcastsAreGood(setup, w);
    SegmentIsGood(setup.key, w.start, w.results, i, j);
    GoodNeverRaises(setup.key, w.start, w.results);
    GoodNeverRaises(setup.key, None, w.results[i..j]);
  }

  /** Re-adjudicating any broadcast orders phase with the orders that counted matches the next broadcast. */
  lemma ClientReproducesEveryOrdersPhase(setup: Setup, adj: Adjacency, homes: HomeCenters, events: seq<Event>, i: nat)
    requires RealMatch(setup, adj, homes)
    requires i + 1 < |Reached(setup, events).results|
    requires Reached(setup, events).results[i].phase == Phase.Orders
    ensures var w := Reached(setup, events);
            var before, after := w.results[i], w.results[i + 1];
            && before.payload.Packed? && after.payload.Packed?
            && HashState(AfterOrders(adj, Decode(before.payload.canon), EffectiveOrders(w.rows.orders, before.turn)), None)
               == HashState(Decode(after.payload.canon), None)
  {
    RealMatchIsFair(setup, adj, homes);
    RunsKeepInvariant(setup, events);
    var w := Reached(setup, events);
    assert Broadcast(w);
    assert w.results[i] == MessageOf(w.rows.results[i + 1], w.rows.results[i + 1].turn);
    assert w.results[i + 1] == MessageOf(w.rows.results[i + 2], w.rows.results[i + 2].turn);
    ReproducibleAt(setup, w.rows.orders, w.rows.results, i + 1);
    assert GoodRow(setup, w.rows.results, i + 2);
  }

  // ---------------------------------------------------------------- the turn's past is fixed

  /** Turn `t`'s orders phase has been left. */
  ghost predicate Left(w: World, t: int) {
    && w.rows.state.status != Lobby
    && (w.rows.state.turn > t || (w.rows.state.turn == t && w.rows.state.phase != Phase.Orders))
  }

  ghost predicate SamePast(w: World, v: World, t: int) {
    && SameAt(w.rows.orders, v.rows.orders, t)
    && (TurnStart(w.rows, t).Some? ==> TurnStart(v.rows, t) == TurnStart(w.rows, t))
  }

  lemma EntryFixesPast(setup: Setup, w: World, s: MatchState, board: GameState, now: real, t: int)
    requires NextRest(w.rows.state, s) && w.rows.state.status == Active && AtRest(w.rows.state)
    ensures SamePast(w, EnterPhase(setup, w, s, board, now).0, t)
    ensures Left(w, t) ==> Left(EnterPhase(setup, w, s, board, now).0, t)
  {
    FindRowAppend(w.rows.results, NewRow(setup, w.rows.results, s.turn, s.phase, board), t, Phase.Orders);
  }

  lemma AdvanceFixesPast(setup: Setup, w: World, now: real, t: int)
    requires FairSetup(setup) && Inv(setup, w)
    ensures SamePast(w, AdvancePhase(setup, w, now).0, t)
    ensures Left(w, t) ==> Left(AdvancePhase(setup, w, now).0, t)
  {
    AdvanceKeeps(setup, w, now);
    if w.rows.state.status == Active {
      ResolutionIsRight(setup, w);
      var (s, board) := Resolve(setup, w.rows).value;
      EntryFixesPast(setup, w, s, board, now, t);
    }
  }

  lemma PollFixesPast(setup: Setup, w: World, now: real, t: int)
    requires FairSetup(setup) && Inv(setup, w) && Left(w, t)
    ensures Left(CheckDeadline(setup, w, now), t) && SamePast(w, CheckDeadline(setup, w, now), t)
  {
    if Expired(w.rows, now) { AdvanceFixesPast(setup, w, now, t); }
  }

  lemma DeskFixesPast(w: World, player: Id, revision: int, orders: seq<Order>, t: int)
    requires Left(w, t)
    ensures Left(Submit(w, player, revision, orders), t) && SamePast(w, Submit(w, player, revision, orders), t)
    ensures Left(Cancel(w, player, revision), t) && SamePast(w, Cancel(w, player, revision), t)
  {
    var valid := SubmissionValid(w.rows, player, orders);
    DeskTouchesCurrentTurn(w.rows, player, revision, orders, valid, t);
  }

  lemma JoinFixesPast(setup: Setup, w: World, player: Id, draw: nat, now: real, t: int)
    requires Left(w, t)
    ensures Left(Join(setup, w, player, draw, now), t) && SamePast(w, Join(setup, w, player, draw, now), t)
  {
  }

  lemma StepFixesPast(setup: Setup, w: World, e: Event, t: int)
    requires FairSetup(setup) && Inv(setup, w) && Left(w, t)
    ensures Left(Step(setup, w, e), t) && SamePast(w, Step(setup, w, e), t)
  {
    match e
    case Joining(player, draw, now) => JoinFixesPast(setup, w, player, draw, now, t);
    case Submitting(player, revision, orders) => DeskFixesPast(w, player, revision, orders, t);
    case Cancelling(player, revision) => DeskFixesPast(w, player, revision, [], t);
    case Advancing(now) => AdvanceFixesPast(setup, w, now, t);
    case Polling(now) => PollFixesPast(setup, w, now, t);
    case _ =>
  }

  lemma {:induction false} RunFixesPast(setup: Setup, w: World, events: seq<Event>, t: int)
    requires FairSetup(setup) && Inv(setup, w) && Left(w, t) && TurnStart(w.rows, t).Some?
    ensures var v := Run(setup, w, events); Inv(setup, v) && Left(v, t) && SamePast(w, v, t)
    decreases |events|
  {
    if events != [] {
      var front, last := events[..|events| - 1], events[|events| - 1];
      RunFixesPast(setup, w, front, t);
      var u := Run(setup, w, front);
      StepKeeps(setup, u, last);
      StepFixesPast(setup, u, last, t);
    }
  }

  /** The movement derived again on leaving the retreat phase is the movement resolved on leaving the
      orders phase, whatever messages, pauses, restarts and further phases come in between. */
  lemma MovementIsRederived(setup: Setup, adj: Adjacency, homes: HomeCenters, before: seq<Event>, now: real, between: seq<Event>)
    requires RealMatch(setup, adj, homes)
    requires Reached(setup, before).rows.state.status == Active && Reached(setup, before).rows.state.phase == Phase.Orders
    ensures var w := Reached(setup, before);
            var v := Run(setup, AdvancePhase(setup, w, now).0, between);
            var t := w.rows.state.turn;
            && TurnStart(w.rows, t).Some? && TurnStart(v.rows, t) == TurnStart(w.rows, t)
            && EffectiveOrders(v.rows.orders, t) == EffectiveOrders(w.rows.orders, t)
            && MovementOutcome(adj, TurnStart(v.rows, t).value, EffectiveOrders(v.rows.orders, t))
               == MovementOutcome(adj, TurnStart(w.rows, t).value, EffectiveOrders(w.rows.orders, t))
  {
    RealMatchIsFair(setup, adj, homes);
    RunsKeepInvariant(setup, before);
    var w := Reached(setup, before);
    var t := w.rows.state.turn;
    BoardsOnRecord(setup, w.rows);
    AdvanceKeeps(setup, w, now);
    AdvanceFixesPast(setup, w, now, t);
    var u := AdvancePhase(setup, w, now).0;
    LeavingOrders(setup, w, now);
    RunFixesPast(setup, u, between, t);
    SameEffective(w.rows.orders, Run(setup, u, between).rows.orders, t);
  }

  lemma LeavingOrders(setup: Setup, w: World, now: real)
    requires FairSetup(setup) && Inv(setup, w) && w.rows.state.status == Active && w.rows.state.phase == Phase.Orders
    ensures Left(AdvancePhase(setup, w, now).0, w.rows.state.turn)
  {
    ResolutionIsRight(setup, w);
    var (s, board) := Resolve(setup, w.rows).value;
    EntryKeeps(setup, w, s, board, now);
  }

  /** The newest row of a match in its retreat phase holds what the turn's orders made of its starting board. */
  lemma RetreatRowHoldsTheOutcome(setup: Setup, rows: Rows)
    requires UnderWay(rows) && Forward(rows.results) && AllReproducible(setup, rows.orders, rows.results)
    requires rows.state.phase == Phase.Retreat
    ensures TurnStart(rows, rows.state.turn).Some?
    ensures rows.results[|rows.results| - 1].canon ==
            Canonicalize(setup.engine.afterOrders(TurnStart(rows, rows.state.turn).value, EffectiveOrders(rows.orders, rows.state.turn)))
  {
    var i := |rows.results| - 2;
    ReproducibleAt(setup, rows.orders, rows.results, i);
    FindRowAt(rows.results, i);
  }

  lemma RetreatResolution(setup: Setup, rows: Rows)
    requires Dependable(setup.engine, setup.initial)
    requires rows.state.status == Active && rows.state.phase == Phase.Retreat && TurnStart(rows, rows.state.turn).Some?
    ensures Resolve(setup, rows).Some?
    ensures Resolve(setup, rows).value.1 ==
            setup.engine.afterOrders(TurnStart(rows, rows.state.turn).value, EffectiveOrders(rows.orders, rows.state.turn))
  {
  }

  /** The retreat phase records, on leaving, the very board it recorded on being entered. */
  lemma RetreatRecordsTheSameBoard(setup: Setup, adj: Adjacency, homes: HomeCenters, events: seq<Event>, now: real)
    requires RealMatch(setup, adj, homes)
    requires Reached(setup, events).rows.state.status == Active && Reached(setup, events).rows.state.phase == Phase.Retreat
    ensures var rows := Reached(setup, events).rows;
            var after := AdvancePhase(setup, Reached(setup, events), now).0.rows;
            && |after.results| == |rows.results| + 1 && rows.results != []
            && after.results[|rows.results|].canon == rows.results[|rows.results| - 1].canon
  {
    RealMatchIsFair(setup, adj, homes);
    RunsKeepInvariant(setup, events);
    RetreatStepKeepsBoard(setup, Reached(setup, events), now);
  }

  lemma RetreatStepKeepsBoard(setup: Setup, w: World, now: real)
    requires FairSetup(setup) && Inv(setup, w)
    requires w.rows.state.status == Active && w.rows.state.phase == Phase.Retreat
    ensures var after := AdvancePhase(setup, w, now).0.rows;
            && |after.results| == |w.rows.results| + 1 && w.rows.results != []
            && after.results[|w.rows.results|].canon == w.rows.results[|w.rows.results| - 1].canon
  {
    RetreatRowHoldsTheOutcome(setup, w.rows);
    RetreatResolution(setup, w.rows);
    ResolutionIsRight(setup, w);
    var (s, board) := Resolve(setup, w.rows).value;
    EntryKeeps(setup, w, s, board, now);
  }

  // ---------------------------------------------------------------- the orders that count

  lemma {:induction false} OverlayExact(m: map<Id, Order>, orders: seq<Order>)
    requires forall i, j :: 0 <= i < j < |orders| ==> orders[i].unit != orders[j].unit
    ensures forall i :: 0 <= i < |orders| ==> orders[i].unit in Overlay(m, orders) && Overlay(m, orders)[orders[i].unit] == orders[i]
    ensures forall k :: (forall i :: 0 <= i < |orders| ==> orders[i].unit != k) ==>
              (k in Overlay(m, orders) <==> k in m) && (k in m ==> Overlay(m, orders)[k] == m[k])
    decreases |orders|
  {
    if orders != [] {
      var front, last := orders[..|orders| - 1], orders[|orders| - 1];
      assert orders == front + [last];
      OverlayExact(m, front);
    }
  }

  /** `p`'s standing orders for the turn include `o`. */
  ghost predicate Stands(orders: map<OrderKey, OrderRow>, t: int, p: Id, o: Order) {
    Register(orders, p, t).Some? && o in Register(orders, p, t).value
  }

  /** An order that stands is for a unit of its player's faction on the board the turn started from. */
  lemma StandingOrdersAreOwn(setup: Setup, rows: Rows, t: int, p: Id, o: Order)
    requires GoodOrders(rows) && Stands(rows.orders, t, p, o)
    ensures FactionOf(rows, p).Some? && TurnStart(rows, t).Some?
    ensures OwnsRegion(TurnStart(rows, t).value, FactionOf(rows, p).value, o.unit)
    ensures forall q :: Stands(rows.orders, t, p, q) && q.unit == o.unit ==> q == o
  {
    var k := Latest(rows.orders, p, t).value;
    assert GoodOrder(rows, k);
    var mine := DecodeOrders(rows.orders[k].orders).value;
    var i :| 0 <= i < |mine| && mine[i] == o;
    assert OwnsRegion(TurnStart(rows, t).value, FactionOf(rows, p).value, mine[i].unit);
  }

  lemma OwnersDiffer(setup: Setup, rows: Rows, board: GameState, p: Id, q: Id, r: Id)
    requires DistinctPlayers(setup, rows.players) && DistinctRegions(board.units)
    requires FactionOf(rows, p).Some? && FactionOf(rows, q).Some?
    requires OwnsRegion(board, FactionOf(rows, p).value, r) && OwnsRegion(board, FactionOf(rows, q).value, r)
    ensures p == q
  {
    FactionFound(rows.players, p);
    FactionFound(rows.players, q);
    var i :| 0 <= i < |rows.players| && rows.players[i] == PlayerRow(p, FactionOf(rows, p).value);
    var j :| 0 <= j < |rows.players| && rows.players[j] == PlayerRow(q, FactionOf(rows, q).value);
    var a :| 0 <= a < |board.units| && board.units[a].factionId == FactionOf(rows, p).value && board.units[a].regionId == r;
    var b :| 0 <= b < |board.units| && board.units[b].factionId == FactionOf(rows, q).value && board.units[b].regionId == r;
    assert a == b;
  }

  ghost predicate NoClashes(orders: map<OrderKey, OrderRow>, t: int) {
    && (forall p, q, o, u :: Stands(orders, t, p, o) && Stands(orders, t, q, u) && o.unit == u.unit ==> p == q && o == u)
    && (forall p :: Register(orders, p, t).Some? ==>
          forall i, j :: 0 <= i < j < |Register(orders, p, t).value| ==>
            Register(orders, p, t).value[i].unit != Register(orders, p, t).value[j].unit)
  }

  lemma {:induction false} EffectiveFromExact(orders: map<OrderKey, OrderRow>, t: int, players: seq<Id>, o: Order)
    requires NoClashes(orders, t)
    ensures (o.unit in EffectiveFrom(orders, t, players) && EffectiveFrom(orders, t, players)[o.unit] == o) <==>
            exists p :: p in players && Stands(orders, t, p, o)
    ensures forall k :: k in EffectiveFrom(orders, t, players) ==> EffectiveFrom(orders, t, players)[k].unit == k
    decreases |players|
  {
    if players != [] {
      var front, last := players[..|players| - 1], players[|players| - 1];
      EffectiveFromExact(orders, t, front, o);
      assert players == front + [last];
      if Register(orders, last, t).Some? {
        var mine := Register(orders, last, t).value;
        OverlayExact(EffectiveFrom(orders, t, front), mine);
        if i :| 0 <= i < |mine| && mine[i].unit == o.unit {
          assert mine[i] in mine && Stands(orders, t, last, mine[i]);
        }
      }
    }
  }

  /** The orders that count are the disjoint union of what the players' standing submissions say: an
      order counts exactly when it stands for some player, at most one player has an order for a given
      unit, and that unit belongs to that player's faction on the board the turn started from. */
  lemma EffectiveOrdersAreDisjointUnion(setup: Setup, adj: Adjacency, homes: HomeCenters, events: seq<Event>, t: int, o: Order)
    requires RealMatch(setup, adj, homes)
    ensures var rows := Reached(setup, events).rows;
            var effective := EffectiveOrders(rows.orders, t);
            && ((o.unit in effective && effective[o.unit] == o) <==> exists p :: Stands(rows.orders, t, p, o))
            && (forall k :: k in effective ==> effective[k].unit == k)
            && (forall p, q, u :: Stands(rows.orders, t, p, o) && Stands(rows.orders, t, q, u) && u.unit == o.unit ==> p == q && o == u)
            && (forall p :: Stands(rows.orders, t, p, o) ==>
                  && TurnStart(rows, t).Some? && FactionOf(rows, p).Some?
                  && OwnsRegion(TurnStart(rows, t).value, FactionOf(rows, p).value, o.unit))
  {
    RealMatchIsFair(setup, adj, homes);
    RunsKeepInvariant(setup, events);
    var w := Reached(setup, events);
    StandingOrdersDoNotClash(setup, w, t);
    EffectiveFromExact(w.rows.orders, t, Ascending(Submitters(w.rows.orders, t)), o);
    forall p | Stands(w.rows.orders, t, p, o)
      ensures p in Ascending(Submitters(w.rows.orders, t))
      ensures TurnStart(w.rows, t).Some? && FactionOf(w.rows, p).Some? && OwnsRegion(TurnStart(w.rows, t).value, FactionOf(w.rows, p).value, o.unit)
    {
      assert Latest(w.rows.orders, p, t).value in w.rows.orders;
      if w.rows.state.status != Lobby { StandingOrdersAreOwn(setup, w.rows, t, p, o); }
    }
  }

  lemma StandingOrdersDoNotClash(setup: Setup, w: World, t: int)
    requires Inv(setup, w)
    ensures NoClashes(w.rows.orders, t)
  {
    var rows := w.rows;
    if rows.state.status != Lobby {
      forall p, q, o, u | Stands(rows.orders, t, p, o) && Stands(rows.orders, t, q, u) && o.unit == u.unit
        ensures p == q && o == u
      {
        StandingOrdersAreOwn(setup, rows, t, p, o);
        StandingOrdersAreOwn(setup, rows, t, q, u);
        RecordedBoardIsLegal(setup, rows, t);
        OwnersDiffer(setup, rows, TurnStart(rows, t).value, p, q, o.unit);
      }
      forall p | Register(rows.orders, p, t).Some?
        ensures forall i, j :: 0 <= i < j < |Register(rows.orders, p, t).value| ==>
                  Register(rows.orders, p, t).value[i].unit != Register(rows.orders, p, t).value[j].unit
      {
        assert GoodOrder(rows, Latest(rows.orders, p, t).value);
      }
    } else {
      assert forall p :: Register(rows.orders, p, t).None?;
    }
  }

  lemma RecordedBoardIsLegal(setup: Setup, rows: Rows, t: int)
    requires GoodRows(setup, rows.results) && TurnStart(rows, t).Some?
    ensures LegalBoard(TurnStart(rows, t).value)
  {
    var row := FindRow(rows.results, t, Phase.Orders).value;
    var i :| 0 <= i < |rows.results| && rows.results[i] == row;
    assert GoodRow(setup, rows.results, i);
  }
}
