/** Runs in which a documented promise fails, with the exact condition under which it does. */
module Counterexamples {
  import opened Ordering
  import opened Board
  import opened Adjustment
  import opened Canonical
  import opened Phases
  import opened Store
  import opened OrderDesk
  import opened Match
  import opened Invariant
  import opened Steps
  import opened Runs
  import opened Clock

  lemma OneMore(setup: Setup, events: seq<Event>, e: Event)
    ensures Reached(setup, events + [e]) == Step(setup, Reached(setup, events), e)
  {
    assert (events + [e])[..|events|] == events;
  }

  // ---------------------------------------------------------------- a match that starts

  function Joins(players: seq<Id>): seq<Event> {
    seq(|players|, i requires 0 <= i < |players| => Joining(players[i], 0, 0.0))
  }

  lemma JoinsGrow(players: seq<Id>, p: Id)
    ensures Joins(players + [p]) == Joins(players) + [Joining(p, 0, 0.0)]
  {
  }

  lemma {:induction false} TakenAtMost(players: seq<PlayerRow>)
    ensures |Taken(players)| <= |players|
    decreases |players|
  {
    if players != [] {
      var front, last := players[..|players| - 1], players[|players| - 1];
      TakenAtMost(front);
      assert players == front + [last];
      assert Taken(players) == Taken(front) + {last.factionId};
    }
  }

  lemma SomethingIsFree(all: set<Id>, taken: set<Id>)
    requires |taken| < |all|
    ensures all - taken != {}
  {
    assert forall x :: x in all ==> x in all - taken || x in taken;
    if all - taken == {} {
      SubsetSize(all, taken);
    }
  }

  /** The lobby holds exactly the given players, in order, and has heard of nobody else. */
  ghost predicate Seated(w: World, players: seq<Id>) {
    && w.rows.state == FRESH && |w.rows.players| == |players|
    && (forall i :: 0 <= i < |players| ==> w.rows.players[i].publicKey == players[i])
    && (forall p :: p in w.attempts ==> p in players)
  }

  lemma SeatOneMore(setup: Setup, w: World, players: seq<Id>, p: Id)
    requires Seated(w, players) && p !in players && |players| < MAX_PLAYERS <= |setup.initial.factions|
    ensures Seated(Join(setup, w, p, 0, 0.0), players + [p])
  {
    FactionFound(w.rows.players, p);
    TakenAtMost(w.rows.players);
    assert |setup.initial.factions.Keys| == |setup.initial.factions|;
    SomethingIsFree(setup.initial.factions.Keys, Taken(w.rows.players));
    assert |Available(setup, w.rows)| > 0;
  }

  lemma {:induction false} EveryoneIsSeated(setup: Setup, players: seq<Id>)
    requires NoDuplicates(players) && |players| <= MAX_PLAYERS <= |setup.initial.factions|
    ensures Seated(Reached(setup, Joins(players)), players)
    decreases |players|
  {
    if players != [] {
      var front, last := players[..|players| - 1], players[|players| - 1];
      assert players == front + [last];
      EveryoneIsSeated(setup, front);
      JoinsGrow(front, last);
      OneMore(setup, Joins(front), Joining(last, 0, 0.0));
      SeatOneMore(setup, Reached(setup, Joins(front)), front, last);
    }
  }

  function Opening(players: seq<Id>, now: real): seq<Event> {
    Joins(players) + [Starting(now)]
  }

  /** Seven players joining a lobby with seven factions and the operator starting it open turn 1's orders. */
  lemma OpeningStarts(setup: Setup, adj: Adjacency, homes: HomeCenters, players: seq<Id>, now: real)
    requires RealMatch(setup, adj, homes)
    requires NoDuplicates(players) && |players| == MAX_PLAYERS <= |setup.initial.factions|
    ensures var rows := Reached(setup, Opening(players, now)).rows;
            && rows.state == MatchState(Active, Phase.Orders, 1, 1) && rows.orders == map[]
            && forall p :: p in players ==> FactionOf(rows, p).Some?
  {
    EveryoneIsSeated(setup, players);
    RealMatchIsFair(setup, adj, homes);
    RunsKeepInvariant(setup, Joins(players));
    var w := Reached(setup, Joins(players));
    OneMore(setup, Joins(players), Starting(now));
    StartWrites(setup, w, now);
    forall p | p in players ensures FactionOf(w.rows, p).Some? {
      FactionFound(w.rows.players, p);
    }
  }

  // ---------------------------------------------------------------- a rejection that supersedes

  /** In every run: a submission takes an accepted one out of force exactly when it comes in the orders
      phase with a higher revision and orders that are not valid on the turn's starting board. */
  lemma RejectionHidesExactly(setup: Setup, adj: Adjacency, homes: HomeCenters, events: seq<Event>, p: Id, revision: int, orders: seq<Order>)
    requires RealMatch(setup, adj, homes)
    requires Register(Reached(setup, events).rows.orders, p, Reached(setup, events).rows.state.turn).Some?
    ensures var rows := Reached(setup, events).rows;
            var after := Reached(setup, events + [Submitting(p, revision, orders)]).rows;
            && Latest(rows.orders, p, rows.state.turn).Some? && FactionOf(rows, p).Some? && TurnStart(rows, rows.state.turn).Some?
            && (Register(after.orders, p, rows.state.turn).None? <==>
                  && rows.state.phase == Phase.Orders && revision > Latest(rows.orders, p, rows.state.turn).value.revision
                  && !ValidOrders(TurnStart(rows, rows.state.turn).value, FactionOf(rows, p).value, orders))
  {
    RealMatchIsFair(setup, adj, homes);
    RunsKeepInvariant(setup, events);
    OneMore(setup, events, Submitting(p, revision, orders));
    RejectionInPlace(setup, Reached(setup, events), p, revision, orders);
  }

  lemma RejectionInPlace(setup: Setup, w: World, p: Id, revision: int, orders: seq<Order>)
    requires Inv(setup, w) && Register(w.rows.orders, p, w.rows.state.turn).Some?
    ensures var rows, after := w.rows, Submit(w, p, revision, orders).rows;
            && Latest(rows.orders, p, rows.state.turn).Some? && FactionOf(rows, p).Some? && TurnStart(rows, rows.state.turn).Some?
            && (Register(after.orders, p, rows.state.turn).None? <==>
                  && rows.state.phase == Phase.Orders && revision > Latest(rows.orders, p, rows.state.turn).value.revision
                  && !ValidOrders(TurnStart(rows, rows.state.turn).value, FactionOf(rows, p).value, orders))
  {
    assert GoodOrder(w.rows, Latest(w.rows.orders, p, w.rows.state.turn).value);
    RejectionHidesAcceptedOrders(w.rows, p, revision, orders, SubmissionValid(w.rows, p, orders));
  }

  /** In any match resting in its orders phase: an accepted submission followed by an invalid one with
      the next revision leaves the player with no orders at all. */
  lemma RejectionEmptiesSlot(setup: Setup, adj: Adjacency, homes: HomeCenters, events: seq<Event>,
                             p: Id, n: int, mine: seq<Order>, bad: seq<Order>)
    requires RealMatch(setup, adj, homes)
    requires Reached(setup, events).rows.state.phase == Phase.Orders
    requires SubmissionValid(Reached(setup, events).rows, p, mine) && !SubmissionValid(Reached(setup, events).rows, p, bad)
    requires forall r :: OrderKey(p, Reached(setup, events).rows.state.turn, r) in Reached(setup, events).rows.orders ==> r < n
    ensures var t := Reached(setup, events).rows.state.turn;
            var first, second := Submitting(p, n, mine), Submitting(p, n + 1, bad);
            && Register(Reached(setup, events + [first]).rows.orders, p, t) == Some(mine)
            && Register(Reached(setup, events + [first] + [second]).rows.orders, p, t) == None
  {
    var w := Reached(setup, events);
    OneMore(setup, events, Submitting(p, n, mine));
    OneMore(setup, events + [Submitting(p, n, mine)], Submitting(p, n + 1, bad));
    TwoSubmissions(w, p, n, mine, bad);
  }

  lemma TwoSubmissions(w: World, p: Id, n: int, mine: seq<Order>, bad: seq<Order>)
    requires w.rows.state.phase == Phase.Orders
    requires SubmissionValid(w.rows, p, mine) && !SubmissionValid(w.rows, p, bad)
    requires forall r :: OrderKey(p, w.rows.state.turn, r) in w.rows.orders ==> r < n
    ensures var u := Submit(w, p, n, mine);
            && Register(u.rows.orders, p, w.rows.state.turn) == Some(mine)
            && Register(Submit(u, p, n + 1, bad).rows.orders, p, w.rows.state.turn) == None
  {
    var t := w.rows.state.turn;
    var u := Submit(w, p, n, mine);
    SubmitWritesRegister(w.rows, p, n, mine, true, p, t);
    forall r | OrderKey(p, t, r) in u.rows.orders ensures r < n + 1 {
      assert OrderKey(p, t, r) in w.rows.orders || r == n;
    }
    assert SubmissionValid(u.rows, p, bad) == SubmissionValid(w.rows, p, bad);
    SubmitWritesRegister(u.rows, p, n + 1, bad, false, p, t);
  }

  lemma TwiceIsInvalid(rows: Rows, p: Id, r: Id)
    requires CurrentBoard(rows).Some? && FactionOf(rows, p).Some?
    ensures !SubmissionValid(rows, p, [Hold(r), Hold(r)])
  {
    var twice := [Hold(r), Hold(r)];
    assert twice[0].unit == twice[1].unit;
  }

  // ---------------------------------------------------------------- and what it costs

  /** While `p`'s slot is full its orders count. */
  lemma StandingCounts(setup: Setup, adj: Adjacency, homes: HomeCenters, events: seq<Event>, p: Id, t: int, o: Order)
    requires RealMatch(setup, adj, homes) && Stands(Reached(setup, events).rows.orders, t, p, o)
    ensures o.unit in EffectiveOrders(Reached(setup, events).rows.orders, t)
    ensures EffectiveOrders(Reached(setup, events).rows.orders, t)[o.unit] == o
  {
    EffectiveOrdersAreDisjointUnion(setup, adj, homes, events, t, o);
  }

  /** While it is empty no order counts for any unit of its faction. */
  lemma EmptySlotCountsNot(setup: Setup, adj: Adjacency, homes: HomeCenters, events: seq<Event>, p: Id, t: int, r: Id)
    requires RealMatch(setup, adj, homes)
    requires var rows := Reached(setup, events).rows;
             && Register(rows.orders, p, t).None? && rows.state.status != Lobby && FactionOf(rows, p).Some?
             && TurnStart(rows, t).Some? && OwnsRegion(TurnStart(rows, t).value, FactionOf(rows, p).value, r)
    ensures r !in EffectiveOrders(Reached(setup, events).rows.orders, t)
  {
    var w := Reached(setup, events);
    var effective := EffectiveOrders(w.rows.orders, t);
    if r in effective {
      EffectiveOrdersAreDisjointUnion(setup, adj, homes, events, t, effective[r]);
      var q :| Stands(w.rows.orders, t, q, effective[r]);
      RealMatchIsFair(setup, adj, homes);
      RunsKeepInvariant(setup, events);
      RecordedBoardIsLegal(setup, w.rows, t);
      OwnersDiffer(setup, w.rows, TurnStart(w.rows, t).value, p, q, r);
    }
  }

  lemma SubmissionsLeaveRecord(w: World, p: Id, revision: int, orders: seq<Order>)
    ensures Submit(w, p, revision, orders).rows == w.rows.(orders := Submit(w, p, revision, orders).rows.orders)
  {
  }

  /** In any match resting in its orders phase: each order of the accepted submission counts, and after
      the invalid one none of them does. */
  lemma RejectionLosesOrders(setup: Setup, adj: Adjacency, homes: HomeCenters, events: seq<Event>,
                             p: Id, n: int, mine: seq<Order>, bad: seq<Order>, o: Order)
    requires RealMatch(setup, adj, homes) && o in mine
    requires Reached(setup, events).rows.state.phase == Phase.Orders
    requires SubmissionValid(Reached(setup, events).rows, p, mine) && !SubmissionValid(Reached(setup, events).rows, p, bad)
    requires forall r :: OrderKey(p, Reached(setup, events).rows.state.turn, r) in Reached(setup, events).rows.orders ==> r < n
    ensures var t := Reached(setup, events).rows.state.turn;
            var first, second := Submitting(p, n, mine), Submitting(p, n + 1, bad);
            && o.unit in EffectiveOrders(Reached(setup, events + [first]).rows.orders, t)
            && EffectiveOrders(Reached(setup, events + [first]).rows.orders, t)[o.unit] == o
            && o.unit !in EffectiveOrders(Reached(setup, events + [first] + [second]).rows.orders, t)
  {
    var w := Reached(setup, events);
    var t := w.rows.state.turn;
    var first, second := Submitting(p, n, mine), Submitting(p, n + 1, bad);
    RejectionEmptiesSlot(setup, adj, homes, events, p, n, mine, bad);
    StandingCounts(setup, adj, homes, events + [first], p, t, o);
    OneMore(setup, events, first);
    OneMore(setup, events + [first], second);
    SubmissionsLeaveRecord(w, p, n, mine);
    SubmissionsLeaveRecord(Reached(setup, events + [first]), p, n + 1, bad);
    AcceptedIsOwned(setup, adj, homes, events, p, mine, o);
    EmptySlotCountsNot(setup, adj, homes, events + [first] + [second], p, t, o.unit);
  }

  lemma AcceptedIsOwned(setup: Setup, adj: Adjacency, homes: HomeCenters, events: seq<Event>, p: Id, mine: seq<Order>, o: Order)
    requires RealMatch(setup, adj, homes) && o in mine
    requires Reached(setup, events).rows.state.phase == Phase.Orders && SubmissionValid(Reached(setup, events).rows, p, mine)
    ensures var rows := Reached(setup, events).rows;
            && rows.state.status != Lobby && TurnStart(rows, rows.state.turn).Some? && FactionOf(rows, p).Some?
            && OwnsRegion(TurnStart(rows, rows.state.turn).value, FactionOf(rows, p).value, o.unit)
  {
    RealMatchIsFair(setup, adj, homes);
    RunsKeepInvariant(setup, events);
    var i :| 0 <= i < |mine| && mine[i] == o;
  }

  /** Such runs exist for every match: right after the opening, an accepted order for a unit of the
      player's faction counts, until ordering one region twice takes it out of force. */
  lemma RejectionHappens(setup: Setup, adj: Adjacency, homes: HomeCenters, players: seq<Id>, now: real, p: Id, o: Order)
    requires RealMatch(setup, adj, homes) && p in players
    requires NoDuplicates(players) && |players| == MAX_PLAYERS <= |setup.initial.factions|
    requires var rows := Reached(setup, Opening(players, now)).rows;
             FactionOf(rows, p).Some? && OwnsRegion(setup.initial, FactionOf(rows, p).value, o.unit)
    ensures var first, second := Submitting(p, 1, [o]), Submitting(p, 2, [Hold(o.unit), Hold(o.unit)]);
            && o.unit in EffectiveOrders(Reached(setup, Opening(players, now) + [first]).rows.orders, 1)
            && EffectiveOrders(Reached(setup, Opening(players, now) + [first]).rows.orders, 1)[o.unit] == o
            && o.unit !in EffectiveOrders(Reached(setup, Opening(players, now) + [first] + [second]).rows.orders, 1)
  {
    OpeningStarts(setup, adj, homes, players, now);
    OpeningBoard(setup, adj, homes, players, now);
    var rows := Reached(setup, Opening(players, now)).rows;
    OwnedOnSameBoard(setup.initial, CurrentBoard(rows).value, FactionOf(rows, p).value, o.unit);
    TwiceIsInvalid(rows, p, o.unit);
    RejectionLosesOrders(setup, adj, homes, Opening(players, now), p, 1, [o], [Hold(o.unit), Hold(o.unit)], o);
  }

  /** Such an order exists when every faction starts with a unit, as on the game's own map. */
  lemma SomethingToOrder(setup: Setup, adj: Adjacency, homes: HomeCenters, players: seq<Id>, now: real, p: Id) returns (o: Order)
    requires RealMatch(setup, adj, homes) && p in players
    requires NoDuplicates(players) && |players| == MAX_PLAYERS <= |setup.initial.factions|
    requires forall f :: f in setup.initial.factions ==> exists u :: u in setup.initial.units && u.factionId == f
    ensures FactionOf(Reached(setup, Opening(players, now)).rows, p).Some?
    ensures OwnsRegion(setup.initial, FactionOf(Reached(setup, Opening(players, now)).rows, p).value, o.unit)
  {
    OpeningStarts(setup, adj, homes, players, now);
    RealMatchIsFair(setup, adj, homes);
    RunsKeepInvariant(setup, Opening(players, now));
    var rows := Reached(setup, Opening(players, now)).rows;
    FactionFound(rows.players, p);
    var f := FactionOf(rows, p).value;
    assert f in setup.initial.factions;
    var u :| u in setup.initial.units && u.factionId == f;
    o := Hold(u.regionId);
  }

  lemma OwnedOnSameBoard(s: GameState, t: GameState, f: Id, r: Id)
    requires SameBoard(s, t) && OwnsRegion(s, f, r)
    ensures OwnsRegion(t, f, r)
  {
    SameElements(s.units, t.units);
    var i :| 0 <= i < |s.units| && s.units[i].factionId == f && s.units[i].regionId == r;
    assert s.units[i] in t.units;
  }

  lemma OpeningBoard(setup: Setup, adj: Adjacency, homes: HomeCenters, players: seq<Id>, now: real)
    requires RealMatch(setup, adj, homes)
    requires NoDuplicates(players) && |players| == MAX_PLAYERS <= |setup.initial.factions|
    ensures var board := CurrentBoard(Reached(setup, Opening(players, now)).rows);
            board.Some? && SameBoard(setup.initial, board.value)
  {
    EveryoneIsSeated(setup, players);
    RealMatchIsFair(setup, adj, homes);
    RunsKeepInvariant(setup, Joins(players));
    OneMore(setup, Joins(players), Starting(now));
    StartWrites(setup, Reached(setup, Joins(players)), now);
    DecodeCanonical(setup.initial);
    var genesis := GenesisRow(setup, MatchState(Active, Phase.Diplomacy, 1, 1));
    FindRowAppend([genesis], NewRow(setup, [genesis], 1, Phase.Orders, setup.initial), 1, Phase.Orders);
  }

  // ---------------------------------------------------------------- two clocks at once

  lemma PauseSetsRemainder(w: World, t: real)
    requires Timed(w.rows) && w.rows.state.status == Active
    ensures PauseMatch(w, t).rows.state.status == Active && PauseMatch(w, t).rows.paused.Some? && Timed(PauseMatch(w, t).rows)
  {
  }

  lemma AdvanceInPause(setup: Setup, w: World, u: real)
    requires FairSetup(setup) && Inv(setup, w) && Timed(w.rows)
    requires w.rows.state.status == Active && w.rows.paused.Some?
    ensures BothSet(Step(setup, w, Advancing(u)).rows)
  {
    BothSetExactly(setup, w, Advancing(u));
  }

  /** Every active match can be brought, by a pause and an advance, to where both the deadline and the
      paused remainder are set. */
  lemma PausedAdvanceSetsBoth(setup: Setup, adj: Adjacency, homes: HomeCenters, events: seq<Event>, t: real, u: real)
    requires RealMatch(setup, adj, homes) && Reached(setup, events).rows.state.status == Active
    ensures BothSet(Reached(setup, events + [Pausing(t)] + [Advancing(u)]).rows)
  {
    RealMatchIsFair(setup, adj, homes);
    EveryRunIsTimed(setup, events);
    PauseSetsRemainder(Reached(setup, events), t);
    RunsKeepInvariant(setup, events + [Pausing(t)]);
    OneMore(setup, events, Pausing(t));
    AdvanceInPause(setup, Reached(setup, events + [Pausing(t)]), u);
    OneMore(setup, events + [Pausing(t)], Advancing(u));
  }

  /** Such runs exist for every match. */
  lemma BothSetHappens(setup: Setup, adj: Adjacency, homes: HomeCenters, players: seq<Id>, now: real, t: real, u: real)
    requires RealMatch(setup, adj, homes)
    requires NoDuplicates(players) && |players| == MAX_PLAYERS <= |setup.initial.factions|
    ensures BothSet(Reached(setup, Opening(players, now) + [Pausing(t)] + [Advancing(u)]).rows)
  {
    OpeningStarts(setup, adj, homes, players, now);
    PausedAdvanceSetsBoth(setup, adj, homes, Opening(players, now), t, u);
  }
}
