/** What is written and sent in any run, in terms of the boards and the orders alone: how the board after
    an orders phase comes from the one before, how a record begins, and what each broadcast carries. */
module Records {
  import opened Ordering
  import opened Board
  import opened Adjudication
  import opened MovementTheorems
  import opened Retreats
  import opened Adjustment
  import opened Canonical
  import opened Verification
  import opened Phases
  import opened Store
  import opened OrderDesk
  import opened Match
  import opened Invariant
  import opened Steps
  import opened Runs

  // ---------------------------------------------------------------- from one orders row to the next

  /** Some report leaves its unit standing as `u`. */
  ghost predicate Stays(reports: seq<UnitOrderResult>, u: Unit) {
    exists i :: 0 <= i < |reports| && StandsAs(reports[i], u)
  }

  /** `r` is a centre with a unit of faction `f` on it. */
  ghost predicate Holds(board: GameState, f: Id, r: Id) {
    r in board.regions && board.regions[r].isSupplyCenter &&
    exists u :: u in board.units && u.regionId == r && u.factionId == f
  }

  /** Every centre with a unit on it is that unit's faction's, and every other region is whose it was. */
  ghost predicate CentresFollow(before: GameState, after: GameState) {
    && (forall f, r :: Holds(after, f, r) ==> r in after.supplyCenters && after.supplyCenters[r] == f)
    && (forall r :: (forall f :: !Holds(after, f, r)) ==>
          (r in after.supplyCenters <==> r in before.supplyCenters) &&
          (r in after.supplyCenters ==> after.supplyCenters[r] == before.supplyCenters[r]))
  }

  /** `after` is `before` with each unit once where its report leaves it, the dislodged ones gone, and the
      centres with their occupiers; nothing else is different. */
  ghost predicate PlayedOut(before: GameState, reports: seq<UnitOrderResult>, after: GameState) {
    && after == before.(units := after.units, supplyCenters := after.supplyCenters)
    && (forall u :: multiset(after.units)[u] == if Stays(reports, u) then 1 else 0)
    && CentresFollow(before, after)
  }

  lemma {:induction false} OnceEach(units: seq<Unit>, u: Unit)
    requires DistinctRegions(units)
    ensures multiset(units)[u] == if u in units then 1 else 0
  {
    if units != [] {
      assert units == [units[0]] + units[1..];
      OnceEach(units[1..], u);
    }
  }

  lemma OwnershipByOccupation(state: GameState)
    requires DistinctRegions(state.units)
    ensures CentresFollow(state, UpdateOwnership(state))
  {
    var after := UpdateOwnership(state);
    OwnershipTouchesOnlyOwners(state);
    forall r ensures (forall f :: !Holds(after, f, r)) ==>
        (r in after.supplyCenters <==> r in state.supplyCenters) &&
        (r in after.supplyCenters ==> after.supplyCenters[r] == state.supplyCenters[r])
    {
      OwnershipFollowsOccupation(state, r);
      if (forall f :: !Holds(after, f, r)) && IsCenter(state, r) {
        forall u | u in state.units ensures u.regionId != r {
          assert !Holds(after, u.factionId, r);
        }
      }
    }
    forall f, r | Holds(after, f, r) ensures r in after.supplyCenters && after.supplyCenters[r] == f {
      OwnershipFollowsOccupation(state, r);
    }
  }

  lemma OrdersPlayOut(adj: Adjacency, pre: GameState, orders: map<Id, Order>)
    requires LegalBoard(pre)
    ensures PlayedOut(pre, MovementOutcome(adj, pre, orders).unitResults, AfterOrders(adj, pre, orders))
  {
    var result := MovementOutcome(adj, pre, orders);
    var post := ApplyMovement(pre, result);
    MovementTouchesOnlyUnits(pre, result);
    OwnershipTouchesOnlyOwners(post);
    MovementKeepsBoard(adj, pre, orders);
    OwnershipByOccupation(post);
    forall u ensures multiset(post.units)[u] == if Stays(result.unitResults, u) then 1 else 0 {
      OnceEach(post.units, u);
      UnitsAfterMovement(pre, result, u);
    }
  }

  lemma SameHolds(s: GameState, t: GameState)
    requires SameBoard(s, t)
    ensures forall f, r :: Holds(s, f, r) <==> Holds(t, f, r)
  {
    SameElements(s.units, t.units);
  }

  lemma PlayedOutAsStored(before: GameState, reports: seq<UnitOrderResult>, after: GameState, stored: GameState)
    requires PlayedOut(before, reports, after) && SameBoard(after, stored)
    ensures PlayedOut(before, reports, stored)
  {
    SameHolds(after, stored);
    forall r | forall f :: !Holds(stored, f, r)
      ensures (r in stored.supplyCenters <==> r in before.supplyCenters) &&
              (r in stored.supplyCenters ==> stored.supplyCenters[r] == before.supplyCenters[r])
    {
      assert forall f :: !Holds(after, f, r);
    }
  }

  /** In every run: the board recorded after an orders phase is the recorded board before it, played out
      as the reports of the orders that count have it. */
  lemma OrdersRowsArePlayedOut(setup: Setup, adj: Adjacency, homes: HomeCenters, events: seq<Event>, i: nat)
    requires RealMatch(setup, adj, homes)
    requires i + 1 < |Reached(setup, events).rows.results| && Reached(setup, events).rows.results[i].phase == Phase.Orders
    ensures var rows := Reached(setup, events).rows;
            var before, after := Decode(rows.results[i].canon), Decode(rows.results[i + 1].canon);
            PlayedOut(before, MovementOutcome(adj, before, EffectiveOrders(rows.orders, rows.results[i].turn)).unitResults, after)
  {
    RealMatchIsFair(setup, adj, homes);
    RunsKeepInvariant(setup, events);
    var rows := Reached(setup, events).rows;
    assert GoodRow(setup, rows.results, i);
    var before, orders := Decode(rows.results[i].canon), EffectiveOrders(rows.orders, rows.results[i].turn);
    ReproducibleAt(setup, rows.orders, rows.results, i);
    OrdersPlayOut(adj, before, orders);
    DecodeCanonical(AfterOrders(adj, before, orders));
    PlayedOutAsStored(before, MovementOutcome(adj, before, orders).unitResults, AfterOrders(adj, before, orders),
                      Decode(rows.results[i + 1].canon));
  }

  // ---------------------------------------------------------------- how a record begins

  /** The first two rows of a started match: the initial board before the first turn's diplomacy, and
      again for its orders. */
  ghost predicate Begins(setup: Setup, results: seq<PhaseRow>) {
    && |results| >= 2
    && results[0].turn == 1 && results[0].phase == Phase.Diplomacy
    && results[1].turn == 1 && results[1].phase == Phase.Orders
    && SameBoard(Decode(results[0].canon), setup.initial) && SameBoard(Decode(results[1].canon), setup.initial)
  }

  lemma StartBegins(setup: Setup, w: World, now: real)
    requires FairSetup(setup) && Inv(setup, w) && w.rows.state.status == Lobby
    ensures var rows := StartMatch(setup, w, now).0.rows; rows.state.status != Lobby ==> Begins(setup, rows.results)
  {
    if |w.rows.players| == MAX_PLAYERS {
      StartWrites(setup, w, now);
      DecodeCanonical(setup.initial);
    }
  }

  lemma AdvanceAppends(setup: Setup, w: World, now: real)
    requires FairSetup(setup) && Inv(setup, w) && w.rows.state.status != Lobby
    ensures var v := AdvancePhase(setup, w, now).0;
            v.rows.state.status != Lobby && w.rows.results <= v.rows.results
  {
    AdvanceKeeps(setup, w, now);
    if w.rows.state.status == Active {
      ResolutionIsRight(setup, w);
      var (s, board) := Resolve(setup, w.rows).value;
      EntryKeeps(setup, w, s, board, now);
    }
  }

  lemma StartIsRefused(setup: Setup, w: World, now: real)
    requires w.rows.state.status != Lobby
    ensures StartMatch(setup, w, now).0 == w
  {
  }

  lemma AsideKeepsRows(setup: Setup, w: World, e: Event)
    requires !e.Starting? && !e.Advancing? && (e.Polling? ==> w.rows.state.status != Active || !Expired(w.rows, e.now))
    ensures var v := Step(setup, w, e);
            v.rows.results == w.rows.results && (v.rows.state.status == Lobby <==> w.rows.state.status == Lobby)
  {
  }

  lemma PollAppends(setup: Setup, w: World, now: real)
    requires FairSetup(setup) && Inv(setup, w) && w.rows.state.status != Lobby
    ensures var v := CheckDeadline(setup, w, now); v.rows.state.status != Lobby && w.rows.results <= v.rows.results
  {
    if w.rows.state.status == Active && Expired(w.rows, now) {
      AdvanceAppends(setup, w, now);
    }
  }

  lemma StepAppends(setup: Setup, w: World, e: Event)
    requires FairSetup(setup) && Inv(setup, w) && w.rows.state.status != Lobby
    ensures Step(setup, w, e).rows.state.status != Lobby && w.rows.results <= Step(setup, w, e).rows.results
  {
    match e
    case Starting(now) => StartIsRefused(setup, w, now);
    case Advancing(now) => AdvanceAppends(setup, w, now);
    case Polling(now) => PollAppends(setup, w, now);
    case _ => AsideKeepsRows(setup, w, e);
  }

  lemma StepBegins(setup: Setup, w: World, e: Event)
    requires FairSetup(setup) && Inv(setup, w) && (w.rows.state.status != Lobby ==> Begins(setup, w.rows.results))
    ensures Step(setup, w, e).rows.state.status != Lobby ==> Begins(setup, Step(setup, w, e).rows.results)
  {
    if w.rows.state.status != Lobby {
      StepAppends(setup, w, e);
    } else if e.Starting? {
      StartBegins(setup, w, e.now);
    } else if e.Advancing? {
      AdvanceKeeps(setup, w, e.now);
    } else {
      AsideKeepsRows(setup, w, e);
    }
  }

  /** In every run a started match's record begins with the initial board, before and for turn 1's orders;
      and nothing on record is ever changed or removed. */
  lemma {:induction false} RecordsBegin(setup: Setup, adj: Adjacency, homes: HomeCenters, events: seq<Event>)
    requires RealMatch(setup, adj, homes)
    ensures Reached(setup, events).rows.state.status != Lobby ==> Begins(setup, Reached(setup, events).rows.results)
    ensures events != [] ==> Reached(setup, events[..|events| - 1]).rows.results <= Reached(setup, events).rows.results
    decreases |events|
  {
    if events != [] {
      var front, e := events[..|events| - 1], events[|events| - 1];
      RecordsBegin(setup, adj, homes, front);
      RealMatchIsFair(setup, adj, homes);
      RunsKeepInvariant(setup, front);
      StepBegins(setup, Reached(setup, front), e);
      if Reached(setup, front).rows.state.status != Lobby {
        StepAppends(setup, Reached(setup, front), e);
      }
    }
  }

  // ---------------------------------------------------------------- what is sent

  /** The broadcast result carries what the row holds, with the turn as the year. */
  ghost predicate Carries(message: PhaseResult, row: PhaseRow) {
    && message.phase == row.phase && message.turn == row.turn && message.year == row.turn
    && message.payload == Packed(row.canon) && message.stateHash == row.stateHash
    && message.previous == row.previous && message.signature == row.signature
  }

  /** The row's hash chains its board to the row before, and the row's signature is of that hash. */
  ghost predicate ChainedTo(setup: Setup, row: PhaseRow, previous: Option<Hash>) {
    && row.previous == previous
    && row.stateHash == Digest(previous, row.canon)
    && row.signature == Signed(setup.key, row.stateHash)
  }

  /** In every run of a started match: the start message carries row 0, the i-th result row i + 1, no row
      is left unsent, and each row is hashed onto the one before and signed. */
  lemma EveryRowIsSent(setup: Setup, adj: Adjacency, homes: HomeCenters, events: seq<Event>)
    requires RealMatch(setup, adj, homes) && Reached(setup, events).rows.state.status != Lobby
    ensures var w := Reached(setup, events);
            var rows := w.rows.results;
            && |w.results| + 1 == |rows|
            && w.start == Some(MatchStart(Packed(rows[0].canon), rows[0].stateHash, rows[0].signature))
            && (forall i :: 0 <= i < |w.results| ==> Carries(w.results[i], rows[i + 1]))
            && ChainedTo(setup, rows[0], None)
            && (forall i :: 0 < i < |rows| ==> ChainedTo(setup, rows[i], Some(rows[i - 1].stateHash)))
  {
    RealMatchIsFair(setup, adj, homes);
    RunsKeepInvariant(setup, events);
    var w := Reached(setup, events);
    var rows := w.rows.results;
    forall i | 0 <= i < |w.results| ensures Carries(w.results[i], rows[i + 1]) {
      assert w.results[i] == MessageOf(rows[i + 1], rows[i + 1].turn);
    }
    assert GoodRow(setup, rows, 0);
    forall i | 0 < i < |rows| ensures ChainedTo(setup, rows[i], Some(rows[i - 1].stateHash)) {
      assert GoodRow(setup, rows, i);
    }
  }
}
