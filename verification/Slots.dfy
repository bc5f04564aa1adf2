/** The revision log of every run as an abstract register: one slot for each player and turn. */
module Slots {
  import opened Ordering
  import opened Board
  import opened Adjustment
  import opened Store
  import opened OrderDesk
  import opened Match
  import opened Invariant
  import opened Steps
  import opened Runs

  /** The newest revision heard of, and the orders in force. */
  datatype Slot = Slot(newest: Option<int>, orders: Option<seq<Order>>)

  /** The desk listens to `p` about turn `t`. */
  ghost predicate Listens(w: World, p: Id, t: int) {
    FactionOf(w.rows, p).Some? && w.rows.state.phase == Phase.Orders && w.rows.state.turn == t
  }

  ghost predicate ValidOnTurnStart(w: World, p: Id, orders: seq<Order>) {
    && TurnStart(w.rows, w.rows.state.turn).Some? && FactionOf(w.rows, p).Some?
    && ValidOrders(TurnStart(w.rows, w.rows.state.turn).value, FactionOf(w.rows, p).value, orders)
  }

  function Newer(newest: Option<int>, revision: int): bool {
    newest.Some? ==> newest.value < revision
  }

  /** What one event does to the slot of player `p` for turn `t`. */
  ghost function AfterEvent(slot: Slot, w: World, e: Event, p: Id, t: int): Slot {
    match e
    case Submitting(player, revision, orders) =>
      if player == p && Listens(w, p, t) && Newer(slot.newest, revision)
      then Slot(Some(revision), if ValidOnTurnStart(w, p, orders) then Some(orders) else None)
      else slot
    case Cancelling(player, revision) =>
      if player == p && Listens(w, p, t)
      then Slot(if Newer(slot.newest, revision) then Some(revision) else slot.newest, None)
      else slot
    case _ => slot
  }

  /** The slot after a whole run. */
  ghost function SlotOf(setup: Setup, events: seq<Event>, p: Id, t: int): Slot {
    if events == [] then Slot(None, None) else
      var front := events[..|events| - 1];
      AfterEvent(SlotOf(setup, front, p, t), Reached(setup, front), events[|events| - 1], p, t)
  }

  /** The log reads as the slot. */
  ghost predicate Reads(orders: map<OrderKey, OrderRow>, p: Id, t: int, slot: Slot) {
    NewestRevision(orders, p, t) == slot.newest && Register(orders, p, t) == slot.orders
  }

  /** In the orders phase submissions are validated against the turn's starting board. */
  lemma ValidatedOnTurnStart(setup: Setup, w: World, p: Id, orders: seq<Order>)
    requires Inv(setup, w) && w.rows.state.phase == Phase.Orders
    ensures CurrentBoard(w.rows).Some? && SubmissionValid(w.rows, p, orders) == ValidOnTurnStart(w, p, orders)
  {
  }

  lemma RecordedWhenNewer(orders: map<OrderKey, OrderRow>, p: Id, t: int, revision: int)
    ensures (forall r :: OrderKey(p, t, r) in orders ==> r < revision) <==> Newer(NewestRevision(orders, p, t), revision)
  {
    var latest := Latest(orders, p, t);
    if latest.Some? {
      assert latest.value == OrderKey(p, t, latest.value.revision);
    }
  }

  lemma SubmitMovesSlot(rows: Rows, player: Id, revision: int, orders: seq<Order>, valid: bool, p: Id, t: int, slot: Slot)
    requires Reads(rows.orders, p, t, slot)
    ensures Reads(AfterSubmit(rows, player, revision, orders, valid).orders, p, t,
                  if player == p && FactionOf(rows, p).Some? && rows.state.phase == Phase.Orders && rows.state.turn == t &&
                     Newer(slot.newest, revision)
                  then Slot(Some(revision), if valid then Some(orders) else None) else slot)
  {
    SubmitMovesNewest(rows, player, revision, orders, valid, p, t);
    SubmitWritesRegister(rows, player, revision, orders, valid, p, t);
    RecordedWhenNewer(rows.orders, p, t, revision);
  }

  lemma CancelMovesSlot(rows: Rows, player: Id, revision: int, p: Id, t: int, slot: Slot)
    requires Reads(rows.orders, p, t, slot)
    ensures Reads(AfterCancel(rows, player, revision).orders, p, t,
                  if player == p && FactionOf(rows, p).Some? && rows.state.phase == Phase.Orders && rows.state.turn == t
                  then Slot(if Newer(slot.newest, revision) then Some(revision) else slot.newest, None) else slot)
  {
    CancelMovesNewest(rows, player, revision, p, t);
    CancelEmptiesRegister(rows, player, revision, p, t);
  }

  lemma OthersKeepOrders(setup: Setup, w: World, e: Event)
    requires !e.Submitting? && !e.Cancelling?
    ensures Step(setup, w, e).rows.orders == w.rows.orders
  {
    if !e.Joining? && !e.Restarting? { OthersLeaveDesk(setup, w, e); }
  }

  lemma SubmittingMovesSlot(setup: Setup, w: World, player: Id, revision: int, orders: seq<Order>, p: Id, t: int, slot: Slot)
    requires Inv(setup, w) && Reads(w.rows.orders, p, t, slot)
    ensures Reads(Submit(w, player, revision, orders).rows.orders, p, t, AfterEvent(slot, w, Submitting(player, revision, orders), p, t))
  {
    SubmitMovesSlot(w.rows, player, revision, orders, SubmissionValid(w.rows, player, orders), p, t, slot);
    if w.rows.state.phase == Phase.Orders { ValidatedOnTurnStart(setup, w, player, orders); }
  }

  lemma EventMovesSlot(setup: Setup, w: World, e: Event, p: Id, t: int, slot: Slot)
    requires Inv(setup, w) && Reads(w.rows.orders, p, t, slot)
    ensures Reads(Step(setup, w, e).rows.orders, p, t, AfterEvent(slot, w, e, p, t))
  {
    match e
    case Submitting(player, revision, orders) => SubmittingMovesSlot(setup, w, player, revision, orders, p, t, slot);
    case Cancelling(player, revision) => CancelMovesSlot(w.rows, player, revision, p, t, slot);
    case _ => OthersKeepOrders(setup, w, e);
  }

  /** In every reached world the log of revisions reads, for every player and turn, as the slot that the
      run's submissions and cancellations fill and empty. */
  lemma {:induction false} LogIsRegister(setup: Setup, adj: Adjacency, homes: HomeCenters, events: seq<Event>, p: Id, t: int)
    requires RealMatch(setup, adj, homes)
    ensures Reads(Reached(setup, events).rows.orders, p, t, SlotOf(setup, events, p, t))
    decreases |events|
  {
    if events != [] {
      var front := events[..|events| - 1];
      LogIsRegister(setup, adj, homes, front, p, t);
      RealMatchIsFair(setup, adj, homes);
      RunsKeepInvariant(setup, front);
      EventMovesSlot(setup, Reached(setup, front), events[|events| - 1], p, t, SlotOf(setup, front, p, t));
    }
  }
}
