/** Order intake: revisions, receipts, cancellation, and the orders that count. */
module OrderDesk {
  import opened Ordering
  import opened Board
  import opened Canonical
  import opened Store

  datatype Receipt = Receipt(revision: int, status: OrderStatus) | IntegrityError

  // ---------------------------------------------------------------- what each request does to the rows

  function AfterSubmit(rows: Rows, player: Id, revision: int, orders: seq<Order>, valid: bool): Rows {
    var turn := rows.state.turn;
    var previous := Latest(rows.orders, player, turn);
    if FactionOf(rows, player).None? || rows.state.phase != Phase.Orders then rows
    else if previous.Some? && revision <= previous.value.revision then rows
    else
      var superseded := if valid && previous.Some? then SetStatus(rows.orders, previous.value, Superseded) else rows.orders;
      var row := OrderRow(EncodeOrders(orders), if valid then Accepted else Rejected);
      rows.(orders := superseded[OrderKey(player, turn, revision) := row])
  }

  /** Cancelling does not compare revisions: only an existing row for the same revision is refused,
      after the latest one has already been superseded. */
  function AfterCancel(rows: Rows, player: Id, revision: int): Rows {
    var turn := rows.state.turn;
    var previous := Latest(rows.orders, player, turn);
    if FactionOf(rows, player).None? || rows.state.phase != Phase.Orders then rows else
      var superseded := if previous.Some? && rows.orders[previous.value].status == Accepted
                        then SetStatus(rows.orders, previous.value, Superseded) else rows.orders;
      var key := OrderKey(player, turn, revision);
      rows.(orders := if key in superseded then superseded else superseded[key := OrderRow([], Superseded)])
  }

  method HandleOrderSubmit(store: MatchStore, board: GameState, player: Id, revision: int, orders: seq<Order>)
    returns (receipt: Receipt, ghost valid: bool)
    modifies store`orders
    ensures FactionOf(old(store.View()), player).Some? ==>
              (valid <==> ValidOrders(board, FactionOf(old(store.View()), player).value, orders))
    ensures store.View() == AfterSubmit(old(store.View()), player, revision, orders, valid)
    ensures receipt.Receipt? && receipt.revision == revision
    ensures receipt.status == Accepted || receipt.status == Rejected
    ensures receipt.status == Accepted <==>
              && FactionOf(old(store.View()), player).Some? && old(store.state.phase) == Phase.Orders
              && (forall r :: OrderKey(player, old(store.state.turn), r) in old(store.orders) ==> r < revision)
              && valid
  {
    var faction := FactionOf(store.View(), player);
    valid := faction.Some? && ValidOrders(board, faction.value, orders);
    if faction.None? || store.state.phase != Phase.Orders {
      return Receipt(revision, Rejected), valid;
    }
    var turn := store.state.turn;
    var previous := Latest(store.orders, player, turn);
    if previous.Some? && revision <= previous.value.revision {
      return Receipt(revision, Rejected), valid;
    }
    var errors := ValidateOrders(board, faction.value, orders);
    var status := if errors != [] then Rejected else Accepted;
    if status == Accepted && previous.Some? {
      var updated := store.UpdateOrderStatus(previous.value, Superseded);
    }
    var ok := store.RecordOrderSubmission(OrderKey(player, turn, revision), OrderRow(EncodeOrders(orders), status));
    assert ok;
    receipt := Receipt(revision, status);
  }

  method HandleOrderCancel(store: MatchStore, player: Id, revision: int) returns (receipt: Receipt)
    modifies store`orders
    ensures store.View() == AfterCancel(old(store.View()), player, revision)
    ensures receipt == (
      if FactionOf(old(store.View()), player).None? || old(store.state.phase) != Phase.Orders then Receipt(revision, Rejected)
      else if OrderKey(player, old(store.state.turn), revision) in old(store.orders) then IntegrityError
      else Receipt(revision, Superseded))
  {
    var faction := FactionOf(store.View(), player);
    if faction.None? || store.state.phase != Phase.Orders {
      return Receipt(revision, Rejected);
    }
    var turn := store.state.turn;
    var previous := Latest(store.orders, player, turn);
    if previous.Some? && store.orders[previous.value].status == Accepted {
      var updated := store.UpdateOrderStatus(previous.value, Superseded);
    }
    var ok := store.RecordOrderSubmission(OrderKey(player, turn, revision), OrderRow([], Superseded));
    receipt := if ok then Receipt(revision, Superseded) else IntegrityError;
  }

  // ---------------------------------------------------------------- the orders that count

  function Overlay(m: map<Id, Order>, orders: seq<Order>): map<Id, Order> {
    if orders == [] then m else
      var last := orders[|orders| - 1];
      Overlay(m, orders[..|orders| - 1])[last.unit := last]
  }

  /** The orders of the player's newest revision for the turn, if it was accepted and still stands. */
  function Register(orders: map<OrderKey, OrderRow>, player: Id, turn: int): Option<seq<Order>> {
    var latest := Latest(orders, player, turn);
    if latest.Some? && orders[latest.value].status == Accepted then DecodeOrders(orders[latest.value].orders) else None
  }

  function EffectiveFrom(orders: map<OrderKey, OrderRow>, turn: int, players: seq<Id>): map<Id, Order> {
    if players == [] then map[] else
      var before := EffectiveFrom(orders, turn, players[..|players| - 1]);
      match Register(orders, players[|players| - 1], turn)
      case None => before
      case Some(mine) => Overlay(before, mine)
  }

  function EffectiveOrders(orders: map<OrderKey, OrderRow>, turn: int): map<Id, Order> {
    EffectiveFrom(orders, turn, Ascending(Submitters(orders, turn)))
  }

  /** Stored order rows decode: they were encoded by the desk. */
  ghost predicate Readable(orders: map<OrderKey, OrderRow>) {
    forall k :: k in orders ==> DecodeOrders(orders[k].orders).Some?
  }

  lemma EffectiveFromGrows(orders: map<OrderKey, OrderRow>, turn: int, players: seq<Id>, i: nat)
    requires i < |players|
    ensures EffectiveFrom(orders, turn, players[..i + 1]) ==
            match Register(orders, players[i], turn)
            case None => EffectiveFrom(orders, turn, players[..i])
            case Some(mine) => Overlay(EffectiveFrom(orders, turn, players[..i]), mine)
  {
    assert players[..i + 1][..i] == players[..i];
  }

  method GetEffectiveOrders(store: MatchStore, turn: int) returns (effective: map<Id, Order>)
    requires Readable(store.orders)
    ensures effective == EffectiveOrders(store.orders, turn)
  {
    effective := map[];
    var players := Ascending(Submitters(store.orders, turn));
    for i := 0 to |players|
      invariant effective == EffectiveFrom(store.orders, turn, players[..i])
    {
      EffectiveFromGrows(store.orders, turn, players, i);
      var latest := Latest(store.orders, players[i], turn);
      if latest.None? || store.orders[latest.value].status != Accepted {
        continue;
      }
      var mine := DecodeOrders(store.orders[latest.value].orders).value;
      effective := OverlayAll(effective, mine);
    }
    assert players[..|players|] == players;
  }

  method OverlayAll(m: map<Id, Order>, orders: seq<Order>) returns (r: map<Id, Order>)
    ensures r == Overlay(m, orders)
  {
    r := m;
    for i := 0 to |orders|
      invariant r == Overlay(m, orders[..i])
    {
      assert orders[..i + 1][..i] == orders[..i];
      r := r[orders[i].unit := orders[i]];
    }
    assert orders[..|orders|] == orders;
  }

  // ---------------------------------------------------------------- the log as a register

  /** An accepted submission fills the player's slot for the turn, a recorded rejection empties it, and
      a stale or out-of-phase one, or one by a stranger, leaves it; no other slot changes. */
  lemma SubmitWritesRegister(rows: Rows, player: Id, revision: int, orders: seq<Order>, valid: bool, p: Id, t: int)
    ensures var after := AfterSubmit(rows, player, revision, orders, valid);
            var recorded := FactionOf(rows, player).Some? && rows.state.phase == Phase.Orders &&
                            forall r :: OrderKey(player, rows.state.turn, r) in rows.orders ==> r < revision;
            Register(after.orders, p, t) ==
              if recorded && p == player && t == rows.state.turn then (if valid then Some(orders) else None)
              else Register(rows.orders, p, t)
  {
    var after := AfterSubmit(rows, player, revision, orders, valid);
    OrdersRoundTrip(orders);
    var a, b := Latest(rows.orders, p, t), Latest(after.orders, p, t);
    if p == player && t == rows.state.turn && after != rows {
      assert OrderKey(player, t, revision) in after.orders;
      assert b.value.revision == revision;
    } else {
      SameLatest(rows.orders, after.orders, p, t);
    }
  }

  /** The highest revision the player has on file for the turn. */
  function NewestRevision(orders: map<OrderKey, OrderRow>, p: Id, t: int): Option<int> {
    var latest := Latest(orders, p, t);
    if latest.Some? then Some(latest.value.revision) else None
  }

  /** A revision is on file, once recorded, for good; nothing else moves the highest one. */
  lemma SubmitMovesNewest(rows: Rows, player: Id, revision: int, orders: seq<Order>, valid: bool, p: Id, t: int)
    ensures var after := AfterSubmit(rows, player, revision, orders, valid);
            var newest := NewestRevision(rows.orders, p, t);
            NewestRevision(after.orders, p, t) ==
              if FactionOf(rows, player).Some? && rows.state.phase == Phase.Orders && p == player && t == rows.state.turn &&
                 (newest.Some? ==> newest.value < revision)
              then Some(revision) else newest
  {
    var after := AfterSubmit(rows, player, revision, orders, valid);
    if p == player && t == rows.state.turn && after != rows {
      assert OrderKey(player, t, revision) in after.orders;
    } else {
      SameLatest(rows.orders, after.orders, p, t);
    }
  }

  lemma CancelMovesNewest(rows: Rows, player: Id, revision: int, p: Id, t: int)
    ensures var after := AfterCancel(rows, player, revision);
            var newest := NewestRevision(rows.orders, p, t);
            NewestRevision(after.orders, p, t) ==
              if FactionOf(rows, player).Some? && rows.state.phase == Phase.Orders && p == player && t == rows.state.turn &&
                 (newest.Some? ==> newest.value < revision)
              then Some(revision) else newest
  {
    var after := AfterCancel(rows, player, revision);
    var a, b := Latest(rows.orders, p, t), Latest(after.orders, p, t);
    if FactionOf(rows, player).Some? && rows.state.phase == Phase.Orders && p == player && t == rows.state.turn {
      assert OrderKey(player, t, revision) in after.orders;
      if a.Some? {
        assert a.value == OrderKey(p, t, a.value.revision) && a.value in after.orders;
        assert b.value == OrderKey(p, t, b.value.revision);
      }
    } else {
      SameLatest(rows.orders, after.orders, p, t);
    }
  }

  lemma SameLatest(before: map<OrderKey, OrderRow>, after: map<OrderKey, OrderRow>, p: Id, t: int)
    requires forall r :: OrderKey(p, t, r) in before <==> OrderKey(p, t, r) in after
    ensures Latest(before, p, t) == Latest(after, p, t)
  {
    var a, b := Latest(before, p, t), Latest(after, p, t);
    if a.Some? {
      assert OrderKey(p, t, a.value.revision) in after;
    }
    if b.Some? {
      assert OrderKey(p, t, b.value.revision) in before;
    }
  }

  /** A cancellation in the orders phase empties the player's slot, whatever revision it carries, even
      when it is refused; otherwise nothing changes. */
  lemma CancelEmptiesRegister(rows: Rows, player: Id, revision: int, p: Id, t: int)
    ensures var after := AfterCancel(rows, player, revision);
            Register(after.orders, p, t) ==
              if FactionOf(rows, player).Some? && rows.state.phase == Phase.Orders && p == player && t == rows.state.turn
              then None else Register(rows.orders, p, t)
  {
    var after := AfterCancel(rows, player, revision);
    var a, b := Latest(rows.orders, p, t), Latest(after.orders, p, t);
    if FactionOf(rows, player).Some? && rows.state.phase == Phase.Orders && p == player && t == rows.state.turn {
      if a.Some? {
        assert a.value == OrderKey(p, t, a.value.revision) && a.value in after.orders;
        assert b.value == OrderKey(p, t, b.value.revision);
        assert b.value in rows.orders || b.value.revision == revision;
        if b.value in rows.orders { assert b.value.revision <= a.value.revision; }
      }
    } else {
      SameLatest(rows.orders, after.orders, p, t);
    }
  }

  /** A recorded rejection hides an accepted revision: the documented promise that it never does is
      broken exactly by a newer revision with an invalid order. */
  lemma RejectionHidesAcceptedOrders(rows: Rows, player: Id, revision: int, orders: seq<Order>, valid: bool)
    requires Register(rows.orders, player, rows.state.turn).Some?
    ensures var after := AfterSubmit(rows, player, revision, orders, valid);
            Register(after.orders, player, rows.state.turn).None? <==>
              && !valid && FactionOf(rows, player).Some? && rows.state.phase == Phase.Orders
              && revision > Latest(rows.orders, player, rows.state.turn).value.revision
  {
    SubmitWritesRegister(rows, player, revision, orders, valid, player, rows.state.turn);
    var latest := Latest(rows.orders, player, rows.state.turn).value;
    assert latest == OrderKey(player, rows.state.turn, latest.revision);
  }

  // ---------------------------------------------------------------- the log, row by row

  /** The player's row for the turn with the highest revision. */
  ghost predicate IsNewest(orders: map<OrderKey, OrderRow>, k: OrderKey, player: Id, turn: int) {
    && k in orders && k.player == player && k.turn == turn
    && forall r :: OrderKey(player, turn, r) in orders ==> r <= k.revision
  }

  ghost predicate Receives(rows: Rows, player: Id) {
    rows.state.phase == Phase.Orders && exists i :: 0 <= i < |rows.players| && rows.players[i].publicKey == player
  }

  ghost predicate TopRevision(rows: Rows, player: Id, revision: int) {
    forall r :: OrderKey(player, rows.state.turn, r) in rows.orders ==> r < revision
  }

  /** The row under `k` stays, superseded or as it was. */
  ghost predicate Remains(before: map<OrderKey, OrderRow>, after: map<OrderKey, OrderRow>, k: OrderKey, superseded: bool)
    requires k in before
  {
    k in after && after[k] == OrderRow(before[k].orders, if superseded then Superseded else before[k].status)
  }

  lemma {:induction false} KnownExactly(players: seq<PlayerRow>, player: Id)
    ensures FindFaction(players, player).Some? <==> exists i :: 0 <= i < |players| && players[i].publicKey == player
  {
    if players != [] && players[0].publicKey != player {
      KnownExactly(players[1..], player);
      if i :| 0 <= i < |players| && players[i].publicKey == player { assert players[1..][i - 1] == players[i]; }
    }
  }

  lemma LatestIsNewest(orders: map<OrderKey, OrderRow>, player: Id, turn: int, k: OrderKey)
    ensures IsNewest(orders, k, player, turn) <==> Latest(orders, player, turn) == Some(k)
  {
    var latest := Latest(orders, player, turn);
    if latest.Some? { assert latest.value == OrderKey(player, turn, latest.value.revision); }
    if IsNewest(orders, k, player, turn) { assert k == OrderKey(player, turn, k.revision); }
  }

  /** A submission that reaches a match in its orders phase from one of its players, with a revision above
      all before it, is filed as accepted or rejected; an accepted one supersedes the newest row before it.
      Every other row stays as it is, and any other submission leaves no trace. */
  lemma SubmitRows(rows: Rows, player: Id, revision: int, orders: seq<Order>, valid: bool, k: OrderKey)
    ensures var after := AfterSubmit(rows, player, revision, orders, valid);
            var filed := Receives(rows, player) && TopRevision(rows, player, revision);
            && after == rows.(orders := after.orders)
            && (k in rows.orders ==>
                  Remains(rows.orders, after.orders, k, filed && valid && IsNewest(rows.orders, k, player, rows.state.turn)))
            && (k !in rows.orders ==>
                  (k in after.orders <==> filed && k == OrderKey(player, rows.state.turn, revision)) &&
                  (k in after.orders ==> after.orders[k] == OrderRow(EncodeOrders(orders), if valid then Accepted else Rejected)))
  {
    KnownExactly(rows.players, player);
    LatestIsNewest(rows.orders, player, rows.state.turn, k);
    var latest := Latest(rows.orders, player, rows.state.turn);
    if latest.Some? { assert latest.value == OrderKey(player, rows.state.turn, latest.value.revision); }
  }

  /** A cancellation that reaches a match in its orders phase from one of its players supersedes the newest
      row if that is accepted, whatever its own revision, and is filed as an empty row if that is free. */
  lemma CancelRows(rows: Rows, player: Id, revision: int, k: OrderKey)
    ensures var after := AfterCancel(rows, player, revision);
            && after == rows.(orders := after.orders)
            && (k in rows.orders ==>
                  Remains(rows.orders, after.orders, k,
                          Receives(rows, player) && rows.orders[k].status == Accepted &&
                          IsNewest(rows.orders, k, player, rows.state.turn)))
            && (k !in rows.orders ==>
                  (k in after.orders <==> Receives(rows, player) && k == OrderKey(player, rows.state.turn, revision)) &&
                  (k in after.orders ==> after.orders[k] == OrderRow([], Superseded)))
  {
    KnownExactly(rows.players, player);
    LatestIsNewest(rows.orders, player, rows.state.turn, k);
  }
}
