/** The canonical form of a game state, the inverse that reads it back, and the order codec. */
module Canonical {
  import opened Ordering
  import opened Board
  import opened Movement
  import opened Adjudication
  import opened MovementTheorems

  /** What is packed for hashing: dictionaries as entries in key order, units in sorted order. */
  datatype CanonState = CanonState(
    regions: seq<(Id, Region)>,
    factions: seq<(Id, Faction)>,
    units: seq<Unit>,
    supplyCenters: seq<(Id, Id)>,
    phase: Phase,
    turn: int,
    year: int)

  predicate TypeLe(a: UnitType, b: UnitType) {
    a == Army || b == Fleet
  }

  /** The sort key of a unit: region, then faction, then type. */
  predicate UnitLe(u: Unit, v: Unit) {
    if u.regionId != v.regionId then Le(u.regionId, v.regionId)
    else if u.factionId != v.factionId then Le(u.factionId, v.factionId)
    else TypeLe(u.unitType, v.unitType)
  }

  lemma UnitLeIsOrder()
    ensures TotalPreorder(UnitLe) && Antisymmetric(UnitLe)
  {
    forall u, v ensures UnitLe(u, v) || UnitLe(v, u) {
      LeTotal(u.regionId, v.regionId);
      LeTotal(u.factionId, v.factionId);
    }
    forall u, v | UnitLe(u, v) && UnitLe(v, u) ensures u == v {
      if u.regionId != v.regionId { LeAntisymmetric(u.regionId, v.regionId); }
      if u.factionId != v.factionId { LeAntisymmetric(u.factionId, v.factionId); }
    }
    forall u, v, w | UnitLe(u, v) && UnitLe(v, w) ensures UnitLe(u, w) {
      UnitLeTransitive(u, v, w);
    }
  }

  lemma UnitLeTransitive(u: Unit, v: Unit, w: Unit)
    requires UnitLe(u, v) && UnitLe(v, w)
    ensures UnitLe(u, w)
  {
    if u.regionId != v.regionId && v.regionId != w.regionId {
      LeTransitive(u.regionId, v.regionId, w.regionId);
      if u.regionId == w.regionId { LeAntisymmetric(u.regionId, v.regionId); }
    } else if u.regionId == v.regionId == w.regionId && u.factionId != v.factionId && v.factionId != w.factionId {
      LeTransitive(u.factionId, v.factionId, w.factionId);
      if u.factionId == w.factionId { LeAntisymmetric(u.factionId, v.factionId); }
    }
  }

  function Entries<V>(m: map<Id, V>): seq<(Id, V)> {
    var keys := Ascending(m.Keys);
    seq(|keys|, i requires 0 <= i < |keys| => (keys[i], m[keys[i]]))
  }

  lemma EntriesInKeyOrder<V>(m: map<Id, V>)
    ensures |Entries(m)| == |Ascending(m.Keys)|
    ensures forall i :: 0 <= i < |Entries(m)| ==>
              Entries(m)[i].0 == Ascending(m.Keys)[i] && Entries(m)[i].0 in m && Entries(m)[i].1 == m[Entries(m)[i].0]
  {
  }

  /** Reading entries back into a dictionary: a repeated key keeps its last value. */
  function FromEntries<V>(es: seq<(Id, V)>): map<Id, V> {
    if es == [] then map[] else
      FromEntries(es[..|es| - 1])[es[|es| - 1].0 := es[|es| - 1].1]
  }

  function Canonicalize(state: GameState): CanonState {
    CanonState(Entries(state.regions), Entries(state.factions), Sort(state.units, UnitLe),
               Entries(state.supplyCenters), state.phase, state.turn, state.year)
  }

  function Decode(c: CanonState): GameState {
    GameState(FromEntries(c.regions), FromEntries(c.factions), c.units, FromEntries(c.supplyCenters), c.phase, c.turn, c.year)
  }

  /** Equal but for the order in which the units are listed. */
  ghost predicate SameBoard(s: GameState, t: GameState) {
    && s.regions == t.regions && s.factions == t.factions && s.supplyCenters == t.supplyCenters
    && s.phase == t.phase && s.turn == t.turn && s.year == t.year
    && multiset(s.units) == multiset(t.units)
  }

  lemma {:induction false} FromEntriesHas<V>(es: seq<(Id, V)>)
    ensures forall k :: k in FromEntries(es) <==> exists i :: 0 <= i < |es| && es[i].0 == k
    ensures forall k :: k in FromEntries(es) ==> exists i :: 0 <= i < |es| && es[i] == (k, FromEntries(es)[k])
    decreases |es|
  {
    if es != [] {
      var front, last := es[..|es| - 1], es[|es| - 1];
      FromEntriesHas(front);
      assert es == front + [last];
      forall k | k in FromEntries(es) ensures exists i :: 0 <= i < |es| && es[i] == (k, FromEntries(es)[k]) {
        if k == last.0 {
          assert es[|es| - 1] == (k, FromEntries(es)[k]);
        } else {
          var i :| 0 <= i < |front| && front[i] == (k, FromEntries(front)[k]);
          assert es[i] == (k, FromEntries(es)[k]);
        }
      }
      forall i | 0 <= i < |es| ensures es[i].0 in FromEntries(es) {
        if i < |front| { assert front[i].0 in FromEntries(front); }
      }
    }
  }

  /** A dictionary read from entries has, under each key, the value of that key's last entry. */
  lemma {:induction false} FromEntriesExactly<V(!new)>(es: seq<(Id, V)>, k: Id, x: V)
    ensures k in FromEntries(es) && FromEntries(es)[k] == x <==>
            exists i :: 0 <= i < |es| && es[i] == (k, x) && forall j :: i < j < |es| ==> es[j].0 != k
    decreases |es|
  {
    if es != [] {
      var front, last := es[..|es| - 1], es[|es| - 1];
      assert es == front + [last];
      FromEntriesExactly(front, k, x);
      if last.0 != k {
        assert forall i :: 0 <= i < |front| ==> front[i] == es[i];
      }
    }
  }

  lemma EntryReadBack<V>(m: map<Id, V>, k: Id)
    ensures k in FromEntries(Entries(m)) <==> k in m
    ensures k in m ==> FromEntries(Entries(m))[k] == m[k]
  {
    var es := Entries(m);
    FromEntriesHas(es);
    EntriesInKeyOrder(m);
    if k in m {
      assert k in Ascending(m.Keys);
      var i :| 0 <= i < |Ascending(m.Keys)| && Ascending(m.Keys)[i] == k;
      assert es[i].0 == k;
    }
    if k in FromEntries(es) {
      var i :| 0 <= i < |es| && es[i] == (k, FromEntries(es)[k]);
    }
  }

  /** A dictionary survives being listed in key order and read back. */
  lemma EntriesRoundTrip<V>(m: map<Id, V>)
    ensures FromEntries(Entries(m)) == m
  {
    forall k ensures k in FromEntries(Entries(m)) <==> k in m {
      EntryReadBack(m, k);
    }
    forall k | k in m ensures FromEntries(Entries(m))[k] == m[k] {
      EntryReadBack(m, k);
    }
  }

  /** Reading a canonical form back gives the board it was made from. */
  lemma DecodeCanonical(state: GameState)
    ensures SameBoard(Decode(Canonicalize(state)), state)
  {
    EntriesRoundTrip(state.regions);
    EntriesRoundTrip(state.factions);
    EntriesRoundTrip(state.supplyCenters);
    SortKeeps(state.units, UnitLe);
  }

  /** Two states have the same canonical form exactly when they are the same board. */
  lemma CanonicalExactly(s: GameState, t: GameState)
    ensures Canonicalize(s) == Canonicalize(t) <==> SameBoard(s, t)
  {
    UnitLeIsOrder();
    SortKeeps(s.units, UnitLe);
    SortKeeps(t.units, UnitLe);
    if Canonicalize(s) == Canonicalize(t) {
      DecodeCanonical(s);
      DecodeCanonical(t);
    }
    if SameBoard(s, t) {
      SortSorts(s.units, UnitLe);
      SortSorts(t.units, UnitLe);
      SortedUnique(Sort(s.units, UnitLe), Sort(t.units, UnitLe), UnitLe);
    }
  }

  /** The entries of a dictionary, each once, keys strictly ascending. */
  ghost predicate Lists<V(!new)>(es: seq<(Id, V)>, m: map<Id, V>) {
    && (forall k, x :: (k, x) in es <==> k in m && m[k] == x)
    && (forall i, j :: 0 <= i < j < |es| ==> es[i].0 != es[j].0 && Le(es[i].0, es[j].0))
  }

  lemma EntriesList<V(!new)>(m: map<Id, V>)
    ensures Lists(Entries(m), m)
  {
    var es, keys := Entries(m), Ascending(m.Keys);
    EntriesInKeyOrder(m);
    forall k, x ensures (k, x) in es <==> k in m && m[k] == x {
      if k in m && m[k] == x {
        assert k in keys;
        var i :| 0 <= i < |keys| && keys[i] == k;
        assert es[i] == (k, x);
      }
      if (k, x) in es {
        var i :| 0 <= i < |es| && es[i] == (k, x);
      }
    }
  }

  /** `u` is listed ahead of `v`: its region comes first, or in one region its faction, or of one faction
      the army before the fleet. */
  ghost predicate Ahead(u: Unit, v: Unit) {
    || (Le(u.regionId, v.regionId) && u.regionId != v.regionId)
    || (u.regionId == v.regionId && Le(u.factionId, v.factionId) && u.factionId != v.factionId)
    || (u.regionId == v.regionId && u.factionId == v.factionId && u.unitType == Army && v.unitType == Fleet)
  }

  lemma UnitLeExactly(u: Unit, v: Unit)
    ensures UnitLe(u, v) <==> u == v || Ahead(u, v)
  {
    LeTotal(u.regionId, u.regionId);
    LeTotal(u.factionId, u.factionId);
  }

  /** What the canonical form of a board is: every dictionary listed by key, the units in order, and the rest as it stands. */
  lemma CanonicalFormListed(state: GameState)
    ensures var c := Canonicalize(state);
            && Lists(c.regions, state.regions) && Lists(c.factions, state.factions) && Lists(c.supplyCenters, state.supplyCenters)
            && multiset(c.units) == multiset(state.units)
            && (forall i, j :: 0 <= i < j < |c.units| ==> c.units[i] == c.units[j] || Ahead(c.units[i], c.units[j]))
            && c.phase == state.phase && c.turn == state.turn && c.year == state.year
  {
    EntriesList(state.regions);
    EntriesList(state.factions);
    EntriesList(state.supplyCenters);
    UnitLeIsOrder();
    SortKeeps(state.units, UnitLe);
    SortSorts(state.units, UnitLe);
    var units := Canonicalize(state).units;
    forall i, j | 0 <= i < j < |units| ensures units[i] == units[j] || Ahead(units[i], units[j]) {
      UnitLeExactly(units[i], units[j]);
    }
  }

  /** Decoding and encoding again is the identity on canonical forms. */
  lemma CanonicalRoundTrip(state: GameState)
    ensures Canonicalize(Decode(Canonicalize(state))) == Canonicalize(state)
  {
    DecodeCanonical(state);
    CanonicalExactly(Decode(Canonicalize(state)), state);
  }

  lemma SameUnitsByRegion(s: seq<Unit>, t: seq<Unit>)
    requires DistinctRegions(s) && multiset(s) == multiset(t)
    ensures ByRegion(SortByRegion(s)) == ByRegion(SortByRegion(t)) && DistinctRegions(t)
  {
    DistinctAfterPermutation(s, t);
    SameElements(s, t);
    SortByRegionKeeps(s);
    SortByRegionKeeps(t);
    var a, b := SortByRegion(s), SortByRegion(t);
    assert forall u :: u in a <==> u in b;
    ByRegionHas(a);
    ByRegionHas(b);
    forall r | r in ByRegion(a) || r in ByRegion(b)
      ensures r in ByRegion(a) && r in ByRegion(b) && ByRegion(a)[r] == ByRegion(b)[r]
    {
      var u := if r in ByRegion(a) then ByRegion(a)[r] else ByRegion(b)[r];
      assert u in a && u in b;
    }
  }

  lemma SameOccupied(s: GameState, t: GameState, r: Id)
    requires multiset(s.units) == multiset(t.units)
    ensures Occupied(s, r) == Occupied(t, r)
  {
    SameElements(s.units, t.units);
    if i :| 0 <= i < |s.units| && s.units[i].regionId == r {
      assert s.units[i] in t.units;
    }
    if i :| 0 <= i < |t.units| && t.units[i].regionId == r {
      assert t.units[i] in s.units;
    }
  }

  lemma SameNormalization(adj: Adjacency, s: GameState, t: GameState, unit: Unit, order: Option<Order>)
    requires SameBoard(s, t)
    ensures Normalize(adj, s, unit, order) == Normalize(adj, t, unit, order)
  {
    if order.Some? && (order.value.SupportHold? || order.value.SupportMove?) {
      SameOccupied(s, t, order.value.supported);
    }
  }

  lemma SameEffectiveOrders(adj: Adjacency, s: GameState, t: GameState, orders: map<Id, Order>, units: map<Id, Unit>)
    requires SameBoard(s, t)
    ensures forall r :: r in units ==> EffectiveOrder(adj, s, orders, r, units[r]) == EffectiveOrder(adj, t, orders, r, units[r])
  {
    forall r | r in units ensures EffectiveOrder(adj, s, orders, r, units[r]) == EffectiveOrder(adj, t, orders, r, units[r]) {
      SameNormalization(adj, s, t, units[r], Lookup(orders, r));
    }
  }

  lemma SameOrders(adj: Adjacency, s: GameState, t: GameState, orders: map<Id, Order>)
    requires SameBoard(s, t) && ByRegion(SortByRegion(s.units)) == ByRegion(SortByRegion(t.units))
    ensures BattleOf(adj, s, orders).orders == BattleOf(adj, t, orders).orders
  {
    SameEffectiveOrders(adj, s, t, orders, ByRegion(SortByRegion(s.units)));
  }

  lemma SameFlags(adj: Adjacency, s: GameState, t: GameState, orders: map<Id, Order>)
    requires SameBoard(s, t) && ByRegion(SortByRegion(s.units)) == ByRegion(SortByRegion(t.units))
    ensures Flags(adj, s, orders) == Flags(adj, t, orders)
  {
    SameEffectiveOrders(adj, s, t, orders, ByRegion(SortByRegion(s.units)));
  }

  lemma SameBattle(adj: Adjacency, s: GameState, t: GameState, orders: map<Id, Order>)
    requires DistinctRegions(s.units) && SameBoard(s, t)
    ensures BattleOf(adj, s, orders) == BattleOf(adj, t, orders)
    ensures Flags(adj, s, orders) == Flags(adj, t, orders)
  {
    SameUnitsByRegion(s.units, t.units);
    SameOrders(adj, s, t, orders);
    SameFlags(adj, s, t, orders);
  }

  /** Movement does not depend on how the units of a legal board are listed: re-deriving it from the
      stored form of the board gives the same result and the same new board. */
  lemma MovementIgnoresListing(adj: Adjacency, s: GameState, t: GameState, orders: map<Id, Order>)
    requires DistinctRegions(s.units) && SameBoard(s, t)
    ensures MovementOutcome(adj, s, orders) == MovementOutcome(adj, t, orders)
    ensures ApplyMovement(s, MovementOutcome(adj, s, orders)) == ApplyMovement(t, MovementOutcome(adj, t, orders))
  {
    SameBattle(adj, s, t, orders);
  }

  // ---------------------------------------------------------------- orders on the wire

  /** An order as the dictionary of strings it is stored as. */
  type RawOrder = map<string, string>

  function EncodeOrder(order: Order): RawOrder {
    match order
    case Hold(u) => map["unit_region_id" := u, "order_type" := "hold"]
    case Move(u, d) => map["unit_region_id" := u, "destination_id" := d, "order_type" := "move"]
    case SupportHold(u, s) => map["unit_region_id" := u, "supported_region_id" := s, "order_type" := "support_hold"]
    case SupportMove(u, s, t) =>
      map["unit_region_id" := u, "supported_region_id" := s, "supported_destination_id" := t, "order_type" := "support_move"]
  }

  /** The type field selects the class; every other field must be one of its parameters, and all must be there. */
  function DecodeOrder(raw: RawOrder): Option<Order> {
    if "order_type" !in raw then None else
      var fields := raw.Keys - {"order_type"};
      match raw["order_type"]
      case "hold" =>
        if fields == {"unit_region_id"} then Some(Hold(raw["unit_region_id"])) else None
      case "move" =>
        if fields == {"unit_region_id", "destination_id"}
        then Some(Move(raw["unit_region_id"], raw["destination_id"])) else None
      case "support_hold" =>
        if fields == {"unit_region_id", "supported_region_id"}
        then Some(SupportHold(raw["unit_region_id"], raw["supported_region_id"])) else None
      case "support_move" =>
        if fields == {"unit_region_id", "supported_region_id", "supported_destination_id"}
        then Some(SupportMove(raw["unit_region_id"], raw["supported_region_id"], raw["supported_destination_id"])) else None
      case _ => None
  }

  function EncodeOrders(orders: seq<Order>): seq<RawOrder> {
    seq(|orders|, i requires 0 <= i < |orders| => EncodeOrder(orders[i]))
  }

  function DecodeOrders(raw: seq<RawOrder>): Option<seq<Order>> {
    if raw == [] then Some([]) else
      match (DecodeOrder(raw[0]), DecodeOrders(raw[1..]))
      case (Some(order), Some(rest)) => Some([order] + rest)
      case _ => None
  }

  lemma OrderRoundTrip(order: Order)
    ensures DecodeOrder(EncodeOrder(order)) == Some(order)
  {
  }

  /** An order as a dictionary, field by field. */
  ghost predicate FieldsOf(raw: RawOrder, order: Order) {
    match order
    case Hold(u) => raw == map["order_type" := "hold", "unit_region_id" := u]
    case Move(u, d) => raw == map["order_type" := "move", "unit_region_id" := u, "destination_id" := d]
    case SupportHold(u, s) => raw == map["order_type" := "support_hold", "unit_region_id" := u, "supported_region_id" := s]
    case SupportMove(u, s, t) =>
      raw == map["order_type" := "support_move", "unit_region_id" := u, "supported_region_id" := s,
                 "supported_destination_id" := t]
  }

  lemma EncodedFields(order: Order)
    ensures FieldsOf(EncodeOrder(order), order)
  {
    match order
    case Hold(u) => assert EncodeOrder(order) == map["order_type" := "hold", "unit_region_id" := u];
    case Move(u, d) => assert EncodeOrder(order) == map["order_type" := "move", "unit_region_id" := u, "destination_id" := d];
    case SupportHold(u, s) =>
      assert EncodeOrder(order) == map["order_type" := "support_hold", "unit_region_id" := u, "supported_region_id" := s];
    case SupportMove(u, s, t) =>
      assert EncodeOrder(order) == map["order_type" := "support_move", "unit_region_id" := u, "supported_region_id" := s,
                                       "supported_destination_id" := t];
  }

  lemma DecodedFields(raw: RawOrder, order: Order)
    requires DecodeOrder(raw) == Some(order)
    ensures raw.Keys == EncodeOrder(order).Keys && forall k :: k in raw ==> raw[k] == EncodeOrder(order)[k]
  {
    assert raw.Keys == (raw.Keys - {"order_type"}) + {"order_type"};
  }

  /** The dictionaries read as an order are exactly those with the order's type and its parameters, and
      nothing else in them. */
  lemma OrderFields(raw: RawOrder, order: Order)
    ensures DecodeOrder(raw) == Some(order) <==> FieldsOf(raw, order)
  {
    OrderRoundTrip(order);
    EncodedFields(order);
    if DecodeOrder(raw) == Some(order) {
      DecodedFields(raw, order);
      assert raw == EncodeOrder(order);
    }
    if FieldsOf(raw, order) {
      assert raw == EncodeOrder(order);
    }
  }

  /** A list of dictionaries is read as orders exactly when each of them is. */
  lemma {:induction false} OrdersFields(raw: seq<RawOrder>, orders: seq<Order>)
    ensures DecodeOrders(raw) == Some(orders) <==>
            |raw| == |orders| && forall i :: 0 <= i < |raw| ==> FieldsOf(raw[i], orders[i])
  {
    if raw != [] {
      if orders != [] {
        OrdersFields(raw[1..], orders[1..]);
        OrderFields(raw[0], orders[0]);
        assert orders == [orders[0]] + orders[1..];
        if |raw| == |orders| && forall i :: 0 <= i < |raw[1..]| ==> FieldsOf(raw[1..][i], orders[1..][i]) {
          forall i | 0 < i < |raw| ensures FieldsOf(raw[i], orders[i]) {
            assert FieldsOf(raw[1..][i - 1], orders[1..][i - 1]);
          }
        }
      }
    }
  }

  /** Stored orders are read back as they were submitted. */
  lemma {:induction false} OrdersRoundTrip(orders: seq<Order>)
    ensures DecodeOrders(EncodeOrders(orders)) == Some(orders)
  {
    if orders != [] {
      OrderRoundTrip(orders[0]);
      OrdersRoundTrip(orders[1..]);
      assert EncodeOrders(orders)[1..] == EncodeOrders(orders[1..]);
      assert orders == [orders[0]] + orders[1..];
    }
  }
}
