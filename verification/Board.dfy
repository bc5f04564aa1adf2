/** The board: regions, units, orders and the queries of the state module. */
module Board {
  import opened Ordering

  datatype RegionType = Land | Sea | Coastal

  datatype UnitType = Army | Fleet

  datatype Phase = Diplomacy | Orders | Resolution | Retreat | Build

  datatype Region = Region(id: Id, name: string, regionType: RegionType, isSupplyCenter: bool, abbreviation: string)

  datatype Faction = Faction(id: Id, name: string, color: string, abbreviation: string)

  datatype Unit = Unit(unitType: UnitType, factionId: Id, regionId: Id)

  datatype GameState = GameState(
    regions: map<Id, Region>,
    factions: map<Id, Faction>,
    units: seq<Unit>,
    supplyCenters: map<Id, Id>,
    phase: Phase,
    turn: int,
    year: int)

  /** Any adjacency relation: the fixed map of the game is one instance. */
  type Adjacency = map<Id, set<Id>>

  datatype Order =
    | Hold(unit: Id)
    | Move(unit: Id, destination: Id)
    | SupportHold(unit: Id, supported: Id)
    | SupportMove(unit: Id, supported: Id, target: Id)

  predicate MayEnter(unitType: UnitType, regionType: RegionType) {
    match unitType
    case Army => regionType != Sea
    case Fleet => regionType != Land
  }

  predicate CanMoveTo(adj: Adjacency, state: GameState, unit: Unit, destination: Id) {
    && unit.regionId in adj
    && destination in adj[unit.regionId]
    && destination in state.regions
    && MayEnter(unit.unitType, state.regions[destination].regionType)
  }

  function UnitsOf(units: seq<Unit>, faction: Id): seq<Unit> {
    if units == [] then [] else
      (if units[0].factionId == faction then [units[0]] else []) + UnitsOf(units[1..], faction)
  }

  function UnitCount(state: GameState, faction: Id): nat {
    |UnitsOf(state.units, faction)|
  }

  function CenterCount(state: GameState, faction: Id): nat {
    |set r | r in state.supplyCenters && state.supplyCenters[r] == faction|
  }

  predicate Occupied(state: GameState, region: Id) {
    exists i :: 0 <= i < |state.units| && state.units[i].regionId == region
  }

  predicate RegionLe(u: Unit, v: Unit) {
    Le(u.regionId, v.regionId)
  }

  function SortByRegion(units: seq<Unit>): seq<Unit> {
    Sort(units, RegionLe)
  }

  lemma RegionLeIsOrder()
    ensures TotalPreorder(RegionLe)
  {
    forall u, v ensures RegionLe(u, v) || RegionLe(v, u) { LeTotal(u.regionId, v.regionId); }
    forall u, v, w | RegionLe(u, v) && RegionLe(v, w) ensures RegionLe(u, w) {
      LeTransitive(u.regionId, v.regionId, w.regionId);
    }
  }

  ghost predicate InRegionOrder(units: seq<Unit>) {
    forall i, j :: 0 <= i < j < |units| ==> Le(units[i].regionId, units[j].regionId)
  }

  lemma SortedByRegion(units: seq<Unit>)
    ensures InRegionOrder(SortByRegion(units))
  {
    RegionLeIsOrder();
    SortSorts(units, RegionLe);
    var sorted := SortByRegion(units);
    forall i, j | 0 <= i < j < |sorted| ensures Le(sorted[i].regionId, sorted[j].regionId) {
      assert RegionLe(sorted[i], sorted[j]);
    }
  }

  ghost predicate DistinctRegions(units: seq<Unit>) {
    forall i, j :: 0 <= i < j < |units| ==> units[i].regionId != units[j].regionId
  }

  ghost predicate LegalUnit(state: GameState, u: Unit) {
    && u.regionId in state.regions
    && MayEnter(u.unitType, state.regions[u.regionId].regionType)
    && u.factionId in state.factions
  }

  /** At most one unit a region, each on terrain its type may enter, each of a known faction. */
  ghost predicate LegalBoard(state: GameState) {
    && DistinctRegions(state.units)
    && forall u :: u in state.units ==> LegalUnit(state, u)
  }

  /** Later entries overwrite earlier ones, as in the dictionary the source builds. */
  function ByRegion(units: seq<Unit>): map<Id, Unit> {
    if units == [] then map[] else
      var last := units[|units| - 1];
      ByRegion(units[..|units| - 1])[last.regionId := last]
  }

  lemma ByRegionHas(units: seq<Unit>)
    ensures forall r :: r in ByRegion(units) ==> ByRegion(units)[r] in units && ByRegion(units)[r].regionId == r
    ensures forall u :: u in units ==> u.regionId in ByRegion(units)
    ensures DistinctRegions(units) ==> forall u :: u in units ==> ByRegion(units)[u.regionId] == u
  {
    if units != [] {
      var front, last := units[..|units| - 1], units[|units| - 1];
      assert units == front + [last];
      ByRegionHas(front);
      if DistinctRegions(units) {
        forall u | u in units ensures ByRegion(units)[u.regionId] == u {
          if u in front {
            var i :| 0 <= i < |front| && front[i] == u;
            assert units[i].regionId != units[|front|].regionId;
          }
        }
      }
    }
  }

  /** Rearranging a list of units keeps its regions distinct. */
  lemma {:induction false} DistinctAfterPermutation(s: seq<Unit>, t: seq<Unit>)
    requires DistinctRegions(s) && multiset(s) == multiset(t)
    ensures DistinctRegions(t)
    decreases |t|
  {
    if t != [] {
      SameElements(s, t);
      assert t[0] in t;
      var i :| 0 <= i < |s| && s[i] == t[0];
      TakeOut(s, t, i);
      var rest := s[..i] + s[i + 1..];
      DistinctAfterPermutation(rest, t[1..]);
      SameElements(rest, t[1..]);
      forall j | 1 <= j < |t| ensures t[0].regionId != t[j].regionId {
        assert t[j] in t[1..];
        var k :| 0 <= k < |rest| && rest[k] == t[j];
        assert rest[k] == if k < i then s[k] else s[k + 1];
      }
      assert forall j, k :: 1 <= j < k < |t| ==> t[j] == t[1..][j - 1] && t[k] == t[1..][k - 1];
    }
  }

  lemma DistinctConcat(s: seq<Unit>, t: seq<Unit>)
    requires DistinctRegions(s) && DistinctRegions(t)
    requires forall u, v :: u in s && v in t ==> u.regionId != v.regionId
    ensures DistinctRegions(s + t)
  {
    forall i, j | 0 <= i < j < |s + t| ensures (s + t)[i].regionId != (s + t)[j].regionId {
      if i < |s| <= j {
        assert s[i] in s && t[j - |s|] in t;
      }
    }
  }

  lemma SortByRegionKeeps(units: seq<Unit>)
    ensures multiset(SortByRegion(units)) == multiset(units)
    ensures forall u :: u in SortByRegion(units) <==> u in units
    ensures DistinctRegions(units) ==> DistinctRegions(SortByRegion(units))
  {
    SortKeeps(units, RegionLe);
    SameElements(SortByRegion(units), units);
    if DistinctRegions(units) {
      DistinctAfterPermutation(units, SortByRegion(units));
    }
  }

  /** An order set is accepted exactly when each order names a unit of the faction, at most once each. */
  ghost predicate ValidOrders(state: GameState, faction: Id, orders: seq<Order>) {
    && (forall i :: 0 <= i < |orders| ==> OwnsRegion(state, faction, orders[i].unit))
    && (forall i, j :: 0 <= i < j < |orders| ==> orders[i].unit != orders[j].unit)
  }

  predicate OwnsRegion(state: GameState, faction: Id, region: Id) {
    exists i :: 0 <= i < |state.units| && state.units[i].factionId == faction && state.units[i].regionId == region
  }

  datatype OrderError = NotOwned(region: Id) | Duplicate(region: Id)

  /** Every error reported is real, and no error is reported exactly for a valid order set. */
  method ValidateOrders(state: GameState, faction: Id, orders: seq<Order>) returns (errors: seq<OrderError>)
    ensures errors == [] <==> ValidOrders(state, faction, orders)
    ensures forall e :: e in errors ==> RealError(state, faction, orders, e)
    ensures forall i :: 0 <= i < |orders| && !OwnsRegion(state, faction, orders[i].unit) ==> NotOwned(orders[i].unit) in errors
    ensures forall i, j :: 0 <= i < j < |orders| && orders[i].unit == orders[j].unit ==> Duplicate(orders[j].unit) in errors
  {
    errors := [];
    var seen: set<Id> := {};
    for n := 0 to |orders|
      invariant seen == set i | 0 <= i < n :: orders[i].unit
      invariant forall e :: e in errors ==> RealError(state, faction, orders, e)
      invariant forall i :: 0 <= i < n && !OwnsRegion(state, faction, orders[i].unit) ==> NotOwned(orders[i].unit) in errors
      invariant forall i, j :: 0 <= i < j < n && orders[i].unit == orders[j].unit ==> Duplicate(orders[j].unit) in errors
    {
      var region := orders[n].unit;
      if !OwnsRegion(state, faction, region) {
        errors := errors + [NotOwned(region)];
      }
      if region in seen {
        errors := errors + [Duplicate(region)];
      }
      seen := seen + {region};
    }
    if errors != [] {
      assert RealError(state, faction, orders, errors[0]);
    }
  }

  ghost predicate RealError(state: GameState, faction: Id, orders: seq<Order>, error: OrderError) {
    match error
    case NotOwned(r) => exists i :: 0 <= i < |orders| && orders[i].unit == r && !OwnsRegion(state, faction, r)
    case Duplicate(r) => exists i, j :: 0 <= i < j < |orders| && orders[i].unit == r && orders[j].unit == r
  }
}
