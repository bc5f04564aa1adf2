/** The adjustment phase: builds up to a faction's allowance, disbands down to its centres. */
module Adjustment {
  import opened Ordering
  import opened Board

  datatype BuildOrder = BuildOrder(factionId: Id, regionId: Id, unitType: UnitType)

  datatype DisbandOrder = DisbandOrder(factionId: Id, regionId: Id)

  datatype Reason =
    | Fine | LimitReached | NotSupplyCenter | NotHomeCenter | NotControlled | RegionOccupied | InvalidTerrain

  datatype BuildResult = BuildResult(factionId: Id, regionId: Id, unitType: UnitType, accepted: bool, reason: Reason)

  datatype DisbandResult = DisbandResult(factionId: Id, regionId: Id)

  datatype AdjustmentResult = AdjustmentResult(builds: seq<BuildResult>, disbands: seq<DisbandResult>)

  type HomeCenters = map<Id, set<Id>>

  function Delta(state: GameState, f: Id): int {
    CenterCount(state, f) - UnitCount(state, f)
  }

  function Deltas(state: GameState): map<Id, int> {
    map f | f in state.factions :: Delta(state, f)
  }

  function Max(a: int, b: int): int {
    if a > b then a else b
  }

  function Allowed(state: GameState, f: Id): nat {
    Max(Delta(state, f), 0)
  }

  function Required(state: GameState, f: Id): nat {
    Max(-Delta(state, f), 0)
  }

  // ---------------------------------------------------------------- builds

  function BuildsOf(orders: seq<BuildOrder>, f: Id): seq<BuildOrder> {
    if orders == [] then [] else
      (if orders[0].factionId == f then [orders[0]] else []) + BuildsOf(orders[1..], f)
  }

  /** The verdict on one build, in the order the engine makes its checks. */
  function BuildVerdict(state: GameState, homes: HomeCenters, f: Id, order: BuildOrder, accepted: nat, used: set<Id>): Reason {
    var r := order.regionId;
    if accepted >= Allowed(state, f) then LimitReached
    else if r !in state.regions || !state.regions[r].isSupplyCenter then NotSupplyCenter
    else if r !in (if f in homes then homes[f] else {}) then NotHomeCenter
    else if r !in state.supplyCenters || state.supplyCenters[r] != f then NotControlled
    else if Occupied(state, r) || r in used then RegionOccupied
    else if !MayEnter(order.unitType, state.regions[r].regionType) then InvalidTerrain
    else Fine
  }

  datatype BuildProgress = BuildProgress(results: seq<BuildResult>, used: set<Id>, accepted: nat)

  function BuildStep(state: GameState, homes: HomeCenters, f: Id, p: BuildProgress, order: BuildOrder): BuildProgress {
    var reason := BuildVerdict(state, homes, f, order, p.accepted, p.used);
    var result := BuildResult(f, order.regionId, order.unitType, reason == Fine, reason);
    if reason == Fine
    then BuildProgress(p.results + [result], p.used + {order.regionId}, p.accepted + 1)
    else p.(results := p.results + [result])
  }

  function FactionBuilds(state: GameState, homes: HomeCenters, f: Id, orders: seq<BuildOrder>): BuildProgress {
    if orders == [] then BuildProgress([], {}, 0) else
      BuildStep(state, homes, f, FactionBuilds(state, homes, f, orders[..|orders| - 1]), orders[|orders| - 1])
  }

  /** The results of all factions, given each one's. */
  function BuildsFrom(mine: Id -> seq<BuildResult>, factions: seq<Id>): seq<BuildResult> {
    if factions == [] then [] else
      BuildsFrom(mine, factions[..|factions| - 1]) + mine(factions[|factions| - 1])
  }

  function AllBuilds(state: GameState, homes: HomeCenters, orders: seq<BuildOrder>, factions: seq<Id>): seq<BuildResult> {
    BuildsFrom(f => FactionBuilds(state, homes, f, BuildsOf(orders, f)).results, factions)
  }

  // ---------------------------------------------------------------- disbands

  function FactionRegions(units: seq<Unit>, f: Id): set<Id> {
    set u | u in units && u.factionId == f :: u.regionId
  }

  function DisbandsOf(orders: seq<DisbandOrder>, f: Id): seq<Id> {
    if orders == [] then [] else
      (if orders[0].factionId == f then [orders[0].regionId] else []) + DisbandsOf(orders[1..], f)
  }

  /** The disbands a faction named itself: valid ones, once each, up to the number required. */
  function Explicit(owned: set<Id>, required: nat, regions: seq<Id>): seq<Id> {
    if regions == [] then [] else
      var chosen, last := Explicit(owned, required, regions[..|regions| - 1]), regions[|regions| - 1];
      if |chosen| < required && last in owned && last !in chosen then chosen + [last] else chosen
  }

  function Descending(s: set<Id>): seq<Id> {
    Reversed(Ascending(s))
  }

  function Reversed(s: seq<Id>): seq<Id> {
    if s == [] then [] else Reversed(s[1..]) + [s[0]]
  }

  /** The shortfall is taken from the remaining units, last region first. */
  function Filled(owned: set<Id>, required: nat, chosen: seq<Id>): seq<Id> {
    if |chosen| >= required then chosen
    else ToppedUp(required, chosen, Descending(owned - Elements(chosen)))
  }

  function ToppedUp(required: nat, chosen: seq<Id>, remaining: seq<Id>): seq<Id>
    requires |chosen| <= required
  {
    if |chosen| + |remaining| <= required then chosen + remaining else chosen + remaining[..required - |chosen|]
  }

  function FactionDisbands(state: GameState, f: Id, orders: seq<DisbandOrder>): seq<Id> {
    var owned, required := FactionRegions(state.units, f), Required(state, f);
    if required == 0 then [] else
      Sort(Filled(owned, required, Explicit(owned, required, DisbandsOf(orders, f))), Le)
  }

  function DisbandResults(f: Id, regions: seq<Id>): (results: seq<DisbandResult>)
    ensures |results| == |regions| && forall i :: 0 <= i < |regions| ==> results[i] == DisbandResult(f, regions[i])
  {
    seq(|regions|, i requires 0 <= i < |regions| => DisbandResult(f, regions[i]))
  }

  function DisbandsFrom(mine: Id -> seq<Id>, factions: seq<Id>): seq<DisbandResult> {
    if factions == [] then [] else
      var last := factions[|factions| - 1];
      DisbandsFrom(mine, factions[..|factions| - 1]) + DisbandResults(last, mine(last))
  }

  function AllDisbands(state: GameState, orders: seq<DisbandOrder>, factions: seq<Id>): seq<DisbandResult> {
    DisbandsFrom(f => FactionDisbands(state, f, orders), factions)
  }

  function AdjustmentOutcome(state: GameState, homes: HomeCenters, builds: seq<BuildOrder>, disbands: seq<DisbandOrder>): AdjustmentResult {
    var factions := Ascending(state.factions.Keys);
    AdjustmentResult(AllBuilds(state, homes, builds, factions), AllDisbands(state, disbands, factions))
  }

  // ---------------------------------------------------------------- the engine's own steps

  method ResolveFactionBuilds(state: GameState, homes: HomeCenters, f: Id, allowed: nat, orders: seq<BuildOrder>)
    returns (builds: seq<BuildResult>)
    requires allowed == Allowed(state, f)
    ensures builds == FactionBuilds(state, homes, f, orders).results
  {
    builds := [];
    var used: set<Id> := {};
    var accepted := 0;
    for i := 0 to |orders|
      invariant BuildProgress(builds, used, accepted) == FactionBuilds(state, homes, f, orders[..i])
    {
      assert orders[..i + 1][..i] == orders[..i];
      var order := orders[i];
      var r := order.regionId;
      var home := if f in homes then homes[f] else {};
      if accepted >= allowed {
        builds := builds + [BuildResult(f, r, order.unitType, false, LimitReached)];
        continue;
      }
      if r !in state.regions || !state.regions[r].isSupplyCenter {
        builds := builds + [BuildResult(f, r, order.unitType, false, NotSupplyCenter)];
        continue;
      }
      if r !in home {
        builds := builds + [BuildResult(f, r, order.unitType, false, NotHomeCenter)];
        continue;
      }
      if r !in state.supplyCenters || state.supplyCenters[r] != f {
        builds := builds + [BuildResult(f, r, order.unitType, false, NotControlled)];
        continue;
      }
      if Occupied(state, r) || r in used {
        builds := builds + [BuildResult(f, r, order.unitType, false, RegionOccupied)];
        continue;
      }
      if order.unitType == Army && state.regions[r].regionType == Sea {
        builds := builds + [BuildResult(f, r, order.unitType, false, InvalidTerrain)];
        continue;
      }
      if order.unitType == Fleet && state.regions[r].regionType == Land {
        builds := builds + [BuildResult(f, r, order.unitType, false, InvalidTerrain)];
        continue;
      }
      builds := builds + [BuildResult(f, r, order.unitType, true, Fine)];
      used := used + {r};
      accepted := accepted + 1;
    }
    assert orders[..|orders|] == orders;
  }

  lemma ExplicitStopsWhenFull(owned: set<Id>, required: nat, regions: seq<Id>, i: nat)
    requires i <= |regions| && |Explicit(owned, required, regions[..i])| >= required
    ensures Explicit(owned, required, regions) == Explicit(owned, required, regions[..i])
    decreases |regions| - i
  {
    if i == |regions| {
      assert regions[..i] == regions;
    } else {
      assert regions[..i + 1][..i] == regions[..i];
      ExplicitStopsWhenFull(owned, required, regions, i + 1);
    }
  }

  method ChooseDisbands(owned: set<Id>, required: nat, regions: seq<Id>) returns (chosen: seq<Id>)
    ensures chosen == Explicit(owned, required, regions)
  {
    chosen := [];
    for i := 0 to |regions|
      invariant chosen == Explicit(owned, required, regions[..i])
    {
      assert regions[..i + 1][..i] == regions[..i];
      if |chosen| >= required {
        ExplicitStopsWhenFull(owned, required, regions, i);
        break;
      }
      if regions[i] in owned && regions[i] !in chosen {
        chosen := chosen + [regions[i]];
      }
    }
    assert regions[..|regions|] == regions;
  }

  method FillDisbands(owned: set<Id>, required: nat, explicit: seq<Id>) returns (chosen: seq<Id>)
    ensures chosen == Filled(owned, required, explicit)
  {
    chosen := explicit;
    if |chosen| < required {
      chosen := FillUp(required, explicit, Descending(owned - Elements(explicit)));
    }
  }

  method FillUp(required: nat, explicit: seq<Id>, remaining: seq<Id>) returns (chosen: seq<Id>)
    requires |explicit| <= required
    ensures chosen == ToppedUp(required, explicit, remaining)
  {
    chosen := explicit;
    for i := 0 to |remaining|
      invariant chosen == explicit + remaining[..i] && |chosen| <= required
    {
      if |chosen| >= required {
        assert i == required - |explicit|;
        return;
      }
      assert explicit + remaining[..i + 1] == explicit + remaining[..i] + [remaining[i]];
      chosen := chosen + [remaining[i]];
    }
    assert remaining[..|remaining|] == remaining;
  }

  method ResolveFactionDisbands(state: GameState, f: Id, required: nat, orders: seq<DisbandOrder>)
    returns (disbands: seq<DisbandResult>)
    requires required == Required(state, f)
    ensures disbands == DisbandResults(f, FactionDisbands(state, f, orders))
  {
    if required == 0 {
      disbands := [];
    } else {
      var owned := FactionRegions(state.units, f);
      var explicit := ChooseDisbands(owned, required, DisbandsOf(orders, f));
      var chosen := FillDisbands(owned, required, explicit);
      disbands := DisbandResults(f, Sort(chosen, Le));
    }
  }

  lemma AllBuildsGrows(state: GameState, homes: HomeCenters, orders: seq<BuildOrder>, factions: seq<Id>, i: nat)
    requires i < |factions|
    ensures AllBuilds(state, homes, orders, factions[..i + 1]) ==
            AllBuilds(state, homes, orders, factions[..i]) +
            FactionBuilds(state, homes, factions[i], BuildsOf(orders, factions[i])).results
  {
    assert factions[..i + 1][..i] == factions[..i];
  }

  lemma AllDisbandsGrows(state: GameState, orders: seq<DisbandOrder>, factions: seq<Id>, i: nat)
    requires i < |factions|
    ensures AllDisbands(state, orders, factions[..i + 1]) ==
            AllDisbands(state, orders, factions[..i]) +
            DisbandResults(factions[i], FactionDisbands(state, factions[i], orders))
  {
    assert factions[..i + 1][..i] == factions[..i];
  }

  method ResolveBuilds(state: GameState, homes: HomeCenters, deltas: map<Id, int>, orders: seq<BuildOrder>, factions: seq<Id>)
    returns (builds: seq<BuildResult>)
    requires deltas == Deltas(state) && forall f :: f in factions ==> f in state.factions
    ensures builds == AllBuilds(state, homes, orders, factions)
  {
    builds := [];
    for i := 0 to |factions|
      invariant builds == AllBuilds(state, homes, orders, factions[..i])
    {
      AllBuildsGrows(state, homes, orders, factions, i);
      var mine := ResolveFactionBuilds(state, homes, factions[i], Max(deltas[factions[i]], 0), BuildsOf(orders, factions[i]));
      builds := builds + mine;
    }
    assert factions[..|factions|] == factions;
  }

  method ResolveDisbands(state: GameState, deltas: map<Id, int>, orders: seq<DisbandOrder>, factions: seq<Id>)
    returns (disbands: seq<DisbandResult>)
    requires deltas == Deltas(state) && forall f :: f in factions ==> f in state.factions
    ensures disbands == AllDisbands(state, orders, factions)
  {
    disbands := [];
    for i := 0 to |factions|
      invariant disbands == AllDisbands(state, orders, factions[..i])
    {
      AllDisbandsGrows(state, orders, factions, i);
      var mine := ResolveFactionDisbands(state, factions[i], Max(-deltas[factions[i]], 0), orders);
      disbands := disbands + mine;
    }
    assert factions[..|factions|] == factions;
  }

  /** The adjustment phase as the engine runs it; `AdjustmentOutcome` is its specification. */
  method ResolveAdjustments(state: GameState, homes: HomeCenters, buildOrders: seq<BuildOrder>, disbandOrders: seq<DisbandOrder>)
    returns (result: AdjustmentResult)
    ensures result == AdjustmentOutcome(state, homes, buildOrders, disbandOrders)
  {
    var deltas := Deltas(state);
    var factions := Ascending(state.factions.Keys);
    var builds := ResolveBuilds(state, homes, deltas, buildOrders, factions);
    var disbands := ResolveDisbands(state, deltas, disbandOrders, factions);
    result := AdjustmentResult(builds, disbands);
  }

  function Keep(units: seq<Unit>, gone: set<Id>): seq<Unit> {
    if units == [] then [] else
      (if units[0].regionId in gone then [] else [units[0]]) + Keep(units[1..], gone)
  }

  function Built(builds: seq<BuildResult>): seq<Unit> {
    if builds == [] then [] else
      (if builds[0].accepted then [Unit(builds[0].unitType, builds[0].factionId, builds[0].regionId)] else []) +
      Built(builds[1..])
  }

  function DisbandedRegions(disbands: seq<DisbandResult>): set<Id> {
    set i | 0 <= i < |disbands| :: disbands[i].regionId
  }

  function ApplyAdjustment(state: GameState, result: AdjustmentResult): GameState {
    state.(units := SortByRegion(Keep(state.units, DisbandedRegions(result.disbands)) + Built(result.builds)))
  }
}
