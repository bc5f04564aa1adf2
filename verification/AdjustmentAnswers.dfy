/** How the results of an adjustment answer the orders given: which order each result is about, why a build
    was refused, and in what order results come. */
module AdjustmentAnswers {
  import opened Ordering
  import opened Board
  import opened Adjustment
  import opened AdjustmentTheorems

  // ---------------------------------------------------------------- counting

  /** A faction's strength on the board is the number of its units; its allowance is what its centres
      exceed that by, and what it owes is what they fall short of it by. */
  lemma CountsExactly(state: GameState, f: Id)
    ensures UnitCount(state, f) == |set i | 0 <= i < |state.units| && state.units[i].factionId == f|
    ensures CenterCount(state, f) == |set r | r in state.supplyCenters && state.supplyCenters[r] == f|
    ensures UnitCount(state, f) + Allowed(state, f) == CenterCount(state, f) + Required(state, f)
    ensures Allowed(state, f) == 0 || Required(state, f) == 0
  {
    UnitsOfExactly(state.units, f);
  }

  function PlacesOf(units: seq<Unit>, f: Id): set<int> {
    set i | 0 <= i < |units| && units[i].factionId == f
  }

  lemma UnitsOfAppend(units: seq<Unit>, u: Unit, f: Id)
    ensures UnitsOf(units + [u], f) == UnitsOf(units, f) + if u.factionId == f then [u] else []
  {
    if units == [] {
      assert units + [u] == [u] && [u][1..] == [];
    } else {
      UnitsOfAppend(units[1..], u, f);
      assert (units + [u])[1..] == units[1..] + [u];
    }
  }

  lemma PlacesAppend(units: seq<Unit>, u: Unit, f: Id)
    ensures PlacesOf(units + [u], f) == PlacesOf(units, f) + if u.factionId == f then {|units|} else {}
  {
  }

  lemma {:induction false} UnitsOfExactly(units: seq<Unit>, f: Id)
    ensures |UnitsOf(units, f)| == |PlacesOf(units, f)|
    decreases |units|
  {
    if units != [] {
      var front, last := units[..|units| - 1], units[|units| - 1];
      assert units == front + [last];
      UnitsOfExactly(front, f);
      UnitsOfAppend(front, last, f);
      PlacesAppend(front, last, f);
    }
  }

  // ---------------------------------------------------------------- which order a result answers

  /** `at` lists, in order, the places of `all` charged to `f`. */
  ghost predicate PlacesCharged(charges: seq<Id>, f: Id, at: seq<nat>) {
    && (forall j, k :: 0 <= j < k < |at| ==> at[j] < at[k])
    && (forall k :: 0 <= k < |at| ==> at[k] < |charges| && charges[at[k]] == f)
    && (forall i :: 0 <= i < |charges| && charges[i] == f ==> i in at)
  }

  function BuildCharges(orders: seq<BuildOrder>): seq<Id> {
    seq(|orders|, i requires 0 <= i < |orders| => orders[i].factionId)
  }

  function DisbandCharges(orders: seq<DisbandOrder>): seq<Id> {
    seq(|orders|, i requires 0 <= i < |orders| => orders[i].factionId)
  }

  function Shifted(at: seq<nat>): (r: seq<nat>)
    ensures |r| == |at| && forall k :: 0 <= k < |at| ==> r[k] == at[k] + 1
  {
    seq(|at|, k requires 0 <= k < |at| => at[k] + 1)
  }

  /** All places of `f` but the first of the sequence. */
  ghost predicate LaterPlaces(charges: seq<Id>, f: Id, at: seq<nat>) {
    && (forall j, k :: 0 <= j < k < |at| ==> at[j] < at[k])
    && (forall k :: 0 <= k < |at| ==> 0 < at[k] < |charges| && charges[at[k]] == f)
    && (forall i :: 0 < i < |charges| && charges[i] == f ==> i in at)
  }

  lemma ShiftedPlaces(charges: seq<Id>, f: Id, at: seq<nat>)
    requires charges != [] && PlacesCharged(charges[1..], f, at)
    ensures LaterPlaces(charges, f, Shifted(at))
  {
    forall i | 0 < i < |charges| && charges[i] == f ensures i in Shifted(at) {
      assert charges[1..][i - 1] == f;
      assert i - 1 in at;
      var k :| 0 <= k < |at| && at[k] == i - 1;
      assert Shifted(at)[k] == i;
    }
  }

  lemma FirstPlace(charges: seq<Id>, f: Id, at: seq<nat>)
    requires charges != [] && LaterPlaces(charges, f, at)
    ensures PlacesCharged(charges, f, if charges[0] == f then [0] + at else at)
  {
  }

  lemma PlacesCons(charges: seq<Id>, f: Id, at: seq<nat>)
    requires charges != [] && PlacesCharged(charges[1..], f, at)
    ensures PlacesCharged(charges, f, if charges[0] == f then [0] + Shifted(at) else Shifted(at))
  {
    ShiftedPlaces(charges, f, at);
    FirstPlace(charges, f, Shifted(at));
  }

  ghost predicate BuildsAt(orders: seq<BuildOrder>, mine: seq<BuildOrder>, at: seq<nat>) {
    |at| == |mine| && forall k :: 0 <= k < |at| ==> at[k] < |orders| && mine[k] == orders[at[k]]
  }

  ghost predicate DisbandsAt(orders: seq<DisbandOrder>, mine: seq<Id>, at: seq<nat>) {
    |at| == |mine| && forall k :: 0 <= k < |at| ==> at[k] < |orders| && mine[k] == orders[at[k]].regionId
  }

  lemma BuildsAtCons(orders: seq<BuildOrder>, mine: seq<BuildOrder>, at: seq<nat>)
    requires orders != [] && BuildsAt(orders[1..], mine, at)
    ensures BuildsAt(orders, mine, Shifted(at)) && BuildsAt(orders, [orders[0]] + mine, [0] + Shifted(at))
  {
  }

  lemma DisbandsAtCons(orders: seq<DisbandOrder>, mine: seq<Id>, at: seq<nat>)
    requires orders != [] && DisbandsAt(orders[1..], mine, at)
    ensures DisbandsAt(orders, mine, Shifted(at)) && DisbandsAt(orders, [orders[0].regionId] + mine, [0] + Shifted(at))
  {
  }

  /** A faction's builds are its orders among all those given, in the order they were given in. */
  lemma {:induction false} BuildsOfExactly(orders: seq<BuildOrder>, f: Id) returns (at: seq<nat>)
    ensures PlacesCharged(BuildCharges(orders), f, at) && BuildsAt(orders, BuildsOf(orders, f), at)
  {
    if orders == [] {
      at := [];
    } else {
      var rest := BuildsOfExactly(orders[1..], f);
      assert BuildCharges(orders)[1..] == BuildCharges(orders[1..]);
      PlacesCons(BuildCharges(orders), f, rest);
      BuildsAtCons(orders, BuildsOf(orders[1..], f), rest);
      assert orders[0].factionId != f ==> BuildsOf(orders, f) == BuildsOf(orders[1..], f);
      at := if orders[0].factionId == f then [0] + Shifted(rest) else Shifted(rest);
    }
  }

  /** So are its disbands. */
  lemma {:induction false} DisbandsOfExactly(orders: seq<DisbandOrder>, f: Id) returns (at: seq<nat>)
    ensures PlacesCharged(DisbandCharges(orders), f, at) && DisbandsAt(orders, DisbandsOf(orders, f), at)
  {
    if orders == [] {
      at := [];
    } else {
      var rest := DisbandsOfExactly(orders[1..], f);
      assert DisbandCharges(orders)[1..] == DisbandCharges(orders[1..]);
      PlacesCons(DisbandCharges(orders), f, rest);
      DisbandsAtCons(orders, DisbandsOf(orders[1..], f), rest);
      assert orders[0].factionId != f ==> DisbandsOf(orders, f) == DisbandsOf(orders[1..], f);
      at := if orders[0].factionId == f then [0] + Shifted(rest) else Shifted(rest);
    }
  }

  // ---------------------------------------------------------------- results by faction

  function BuildResultsOf(results: seq<BuildResult>, f: Id): seq<BuildResult> {
    if results == [] then [] else
      BuildResultsOf(results[..|results| - 1], f) +
      if results[|results| - 1].factionId == f then [results[|results| - 1]] else []
  }

  lemma {:induction false} BuildResultsConcat(s: seq<BuildResult>, t: seq<BuildResult>, f: Id)
    ensures BuildResultsOf(s + t, f) == BuildResultsOf(s, f) + BuildResultsOf(t, f)
    decreases |t|
  {
    if t == [] {
      assert s + t == s;
    } else {
      var front, last := t[..|t| - 1], t[|t| - 1];
      BuildResultsConcat(s, front, f);
      assert (s + t)[..|s + t| - 1] == s + front;
    }
  }

  lemma {:induction false} OneFactionsResults(results: seq<BuildResult>, g: Id, f: Id)
    requires forall b :: b in results ==> b.factionId == g
    ensures BuildResultsOf(results, f) == if f == g then results else []
    decreases |results|
  {
    if results != [] {
      OneFactionsResults(results[..|results| - 1], g, f);
      assert results == results[..|results| - 1] + [results[|results| - 1]];
    }
  }

  lemma {:induction false} ResultsByFaction(mine: Id -> seq<BuildResult>, factions: seq<Id>, f: Id)
    requires forall g :: g in factions ==> forall b :: b in mine(g) ==> b.factionId == g
    requires NoDuplicates(factions)
    ensures BuildResultsOf(BuildsFrom(mine, factions), f) == if f in factions then mine(f) else []
    decreases |factions|
  {
    if factions != [] {
      var front, g := factions[..|factions| - 1], factions[|factions| - 1];
      assert factions == front + [g];
      ResultsByFaction(mine, front, f);
      BuildResultsConcat(BuildsFrom(mine, front), mine(g), f);
      OneFactionsResults(mine(g), g, f);
    }
  }

  /** Results come faction by faction, in order of faction. */
  ghost predicate ByFaction(charges: seq<Id>) {
    forall i, j :: 0 <= i < j < |charges| ==> Le(charges[i], charges[j])
  }

  function BuildResultCharges(results: seq<BuildResult>): seq<Id> {
    seq(|results|, i requires 0 <= i < |results| => results[i].factionId)
  }

  lemma {:induction false} ResultsComeByFaction(mine: Id -> seq<BuildResult>, factions: seq<Id>)
    requires (forall g :: g in factions ==> forall b :: b in mine(g) ==> b.factionId == g) && Sorted(factions, Le)
    ensures ByFaction(BuildResultCharges(BuildsFrom(mine, factions)))
    ensures forall b :: b in BuildsFrom(mine, factions) ==> b.factionId in factions
    decreases |factions|
  {
    if factions != [] {
      var front, g := factions[..|factions| - 1], factions[|factions| - 1];
      assert factions == front + [g];
      ResultsComeByFaction(mine, front);
      var s, t := BuildsFrom(mine, front), mine(g);
      LeTotal(g, g);
      var all: seq<BuildResult> := s + t;
      forall i, j | 0 <= i < j < |all| ensures Le(all[i].factionId, all[j].factionId) {
        if j < |s| {
          assert BuildResultCharges(s)[i] == s[i].factionId && BuildResultCharges(s)[j] == s[j].factionId;
        } else {
          assert t[j - |s|] in t;
          if i < |s| {
            assert s[i] in s && s[i].factionId in front;
            var k :| 0 <= k < |front| && front[k] == s[i].factionId;
            assert factions[k] == front[k];
          } else {
            assert t[i - |s|] in t;
          }
        }
      }
    }
  }

  lemma EachFactionsOwn(state: GameState, homes: HomeCenters, builds: seq<BuildOrder>)
    ensures forall g, b :: b in FactionBuilds(state, homes, g, BuildsOf(builds, g)).results ==> b.factionId == g
  {
    forall g ensures GoodProgress(state, g, FactionBuilds(state, homes, g, BuildsOf(builds, g))) {
      FactionBuildsFacts(state, homes, g, BuildsOf(builds, g));
    }
  }

  /** The results of an adjustment, taken faction by faction, are those of each faction's own orders. */
  lemma BuildResultsAreFactions(state: GameState, homes: HomeCenters, builds: seq<BuildOrder>, disbands: seq<DisbandOrder>, f: Id)
    ensures var results := AdjustmentOutcome(state, homes, builds, disbands).builds;
            && ByFaction(BuildResultCharges(results))
            && BuildResultsOf(results, f) ==
               if f in state.factions then FactionBuilds(state, homes, f, BuildsOf(builds, f)).results else []
  {
    var mine := (g: Id) => FactionBuilds(state, homes, g, BuildsOf(builds, g)).results;
    var factions := Ascending(state.factions.Keys);
    EachFactionsOwn(state, homes, builds);
    ResultsByFaction(g => FactionBuilds(state, homes, g, BuildsOf(builds, g)).results, factions, f);
    ResultsComeByFaction(g => FactionBuilds(state, homes, g, BuildsOf(builds, g)).results, factions);
  }

  // ---------------------------------------------------------------- why a build is refused

  /** The check named by `reason` fails for the order, given the faction's results so far. */
  ghost predicate Fails(state: GameState, homes: HomeCenters, f: Id, order: BuildOrder, earlier: seq<BuildResult>, reason: Reason) {
    var r := order.regionId;
    match reason
    case LimitReached => UnitCount(state, f) + |AcceptedAmong(earlier)| >= CenterCount(state, f)
    case NotSupplyCenter => r !in state.regions || !state.regions[r].isSupplyCenter
    case NotHomeCenter => f !in homes || r !in homes[f]
    case NotControlled => r !in state.supplyCenters || state.supplyCenters[r] != f
    case RegionOccupied => (exists u :: u in state.units && u.regionId == r) || BuiltOn(earlier, r)
    case InvalidTerrain =>
      r in state.regions &&
      ((order.unitType == Army && state.regions[r].regionType == Sea) || (order.unitType == Fleet && state.regions[r].regionType == Land))
    case Fine => false
  }

  function Precedence(reason: Reason): nat {
    match reason
    case LimitReached => 0
    case NotSupplyCenter => 1
    case NotHomeCenter => 2
    case NotControlled => 3
    case RegionOccupied => 4
    case InvalidTerrain => 5
    case Fine => 6
  }

  /** The first check that fails, or none. */
  ghost predicate FirstFailure(state: GameState, homes: HomeCenters, f: Id, order: BuildOrder, earlier: seq<BuildResult>, reason: Reason) {
    && (reason == Fine || Fails(state, homes, f, order, earlier, reason))
    && forall other :: Precedence(other) < Precedence(reason) ==> !Fails(state, homes, f, order, earlier, other)
  }

  lemma VerdictIsFirstFailure(state: GameState, homes: HomeCenters, f: Id, order: BuildOrder, p: BuildProgress)
    requires Counts(p)
    ensures FirstFailure(state, homes, f, order, p.results, BuildVerdict(state, homes, f, order, p.accepted, p.used))
  {
    if i :| 0 <= i < |state.units| && state.units[i].regionId == order.regionId {
      assert state.units[i] in state.units;
    }
  }

  /** Each order of a faction is answered, in turn, by one result: for the region and unit ordered, accepted
      exactly when no check fails, and otherwise refused for the first check that does. */
  lemma AnswerExactly(state: GameState, homes: HomeCenters, f: Id, orders: seq<BuildOrder>, k: nat)
    requires k < |orders|
    ensures var rs := FactionBuilds(state, homes, f, orders).results;
            && |rs| == |orders| && rs[k].regionId == orders[k].regionId && rs[k].unitType == orders[k].unitType && rs[k].factionId == f
            && rs[k].accepted == (rs[k].reason == Fine)
            && FirstFailure(state, homes, f, orders[k], rs[..k], rs[k].reason)
  {
    BuildAt(state, homes, f, orders, k);
    VerdictIsFirstFailure(state, homes, f, orders[k], FactionBuilds(state, homes, f, orders[..k]));
  }

  // ---------------------------------------------------------------- disband results

  function DisbandResultsOf(results: seq<DisbandResult>, f: Id): seq<Id> {
    if results == [] then [] else
      DisbandResultsOf(results[..|results| - 1], f) +
      if results[|results| - 1].factionId == f then [results[|results| - 1].regionId] else []
  }

  lemma {:induction false} DisbandResultsConcat(s: seq<DisbandResult>, t: seq<DisbandResult>, f: Id)
    ensures DisbandResultsOf(s + t, f) == DisbandResultsOf(s, f) + DisbandResultsOf(t, f)
    decreases |t|
  {
    if t == [] {
      assert s + t == s;
    } else {
      var front, last := t[..|t| - 1], t[|t| - 1];
      DisbandResultsConcat(s, front, f);
      assert (s + t)[..|s + t| - 1] == s + front;
    }
  }

  lemma {:induction false} OneFactionsDisbands(g: Id, regions: seq<Id>, f: Id)
    ensures DisbandResultsOf(DisbandResults(g, regions), f) == if f == g then regions else []
    decreases |regions|
  {
    if regions != [] {
      var front := regions[..|regions| - 1];
      OneFactionsDisbands(g, front, f);
      assert DisbandResults(g, regions)[..|regions| - 1] == DisbandResults(g, front);
      assert regions == front + [regions[|regions| - 1]];
    }
  }

  lemma {:induction false} DisbandsByFaction(mine: Id -> seq<Id>, factions: seq<Id>, f: Id)
    requires NoDuplicates(factions)
    ensures DisbandResultsOf(DisbandsFrom(mine, factions), f) == if f in factions then mine(f) else []
    decreases |factions|
  {
    if factions != [] {
      var front, g := factions[..|factions| - 1], factions[|factions| - 1];
      assert factions == front + [g];
      DisbandsByFaction(mine, front, f);
      DisbandResultsConcat(DisbandsFrom(mine, front), DisbandResults(g, mine(g)), f);
      OneFactionsDisbands(g, mine(g), f);
    }
  }

  function DisbandResultCharges(results: seq<DisbandResult>): seq<Id> {
    seq(|results|, i requires 0 <= i < |results| => results[i].factionId)
  }

  lemma {:induction false} DisbandsComeByFaction(mine: Id -> seq<Id>, factions: seq<Id>)
    requires Sorted(factions, Le)
    ensures ByFaction(DisbandResultCharges(DisbandsFrom(mine, factions)))
    ensures forall d :: d in DisbandsFrom(mine, factions) ==> d.factionId in factions
    decreases |factions|
  {
    if factions != [] {
      var front, g := factions[..|factions| - 1], factions[|factions| - 1];
      assert factions == front + [g];
      DisbandsComeByFaction(mine, front);
      var s, t := DisbandsFrom(mine, front), DisbandResults(g, mine(g));
      LeTotal(g, g);
      var all: seq<DisbandResult> := s + t;
      forall i, j | 0 <= i < j < |all| ensures Le(all[i].factionId, all[j].factionId) {
        if j < |s| {
          assert DisbandResultCharges(s)[i] == s[i].factionId && DisbandResultCharges(s)[j] == s[j].factionId;
        } else if i < |s| {
          assert s[i] in s && s[i].factionId in front;
          var k :| 0 <= k < |front| && front[k] == s[i].factionId;
          assert factions[k] == front[k];
        }
      }
    }
  }

  /** The disbands of an adjustment, taken faction by faction, are those each faction owes. */
  lemma DisbandResultsAreFactions(state: GameState, homes: HomeCenters, builds: seq<BuildOrder>, disbands: seq<DisbandOrder>, f: Id)
    ensures var results := AdjustmentOutcome(state, homes, builds, disbands).disbands;
            && ByFaction(DisbandResultCharges(results))
            && DisbandResultsOf(results, f) == if f in state.factions then FactionDisbands(state, f, disbands) else []
  {
    var factions := Ascending(state.factions.Keys);
    DisbandsByFaction(g => FactionDisbands(state, g, disbands), factions, f);
    DisbandsComeByFaction(g => FactionDisbands(state, g, disbands), factions);
  }
}
