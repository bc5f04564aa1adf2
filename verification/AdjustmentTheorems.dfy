/** What the adjustment phase guarantees for every board and every set of build and disband orders. */
module AdjustmentTheorems {
  import opened Ordering
  import opened Board
  import opened Adjustment

  // ---------------------------------------------------------------- builds

  function BuiltRegions(builds: seq<BuildResult>, f: Id): set<Id> {
    set b | b in builds && b.accepted && b.factionId == f :: b.regionId
  }

  /** An accepted build stands on a free supply centre that its faction owns, on terrain it may enter. */
  ghost predicate SoundBuild(state: GameState, b: BuildResult) {
    b.accepted ==>
      && b.regionId in state.regions && state.regions[b.regionId].isSupplyCenter
      && MayEnter(b.unitType, state.regions[b.regionId].regionType)
      && b.regionId in state.supplyCenters && state.supplyCenters[b.regionId] == b.factionId
      && !Occupied(state, b.regionId)
  }

  ghost predicate BuildsApart(builds: seq<BuildResult>) {
    forall i, j :: 0 <= i < j < |builds| && builds[i].accepted && builds[j].accepted ==>
      builds[i].regionId != builds[j].regionId
  }

  /** What the engine knows while it goes through one faction's builds. */
  ghost predicate GoodProgress(state: GameState, f: Id, p: BuildProgress) {
    && p.accepted == |p.used| && p.accepted <= Allowed(state, f)
    && (forall b :: b in p.results ==> b.factionId == f && SoundBuild(state, b))
    && BuildsApart(p.results) && p.used == BuiltRegions(p.results, f)
  }

  lemma RejectionKeepsProgress(state: GameState, f: Id, p: BuildProgress, result: BuildResult)
    requires GoodProgress(state, f, p) && result.factionId == f && !result.accepted
    ensures GoodProgress(state, f, p.(results := p.results + [result]))
  {
    BuiltRegionsConcat(p.results, [result], f);
    assert BuiltRegions([result], f) == {};
    ApartConcat(p.results, [result]);
  }

  lemma NewBuildStaysApart(builds: seq<BuildResult>, f: Id, result: BuildResult)
    requires BuildsApart(builds) && forall b :: b in builds ==> b.factionId == f
    requires result.accepted && result.regionId !in BuiltRegions(builds, f)
    ensures BuildsApart(builds + [result])
  {
    forall b | b in builds && b.accepted ensures b.regionId != result.regionId {
      assert b.regionId in BuiltRegions(builds, f);
    }
    ApartConcat(builds, [result]);
  }

  lemma NewBuildIsBuilt(builds: seq<BuildResult>, f: Id, result: BuildResult)
    requires result.accepted && result.factionId == f
    ensures BuiltRegions(builds + [result], f) == BuiltRegions(builds, f) + {result.regionId}
  {
    BuiltRegionsConcat(builds, [result], f);
    assert BuiltRegions([result], f) == {result.regionId};
  }

  lemma AcceptanceKeepsProgress(state: GameState, f: Id, p: BuildProgress, result: BuildResult)
    requires GoodProgress(state, f, p) && result.factionId == f && result.accepted && SoundBuild(state, result)
    requires p.accepted < Allowed(state, f) && result.regionId !in p.used
    ensures GoodProgress(state, f, BuildProgress(p.results + [result], p.used + {result.regionId}, p.accepted + 1))
  {
    NewBuildStaysApart(p.results, f, result);
    NewBuildIsBuilt(p.results, f, result);
  }

  lemma BuildStepKeepsProgress(state: GameState, homes: HomeCenters, f: Id, p: BuildProgress, order: BuildOrder)
    requires GoodProgress(state, f, p)
    ensures GoodProgress(state, f, BuildStep(state, homes, f, p, order))
  {
    var reason := BuildVerdict(state, homes, f, order, p.accepted, p.used);
    var result := BuildResult(f, order.regionId, order.unitType, reason == Fine, reason);
    if reason == Fine {
      AcceptanceKeepsProgress(state, f, p, result);
    } else {
      RejectionKeepsProgress(state, f, p, result);
    }
  }

  lemma {:induction false} FactionBuildsFacts(state: GameState, homes: HomeCenters, f: Id, orders: seq<BuildOrder>)
    ensures GoodProgress(state, f, FactionBuilds(state, homes, f, orders))
    decreases |orders|
  {
    if orders != [] {
      FactionBuildsFacts(state, homes, f, orders[..|orders| - 1]);
      BuildStepKeepsProgress(state, homes, f, FactionBuilds(state, homes, f, orders[..|orders| - 1]), orders[|orders| - 1]);
    }
  }

  /** The build passes every check that does not depend on the faction's other builds. */
  ghost predicate MayBuild(state: GameState, homes: HomeCenters, f: Id, order: BuildOrder) {
    var r := order.regionId;
    && r in state.regions && state.regions[r].isSupplyCenter && MayEnter(order.unitType, state.regions[r].regionType)
    && f in homes && r in homes[f]
    && r in state.supplyCenters && state.supplyCenters[r] == f
    && forall u :: u in state.units ==> u.regionId != r
  }

  function AcceptedAmong(results: seq<BuildResult>): set<int> {
    set i | 0 <= i < |results| && results[i].accepted
  }

  lemma AcceptedGrows(results: seq<BuildResult>, result: BuildResult)
    ensures AcceptedAmong(results + [result]) == AcceptedAmong(results) + if result.accepted then {|results|} else {}
  {
  }

  /** What the counters of a faction's builds stand for. */
  ghost predicate Counts(p: BuildProgress) {
    && p.accepted == |AcceptedAmong(p.results)|
    && forall r :: r in p.used <==> BuiltOn(p.results, r)
  }

  ghost predicate BuiltOn(results: seq<BuildResult>, r: Id) {
    exists i :: 0 <= i < |results| && results[i].accepted && results[i].regionId == r
  }

  lemma BuiltOnGrows(results: seq<BuildResult>, result: BuildResult, r: Id)
    ensures BuiltOn(results + [result], r) <==> BuiltOn(results, r) || (result.accepted && result.regionId == r)
  {
    var longer := results + [result];
    if i :| 0 <= i < |results| && results[i].accepted && results[i].regionId == r {
      assert longer[i] == results[i];
    }
    if result.accepted && result.regionId == r {
      assert longer[|results|] == result;
    }
  }

  lemma ResultCounts(p: BuildProgress, result: BuildResult)
    requires Counts(p)
    ensures Counts(if result.accepted
                   then BuildProgress(p.results + [result], p.used + {result.regionId}, p.accepted + 1)
                   else p.(results := p.results + [result]))
  {
    AcceptedGrows(p.results, result);
    forall r ensures BuiltOn(p.results + [result], r) <==> BuiltOn(p.results, r) || (result.accepted && result.regionId == r) {
      BuiltOnGrows(p.results, result, r);
    }
  }

  lemma StepCounts(state: GameState, homes: HomeCenters, f: Id, p: BuildProgress, order: BuildOrder)
    requires Counts(p)
    ensures Counts(BuildStep(state, homes, f, p, order)) && |BuildStep(state, homes, f, p, order).results| == |p.results| + 1
  {
    var reason := BuildVerdict(state, homes, f, order, p.accepted, p.used);
    ResultCounts(p, BuildResult(f, order.regionId, order.unitType, reason == Fine, reason));
  }

  lemma {:induction false} ProgressCounts(state: GameState, homes: HomeCenters, f: Id, orders: seq<BuildOrder>)
    ensures var p := FactionBuilds(state, homes, f, orders); |p.results| == |orders| && Counts(p)
    decreases |orders|
  {
    if orders != [] {
      var front := orders[..|orders| - 1];
      ProgressCounts(state, homes, f, front);
      StepCounts(state, homes, f, FactionBuilds(state, homes, f, front), orders[|orders| - 1]);
    }
  }

  lemma {:induction false} BuildsPrefix(state: GameState, homes: HomeCenters, f: Id, orders: seq<BuildOrder>, k: nat)
    requires k <= |orders|
    ensures |FactionBuilds(state, homes, f, orders).results| == |orders|
    ensures FactionBuilds(state, homes, f, orders[..k]).results == FactionBuilds(state, homes, f, orders).results[..k]
    decreases |orders|
  {
    ProgressCounts(state, homes, f, orders);
    if k < |orders| {
      var front := orders[..|orders| - 1];
      BuildsPrefix(state, homes, f, front, k);
      assert front[..k] == orders[..k];
    } else {
      assert orders[..k] == orders;
    }
  }

  /** The `k`-th result is what the `k`-th order makes of the results before it. */
  lemma BuildAt(state: GameState, homes: HomeCenters, f: Id, orders: seq<BuildOrder>, k: nat)
    requires k < |orders|
    ensures var rs, p := FactionBuilds(state, homes, f, orders).results, FactionBuilds(state, homes, f, orders[..k]);
            && |rs| == |orders| && rs[..k] == p.results && |p.results| == k && Counts(p)
            && |BuildStep(state, homes, f, p, orders[k]).results| == k + 1
            && rs[k] == BuildStep(state, homes, f, p, orders[k]).results[k]
  {
    BuildsPrefix(state, homes, f, orders, k);
    BuildsPrefix(state, homes, f, orders, k + 1);
    assert orders[..k + 1][..k] == orders[..k];
    ProgressCounts(state, homes, f, orders[..k]);
  }

  /** A build is accepted exactly when it passes its checks, its region was not built on before, and the
      allowance was not yet used up. */
  lemma BuildExactly(state: GameState, homes: HomeCenters, f: Id, orders: seq<BuildOrder>, k: nat)
    requires k < |orders|
    ensures var rs := FactionBuilds(state, homes, f, orders).results;
            && |rs| == |orders| && rs[k].regionId == orders[k].regionId && rs[k].unitType == orders[k].unitType && rs[k].factionId == f
            && (rs[k].accepted <==>
                  MayBuild(state, homes, f, orders[k]) && |AcceptedAmong(rs[..k])| < Allowed(state, f) &&
                  !BuiltOn(rs[..k], orders[k].regionId))
  {
    BuildAt(state, homes, f, orders, k);
    BuildStepExactly(state, homes, f, FactionBuilds(state, homes, f, orders[..k]), orders[k]);
  }

  lemma BuildStepExactly(state: GameState, homes: HomeCenters, f: Id, p: BuildProgress, order: BuildOrder)
    ensures var q := BuildStep(state, homes, f, p, order);
            && |q.results| == |p.results| + 1
            && var result := q.results[|p.results|];
               && result.regionId == order.regionId && result.unitType == order.unitType && result.factionId == f
               && (result.accepted <==>
                     MayBuild(state, homes, f, order) && p.accepted < Allowed(state, f) && order.regionId !in p.used)
  {
    if i :| 0 <= i < |state.units| && state.units[i].regionId == order.regionId {
      assert state.units[i] in state.units;
    }
  }

  lemma {:induction false} AllBuildsFacts(state: GameState, mine: Id -> seq<BuildResult>, factions: seq<Id>)
    requires forall i, j :: 0 <= i < j < |factions| ==> factions[i] != factions[j]
    requires forall f :: f in factions ==> BuildsApart(mine(f)) && forall b :: b in mine(f) ==> b.factionId == f && SoundBuild(state, b)
    ensures var builds := BuildsFrom(mine, factions);
            && (forall b :: b in builds ==> b.factionId in factions && SoundBuild(state, b))
            && BuildsApart(builds)
    decreases |factions|
  {
    if factions != [] {
      var front, f := factions[..|factions| - 1], factions[|factions| - 1];
      assert factions == front + [f];
      AllBuildsFacts(state, mine, front);
      var s, t := BuildsFrom(mine, front), mine(f);
      forall i, j | 0 <= i < |s| && 0 <= j < |t| && s[i].accepted && t[j].accepted
        ensures s[i].regionId != t[j].regionId
      {
        assert s[i] in s && t[j] in t;
        assert SoundBuild(state, s[i]) && SoundBuild(state, t[j]);
      }
      ApartConcat(s, t);
    }
  }

  lemma ApartConcat(s: seq<BuildResult>, t: seq<BuildResult>)
    requires BuildsApart(s) && BuildsApart(t)
    requires forall i, j :: 0 <= i < |s| && 0 <= j < |t| && s[i].accepted && t[j].accepted ==> s[i].regionId != t[j].regionId
    ensures BuildsApart(s + t)
  {
  }

  lemma BuiltRegionsConcat(s: seq<BuildResult>, t: seq<BuildResult>, f: Id)
    ensures BuiltRegions(s + t, f) == BuiltRegions(s, f) + BuiltRegions(t, f)
  {
  }

  lemma {:induction false} BuildCharged(mine: Id -> seq<BuildResult>, factions: seq<Id>, f: Id)
    requires forall g :: g in factions ==> forall b :: b in mine(g) ==> b.factionId == g
    ensures forall r :: r in BuiltRegions(BuildsFrom(mine, factions), f) <==> f in factions && r in BuiltRegions(mine(f), f)
    decreases |factions|
  {
    if factions != [] {
      var front, g := factions[..|factions| - 1], factions[|factions| - 1];
      assert factions == front + [g];
      BuildCharged(mine, front, f);
      BuiltRegionsConcat(BuildsFrom(mine, front), mine(g), f);
      assert f != g ==> BuiltRegions(mine(g), f) == {};
    }
  }

  lemma BuiltByFaction(state: GameState, homes: HomeCenters, orders: seq<BuildOrder>, factions: seq<Id>, f: Id)
    ensures BuiltRegions(AllBuilds(state, homes, orders, factions), f) ==
            if f in factions then FactionBuilds(state, homes, f, BuildsOf(orders, f)).used else {}
  {
    forall g ensures GoodProgress(state, g, FactionBuilds(state, homes, g, BuildsOf(orders, g))) {
      FactionBuildsFacts(state, homes, g, BuildsOf(orders, g));
    }
    BuildCharged(g => FactionBuilds(state, homes, g, BuildsOf(orders, g)).results, factions, f);
  }

  // ---------------------------------------------------------------- disbands

  lemma {:induction false} ReversedElements(s: seq<Id>)
    ensures |Reversed(s)| == |s|
    ensures forall x :: x in Reversed(s) <==> x in s
    ensures forall i :: 0 <= i < |s| ==> Reversed(s)[i] == s[|s| - 1 - i]
  {
    if s != [] {
      ReversedElements(s[1..]);
      assert s == [s[0]] + s[1..];
    }
  }

  lemma DescendingFacts(s: set<Id>)
    ensures |Descending(s)| == |s|
    ensures forall x :: x in Descending(s) <==> x in s
    ensures forall i, j :: 0 <= i < j < |Descending(s)| ==>
              Descending(s)[i] != Descending(s)[j] && Le(Descending(s)[j], Descending(s)[i])
  {
    ReversedElements(Ascending(s));
  }

  lemma {:induction false} ExplicitFacts(owned: set<Id>, required: nat, regions: seq<Id>)
    ensures var chosen := Explicit(owned, required, regions);
            && NoDuplicates(chosen) && |chosen| <= required
            && (forall r :: r in chosen ==> r in owned && r in regions)
            && (|chosen| == required || forall r :: r in regions && r in owned ==> r in chosen)
    decreases |regions|
  {
    if regions != [] {
      ExplicitFacts(owned, required, regions[..|regions| - 1]);
      assert regions == regions[..|regions| - 1] + [regions[|regions| - 1]];
    }
  }

  lemma {:induction false} DistinctCardinality(s: seq<Id>)
    requires NoDuplicates(s)
    ensures |Elements(s)| == |s|
  {
    if s != [] {
      DistinctCardinality(s[1..]);
      assert s == [s[0]] + s[1..];
      assert Elements(s) == {s[0]} + Elements(s[1..]);
    }
  }

  lemma FilledShape(owned: set<Id>, required: nat, chosen: seq<Id>)
    requires NoDuplicates(chosen) && |chosen| <= required <= |owned| && forall r :: r in chosen ==> r in owned
    ensures var remaining := Descending(owned - Elements(chosen));
            && required - |chosen| <= |remaining|
            && Filled(owned, required, chosen) == chosen + remaining[..required - |chosen|]
  {
    var taken := Elements(chosen);
    var remaining := Descending(owned - taken);
    DescendingFacts(owned - taken);
    DistinctCardinality(chosen);
    assert taken <= owned && |owned - taken| == |owned| - |taken|;
    if |chosen| == required {
      assert chosen + remaining[..0] == chosen;
    } else if |chosen| + |remaining| <= required {
      assert remaining[..required - |chosen|] == remaining;
    }
  }

  /** A full choice: distinct regions of the faction, the given ones first, then the last in order. */
  ghost predicate GoodChoice(owned: set<Id>, required: nat, chosen: seq<Id>, filled: seq<Id>) {
    && NoDuplicates(filled) && |filled| == required
    && (forall r :: r in filled ==> r in owned)
    && (forall r :: r in chosen ==> r in filled)
    && (forall d, u :: d in filled && d !in chosen && u in owned && u !in filled ==> Le(u, d))
  }

  lemma FilledFacts(owned: set<Id>, required: nat, chosen: seq<Id>)
    requires NoDuplicates(chosen) && |chosen| <= required <= |owned| && forall r :: r in chosen ==> r in owned
    ensures GoodChoice(owned, required, chosen, Filled(owned, required, chosen))
  {
    FilledShape(owned, required, chosen);
    DescendingFacts(owned - Elements(chosen));
    TopUp(owned, required, chosen, Descending(owned - Elements(chosen)));
  }

  /** Topping a choice up with the first `n` of the remaining regions, listed last region first. */
  lemma TopUp(owned: set<Id>, required: nat, chosen: seq<Id>, remaining: seq<Id>)
    requires NoDuplicates(chosen) && NoDuplicates(remaining) && |chosen| <= required <= |chosen| + |remaining|
    requires forall r :: r in remaining <==> r in owned && r !in chosen
    requires forall r :: r in chosen ==> r in owned
    requires forall i, j :: 0 <= i < j < |remaining| ==> Le(remaining[j], remaining[i])
    ensures GoodChoice(owned, required, chosen, chosen + remaining[..required - |chosen|])
  {
    var n := required - |chosen|;
    assert forall r :: r in remaining[..n] ==> r in remaining;
    DistinctJoin(chosen, remaining[..n]);
    forall d, u | d in remaining[..n] && u in remaining && u !in remaining[..n] ensures Le(u, d) {
      LastRegionsFirst(remaining, n, d, u);
    }
  }

  lemma DistinctJoin(s: seq<Id>, t: seq<Id>)
    requires NoDuplicates(s) && NoDuplicates(t) && forall x :: x in s ==> x !in t
    ensures NoDuplicates(s + t)
  {
    forall i, j | 0 <= i < j < |s + t| ensures (s + t)[i] != (s + t)[j] {
      if i < |s| <= j { assert s[i] in s && t[j - |s|] in t; }
    }
  }

  lemma LastRegionsFirst(remaining: seq<Id>, n: nat, d: Id, u: Id)
    requires n <= |remaining| && d in remaining[..n] && u in remaining && u !in remaining[..n]
    requires forall i, j :: 0 <= i < j < |remaining| ==> Le(remaining[j], remaining[i])
    ensures Le(u, d)
  {
    var i :| 0 <= i < n && remaining[..n][i] == d;
    var j :| 0 <= j < |remaining| && remaining[j] == u;
    assert forall k :: 0 <= k < n ==> remaining[..n][k] == remaining[k];
  }

  lemma HeadStandsAlone(units: seq<Unit>)
    requires DistinctRegions(units) && units != []
    ensures forall u :: u in units[1..] ==> u.regionId != units[0].regionId
  {
    forall u | u in units[1..] ensures u.regionId != units[0].regionId {
      var i :| 0 <= i < |units[1..]| && units[1..][i] == u;
      assert units[i + 1] == u;
    }
  }

  lemma RegionsCons(units: seq<Unit>, f: Id)
    requires units != []
    ensures FactionRegions(units, f) ==
            FactionRegions(units[1..], f) + if units[0].factionId == f then {units[0].regionId} else {}
  {
    assert units == [units[0]] + units[1..];
  }

  lemma {:induction false} CountIsRegions(units: seq<Unit>, f: Id)
    requires DistinctRegions(units)
    ensures |UnitsOf(units, f)| == |FactionRegions(units, f)|
  {
    if units != [] {
      CountIsRegions(units[1..], f);
      HeadStandsAlone(units);
      RegionsCons(units, f);
    }
  }

  /** A faction gives up exactly as many of its units as it must, each once; the units it named itself
      go first, and only if those do not suffice the ones in its last regions follow. */
  lemma FactionDisbandsFacts(state: GameState, f: Id, orders: seq<DisbandOrder>)
    requires DistinctRegions(state.units)
    ensures var owned, named, gone := FactionRegions(state.units, f), DisbandsOf(orders, f), FactionDisbands(state, f, orders);
            && NoDuplicates(gone) && |gone| == Required(state, f) && Sorted(gone, Le)
            && (forall r :: r in gone ==> r in owned)
            && ((forall r :: r in named && r in owned ==> r in gone) || (forall r :: r in gone ==> r in named))
            && (forall d, u :: d in gone && d !in named && u in owned && u !in gone ==> Le(u, d))
  {
    var owned, required, named := FactionRegions(state.units, f), Required(state, f), DisbandsOf(orders, f);
    CountIsRegions(state.units, f);
    if required > 0 {
      var explicit := Explicit(owned, required, named);
      ExplicitFacts(owned, required, named);
      FilledFacts(owned, required, explicit);
      var filled := Filled(owned, required, explicit);
      SortKeeps(filled, Le);
      SameElements(filled, Sort(filled, Le));
      DistinctSorted(filled);
      LeIsOrder();
      SortSorts(filled, Le);
    }
  }

  lemma LeIsOrder()
    ensures TotalPreorder(Le)
  {
    forall x, y ensures Le(x, y) || Le(y, x) { LeTotal(x, y); }
    forall x, y, z | Le(x, y) && Le(y, z) ensures Le(x, z) { LeTransitive(x, y, z); }
  }

  /** A valid name passed over was named after everything that went. */
  ghost predicate NamedTooLate(named: seq<Id>, gone: seq<Id>, r: Id) {
    exists k: nat :: k <= |named| && r !in named[..k] && forall g :: g in gone ==> g in named[..k]
  }

  lemma {:induction false} ExplicitIsFirst(owned: set<Id>, required: nat, regions: seq<Id>, r: Id)
    requires r in regions && r in owned && r !in Explicit(owned, required, regions)
    ensures |Explicit(owned, required, regions)| >= required
    ensures NamedTooLate(regions, Explicit(owned, required, regions), r)
    decreases |regions|
  {
    var n := |regions| - 1;
    var front, last := regions[..n], regions[n];
    assert regions == front + [last];
    var chosen := Explicit(owned, required, front);
    if r in front {
      ExplicitIsFirst(owned, required, front, r);
      var k: nat :| k <= n && r !in front[..k] && forall g :: g in chosen ==> g in front[..k];
      assert front[..k] == regions[..k];
    } else {
      ExplicitFacts(owned, required, front);
    }
  }

  /** When a faction names more of its units than must go, the first ones named go. */
  lemma FirstNamedGoFirst(state: GameState, f: Id, orders: seq<DisbandOrder>, r: Id)
    requires DistinctRegions(state.units) && Required(state, f) > 0
    requires r in DisbandsOf(orders, f) && r in FactionRegions(state.units, f) && r !in FactionDisbands(state, f, orders)
    ensures NamedTooLate(DisbandsOf(orders, f), FactionDisbands(state, f, orders), r)
  {
    var owned, required, named := FactionRegions(state.units, f), Required(state, f), DisbandsOf(orders, f);
    var explicit := Explicit(owned, required, named);
    CountIsRegions(state.units, f);
    ExplicitFacts(owned, required, named);
    FilledFacts(owned, required, explicit);
    DistinctSorted(Filled(owned, required, explicit));
    ExplicitIsFirst(owned, required, named, r);
  }

  lemma {:induction false} DistinctInsert(x: Id, s: seq<Id>)
    requires NoDuplicates(s) && x !in s
    ensures NoDuplicates(Insert(x, s, Le))
    ensures forall y :: y in Insert(x, s, Le) <==> y == x || y in s
  {
    if s != [] {
      assert s == [s[0]] + s[1..];
      DistinctInsert(x, s[1..]);
      DistinctJoin([s[0]], Insert(x, s[1..], Le));
      DistinctJoin([x], s);
    }
  }

  lemma {:induction false} DistinctSorted(s: seq<Id>)
    requires NoDuplicates(s)
    ensures NoDuplicates(Sort(s, Le))
    ensures forall y :: y in Sort(s, Le) <==> y in s
  {
    if s != [] {
      assert s == [s[0]] + s[1..];
      DistinctSorted(s[1..]);
      DistinctInsert(s[0], Sort(s[1..], Le));
    }
  }

  function DisbandedBy(disbands: seq<DisbandResult>, f: Id): set<Id> {
    set d | d in disbands && d.factionId == f :: d.regionId
  }

  lemma InDisbandedBy(g: Id, regions: seq<Id>, f: Id, r: Id)
    ensures r in DisbandedBy(DisbandResults(g, regions), f) <==> f == g && r in regions
  {
    if f == g && r in regions {
      var i :| 0 <= i < |regions| && regions[i] == r;
      assert DisbandResults(g, regions)[i] in DisbandResults(g, regions);
    }
  }

  lemma {:induction false} DisbandCharged(mine: Id -> seq<Id>, factions: seq<Id>, f: Id, r: Id)
    ensures r in DisbandedBy(DisbandsFrom(mine, factions), f) <==> f in factions && r in mine(f)
    decreases |factions|
  {
    if factions != [] {
      var front, g := factions[..|factions| - 1], factions[|factions| - 1];
      DisbandCharged(mine, front, f, r);
      assert factions == front + [g];
      InDisbandedBy(g, mine(g), f, r);
    }
  }

  lemma DisbandedByFaction(state: GameState, orders: seq<DisbandOrder>, factions: seq<Id>, f: Id)
    ensures DisbandedBy(AllDisbands(state, orders, factions), f) ==
            if f in factions then Elements(FactionDisbands(state, f, orders)) else {}
  {
    var mine := (g: Id) => FactionDisbands(state, g, orders);
    forall r ensures r in DisbandedBy(AllDisbands(state, orders, factions), f) <==> f in factions && r in mine(f) {
      DisbandCharged(g => FactionDisbands(state, g, orders), factions, f, r);
    }
  }

  // ---------------------------------------------------------------- the board after adjustment

  lemma KeepFacts(units: seq<Unit>, gone: set<Id>)
    ensures forall u :: u in Keep(units, gone) <==> u in units && u.regionId !in gone
    ensures DistinctRegions(units) ==> DistinctRegions(Keep(units, gone))
  {
    if units != [] {
      KeepFacts(units[1..], gone);
      assert units == [units[0]] + units[1..];
      if DistinctRegions(units) {
        HeadStandsAlone(units);
      }
    }
  }

  lemma BuiltFacts(builds: seq<BuildResult>)
    ensures forall u :: u in Built(builds) <==>
              exists b :: b in builds && b.accepted && u == Unit(b.unitType, b.factionId, b.regionId)
    ensures BuildsApart(builds) ==> DistinctRegions(Built(builds))
  {
    if builds != [] {
      BuiltFacts(builds[1..]);
      assert builds == [builds[0]] + builds[1..];
      if BuildsApart(builds) && builds[0].accepted {
        forall u | u in Built(builds[1..]) ensures u.regionId != builds[0].regionId {
          var b :| b in builds[1..] && b.accepted && u == Unit(b.unitType, b.factionId, b.regionId);
          var i :| 0 <= i < |builds[1..]| && builds[1..][i] == b;
          assert builds[i + 1] == b;
        }
      }
    }
  }

  ghost function AfterAdjustment(state: GameState, homes: HomeCenters, builds: seq<BuildOrder>, disbands: seq<DisbandOrder>): GameState {
    ApplyAdjustment(state, AdjustmentOutcome(state, homes, builds, disbands))
  }

  lemma NewUnits(state: GameState, homes: HomeCenters, builds: seq<BuildOrder>, disbands: seq<DisbandOrder>)
    requires LegalBoard(state)
    ensures var result := AdjustmentOutcome(state, homes, builds, disbands);
            && (forall b :: b in result.builds ==> b.factionId in state.factions && SoundBuild(state, b))
            && BuildsApart(result.builds)
            && (forall u :: u in Built(result.builds) ==> LegalUnit(state, u) && forall v :: v in state.units ==> v.regionId != u.regionId)
  {
    var factions := Ascending(state.factions.Keys);
    forall f ensures GoodProgress(state, f, FactionBuilds(state, homes, f, BuildsOf(builds, f))) {
      FactionBuildsFacts(state, homes, f, BuildsOf(builds, f));
    }
    AllBuildsFacts(state, f => FactionBuilds(state, homes, f, BuildsOf(builds, f)).results, factions);
    var result := AdjustmentOutcome(state, homes, builds, disbands);
    BuiltFacts(result.builds);
    forall u | u in Built(result.builds)
      ensures LegalUnit(state, u) && forall v :: v in state.units ==> v.regionId != u.regionId
    {
      var b :| b in result.builds && b.accepted && u == Unit(b.unitType, b.factionId, b.regionId);
      assert SoundBuild(state, b);
    }
  }

  /** Adjustment takes a legal board to a legal board, whatever is ordered. */
  lemma AdjustmentKeepsBoard(state: GameState, homes: HomeCenters, builds: seq<BuildOrder>, disbands: seq<DisbandOrder>)
    requires LegalBoard(state)
    ensures LegalBoard(AfterAdjustment(state, homes, builds, disbands))
  {
    var result := AdjustmentOutcome(state, homes, builds, disbands);
    var kept, built := Keep(state.units, DisbandedRegions(result.disbands)), Built(result.builds);
    NewUnits(state, homes, builds, disbands);
    KeepFacts(state.units, DisbandedRegions(result.disbands));
    BuiltFacts(result.builds);
    DistinctConcat(kept, built);
    SortByRegionKeeps(kept + built);
  }

  /** After adjustment stand exactly the units that were not disbanded, unchanged, and the accepted builds. */
  lemma UnitsAfterAdjustment(state: GameState, homes: HomeCenters, builds: seq<BuildOrder>, disbands: seq<DisbandOrder>, u: Unit)
    ensures var result := AdjustmentOutcome(state, homes, builds, disbands);
            u in AfterAdjustment(state, homes, builds, disbands).units <==>
              || (u in state.units && forall d :: d in result.disbands ==> d.regionId != u.regionId)
              || exists b :: b in result.builds && b.accepted && u == Unit(b.unitType, b.factionId, b.regionId)
  {
    var result := AdjustmentOutcome(state, homes, builds, disbands);
    var gone := DisbandedRegions(result.disbands);
    KeepFacts(state.units, gone);
    BuiltFacts(result.builds);
    SortByRegionKeeps(Keep(state.units, gone) + Built(result.builds));
    assert u.regionId in gone <==> exists d :: d in result.disbands && d.regionId == u.regionId;
  }

  lemma RegionsOfMerged(s: seq<Unit>, t: seq<Unit>, f: Id)
    ensures FactionRegions(SortByRegion(s + t), f) == FactionRegions(s, f) + FactionRegions(t, f)
  {
    SortByRegionKeeps(s + t);
  }

  lemma RegionsOfBuilt(builds: seq<BuildResult>, f: Id)
    ensures FactionRegions(Built(builds), f) == BuiltRegions(builds, f)
  {
    BuiltFacts(builds);
    forall b | b in builds && b.accepted && b.factionId == f
      ensures b.regionId in FactionRegions(Built(builds), f)
    {
      assert Unit(b.unitType, b.factionId, b.regionId) in Built(builds);
    }
  }

  lemma RegionsOfKept(state: GameState, orders: seq<DisbandOrder>, f: Id)
    requires DistinctRegions(state.units)
    ensures var all := AllDisbands(state, orders, Ascending(state.factions.Keys));
            FactionRegions(Keep(state.units, DisbandedRegions(all)), f) == FactionRegions(state.units, f) - DisbandedBy(all, f)
  {
    var all := AllDisbands(state, orders, Ascending(state.factions.Keys));
    var gone := DisbandedRegions(all);
    KeepFacts(state.units, gone);
    forall u | u in state.units && u.factionId == f ensures u.regionId in gone <==> u.regionId in DisbandedBy(all, f) {
      if u.regionId in gone {
        DisbandsHitOwners(state, orders, u);
      }
      if u.regionId in DisbandedBy(all, f) {
        var d :| d in all && d.factionId == f && d.regionId == u.regionId;
        var i :| 0 <= i < |all| && all[i] == d;
      }
    }
  }

  lemma RegionsAfter(state: GameState, homes: HomeCenters, builds: seq<BuildOrder>, disbands: seq<DisbandOrder>, f: Id)
    requires LegalBoard(state)
    ensures var result := AdjustmentOutcome(state, homes, builds, disbands);
            FactionRegions(AfterAdjustment(state, homes, builds, disbands).units, f) ==
            FactionRegions(state.units, f) - DisbandedBy(result.disbands, f) + BuiltRegions(result.builds, f)
  {
    var result := AdjustmentOutcome(state, homes, builds, disbands);
    RegionsOfMerged(Keep(state.units, DisbandedRegions(result.disbands)), Built(result.builds), f);
    RegionsOfBuilt(result.builds, f);
    RegionsOfKept(state, disbands, f);
  }

  /** The region of a disband belongs to the faction it is charged to. */
  lemma DisbandsHitOwners(state: GameState, orders: seq<DisbandOrder>, u: Unit)
    requires DistinctRegions(state.units) && u in state.units
    requires u.regionId in DisbandedRegions(AllDisbands(state, orders, Ascending(state.factions.Keys)))
    ensures u.regionId in DisbandedBy(AllDisbands(state, orders, Ascending(state.factions.Keys)), u.factionId)
  {
    var all := AllDisbands(state, orders, Ascending(state.factions.Keys));
    var i :| 0 <= i < |all| && all[i].regionId == u.regionId;
    var g := all[i].factionId;
    assert all[i] in all && all[i].regionId in DisbandedBy(all, g);
    DisbandedByFaction(state, orders, Ascending(state.factions.Keys), g);
    FactionDisbandsFacts(state, g, orders);
    var v :| v in state.units && v.factionId == g && v.regionId == u.regionId;
    var j :| 0 <= j < |state.units| && state.units[j] == u;
    var k :| 0 <= k < |state.units| && state.units[k] == v;
  }

  /** After adjustment a faction has at most as many units as centres, and exactly as many if it owed
      disbands; its accepted builds stay within its allowance. */
  lemma UnitsMatchCenters(state: GameState, homes: HomeCenters, builds: seq<BuildOrder>, disbands: seq<DisbandOrder>, f: Id)
    requires LegalBoard(state) && f in state.factions
    ensures var result := AdjustmentOutcome(state, homes, builds, disbands);
            var after := AfterAdjustment(state, homes, builds, disbands);
            && CenterCount(after, f) == CenterCount(state, f)
            && UnitCount(after, f) <= CenterCount(after, f)
            && (UnitCount(state, f) >= CenterCount(state, f) ==> UnitCount(after, f) == CenterCount(after, f))
            && |BuiltRegions(result.builds, f)| <= Allowed(state, f)
            && UnitCount(after, f) == UnitCount(state, f) - Required(state, f) + |BuiltRegions(result.builds, f)|
  {
    var result := AdjustmentOutcome(state, homes, builds, disbands);
    var after := AfterAdjustment(state, homes, builds, disbands);
    var factions := Ascending(state.factions.Keys);
    AdjustmentKeepsBoard(state, homes, builds, disbands);
    RegionsAfter(state, homes, builds, disbands, f);
    CountIsRegions(state.units, f);
    CountIsRegions(after.units, f);
    BuiltByFaction(state, homes, builds, factions, f);
    FactionBuildsFacts(state, homes, f, BuildsOf(builds, f));
    DisbandedByFaction(state, disbands, factions, f);
    FactionDisbandsFacts(state, f, disbands);
    DistinctCardinality(FactionDisbands(state, f, disbands));
    BuiltAreNew(state, homes, builds, disbands, f);
    var owned, gone, built := FactionRegions(state.units, f), DisbandedBy(result.disbands, f), BuiltRegions(result.builds, f);
    assert gone <= owned && owned !! built;
    Cardinalities(owned, gone, built);
  }

  lemma Cardinalities(owned: set<Id>, gone: set<Id>, built: set<Id>)
    requires gone <= owned && owned !! built
    ensures |owned - gone + built| == |owned| - |gone| + |built|
  {
    assert owned == owned - gone + gone;
  }

  lemma BuiltAreNew(state: GameState, homes: HomeCenters, builds: seq<BuildOrder>, disbands: seq<DisbandOrder>, f: Id)
    requires LegalBoard(state)
    ensures FactionRegions(state.units, f) !! BuiltRegions(AdjustmentOutcome(state, homes, builds, disbands).builds, f)
  {
    var result := AdjustmentOutcome(state, homes, builds, disbands);
    NewUnits(state, homes, builds, disbands);
    forall r | r in BuiltRegions(result.builds, f) ensures r !in FactionRegions(state.units, f) {
      var b :| b in result.builds && b.accepted && b.factionId == f && b.regionId == r;
      assert SoundBuild(state, b);
    }
  }

  /** Applying an adjustment changes the units and nothing else: no centre changes hands. They are listed by region. */
  lemma AdjustmentTouchesOnlyUnits(state: GameState, result: AdjustmentResult)
    ensures ApplyAdjustment(state, result) == state.(units := ApplyAdjustment(state, result).units)
    ensures InRegionOrder(ApplyAdjustment(state, result).units)
  {
    SortedByRegion(Keep(state.units, DisbandedRegions(result.disbands)) + Built(result.builds));
  }

  lemma {:induction false} NobodyBuilds(mine: Id -> seq<BuildResult>, factions: seq<Id>)
    requires forall f :: f in factions ==> mine(f) == []
    ensures BuildsFrom(mine, factions) == []
    decreases |factions|
  {
    if factions != [] {
      NobodyBuilds(mine, factions[..|factions| - 1]);
    }
  }

  /** No unit goes while one of the same faction in a later region stays. */
  ghost predicate LastFirst(before: GameState, after: GameState) {
    forall u, v :: u in before.units && u !in after.units && v in after.units && v.factionId == u.factionId ==>
      Le(v.regionId, u.regionId)
  }

  /** With nothing ordered, units go from the last region down until each faction is within its centres. */
  lemma DefaultDisbands(state: GameState, homes: HomeCenters)
    requires LegalBoard(state)
    ensures var after := AfterAdjustment(state, homes, [], []);
            && (forall u :: u in after.units ==> u in state.units) && LastFirst(state, after)
            && forall f :: f in state.factions ==>
                 UnitCount(after, f) == if UnitCount(state, f) <= CenterCount(state, f) then UnitCount(state, f) else CenterCount(state, f)
  {
    var result, after := AdjustmentOutcome(state, homes, [], []), AfterAdjustment(state, homes, [], []);
    var factions := Ascending(state.factions.Keys);
    NobodyBuilds(f => FactionBuilds(state, homes, f, BuildsOf([], f)).results, factions);
    assert result.builds == [];
    forall u ensures u in after.units ==> u in state.units {
      UnitsAfterAdjustment(state, homes, [], [], u);
    }
    forall u, v | u in state.units && u !in after.units && v in after.units && v.factionId == u.factionId
      ensures Le(v.regionId, u.regionId)
    {
      UnitsAfterAdjustment(state, homes, [], [], v);
      LastRegionGoes(state, homes, u, v);
    }
    forall f | f in state.factions
      ensures UnitCount(after, f) == if UnitCount(state, f) <= CenterCount(state, f) then UnitCount(state, f) else CenterCount(state, f)
    {
      UnitsMatchCenters(state, homes, [], [], f);
      assert BuiltRegions(result.builds, f) == {};
    }
  }

  lemma LastRegionGoes(state: GameState, homes: HomeCenters, u: Unit, v: Unit)
    requires LegalBoard(state) && u in state.units && v in state.units && v.factionId == u.factionId
    requires var disbands := AdjustmentOutcome(state, homes, [], []).disbands;
             && u !in AfterAdjustment(state, homes, [], []).units
             && forall d :: d in disbands ==> d.regionId != v.regionId
    ensures Le(v.regionId, u.regionId)
  {
    var disbands, f := AllDisbands(state, [], Ascending(state.factions.Keys)), u.factionId;
    UnitsAfterAdjustment(state, homes, [], [], u);
    var d :| d in disbands && d.regionId == u.regionId;
    var i :| 0 <= i < |disbands| && disbands[i] == d;
    assert u.regionId in DisbandedRegions(disbands);
    DisbandsHitOwners(state, [], u);
    DisbandedByFaction(state, [], Ascending(state.factions.Keys), f);
    FactionDisbandsFacts(state, f, []);
    assert v.regionId in FactionRegions(state.units, f);
    assert v.regionId in FactionDisbands(state, f, []) ==> v.regionId in DisbandedBy(disbands, f);
    assert v.regionId !in DisbandedBy(disbands, f);
  }
}
