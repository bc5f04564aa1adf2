/** The retreat phase, and the change of supply-centre ownership that follows movement. */
module Retreats {
  import opened Ordering
  import opened Board
  import opened Movement
  import opened Adjudication
  import opened MovementTheorems

  datatype RetreatOrder = RetreatOrder(unit: Id, destination: Option<Id>)

  datatype RetreatUnitResult = RetreatUnitResult(
    regionId: Id, factionId: Id, unitType: UnitType, destination: Option<Id>, destroyed: bool)

  function FinalPositions(result: MovementResult): set<Id> {
    set i | 0 <= i < |result.unitResults| && !result.unitResults[i].dislodged :: result.unitResults[i].finalRegionId
  }

  /** Where the dislodged unit of `u` may go: terrain it can reach that is empty, was not contested,
      and is not where its attacker came from. */
  function RetreatOptions(adj: Adjacency, state: GameState, result: MovementResult, u: UnitOrderResult): set<Id> {
    if u.regionId !in adj then {} else
      set c | c in adj[u.regionId] && CanMoveTo(adj, state, Origin(u), c) && c !in FinalPositions(result) &&
              c !in result.contested && u.dislodgedBy != Some(c)
  }

  /** The options of each dislodged unit's region; a region reported again replaces its earlier entry. */
  function OptionsFrom(adj: Adjacency, state: GameState, result: MovementResult, reports: seq<UnitOrderResult>): map<Id, set<Id>> {
    if reports == [] then map[] else
      var before, u := OptionsFrom(adj, state, result, reports[..|reports| - 1]), reports[|reports| - 1];
      if u.dislodged then before[u.regionId := RetreatOptions(adj, state, result, u)] else before
  }

  function Options(adj: Adjacency, state: GameState, result: MovementResult): map<Id, set<Id>> {
    OptionsFrom(adj, state, result, result.unitResults)
  }

  /** The destination ordered for the unit at `r`, if it is one of its options. */
  function Choice(options: map<Id, set<Id>>, orders: map<Id, RetreatOrder>, r: Id): Option<Id> {
    if r in orders && orders[r].destination.Some? && r in options && orders[r].destination.value in options[r]
    then orders[r].destination
    else None
  }

  function Chosen(adj: Adjacency, state: GameState, result: MovementResult, orders: map<Id, RetreatOrder>, r: Id): Option<Id> {
    Choice(Options(adj, state, result), orders, r)
  }

  function Chooser(adj: Adjacency, state: GameState, result: MovementResult, orders: map<Id, RetreatOrder>): Id -> Option<Id> {
    r => Chosen(adj, state, result, orders, r)
  }

  predicate ResultLe(u: UnitOrderResult, v: UnitOrderResult) {
    Le(u.regionId, v.regionId)
  }

  function DislodgedOf(results: seq<UnitOrderResult>): seq<UnitOrderResult> {
    if results == [] then [] else
      (if results[0].dislodged then [results[0]] else []) + DislodgedOf(results[1..])
  }

  function Dislodged(result: MovementResult): seq<UnitOrderResult> {
    Sort(DislodgedOf(result.unitResults), ResultLe)
  }

  /** A unit dislodged from another region chose the same destination. */
  predicate Collides(ds: seq<UnitOrderResult>, choice: Id -> Option<Id>, r: Id) {
    exists i :: 0 <= i < |ds| && ds[i].regionId != r && choice(ds[i].regionId) == choice(r)
  }

  function RetreatOf(ds: seq<UnitOrderResult>, choice: Id -> Option<Id>, u: UnitOrderResult): RetreatUnitResult {
    var chosen := choice(u.regionId);
    var destination := if chosen.Some? && !Collides(ds, choice, u.regionId) then chosen else None;
    RetreatUnitResult(u.regionId, u.factionId, u.unitType, destination, destination.None?)
  }

  function RetreatsOf(ds: seq<UnitOrderResult>, choice: Id -> Option<Id>): (results: seq<RetreatUnitResult>)
    ensures |results| == |ds|
    ensures forall i :: 0 <= i < |ds| ==> results[i] == RetreatOf(ds, choice, ds[i])
  {
    seq(|ds|, i requires 0 <= i < |ds| => RetreatOf(ds, choice, ds[i]))
  }

  function RetreatOutcome(adj: Adjacency, state: GameState, result: MovementResult, orders: map<Id, RetreatOrder>): seq<RetreatUnitResult> {
    RetreatsOf(Dislodged(result), Chooser(adj, state, result, orders))
  }

  /** Each region is reported once, as by `ResolveMovement`. */
  ghost predicate OneReportEach(results: seq<UnitOrderResult>) {
    forall i, j :: 0 <= i < j < |results| ==> results[i].regionId != results[j].regionId
  }

  ghost predicate Records(ds: seq<UnitOrderResult>, choice: Id -> Option<Id>, chosen: map<Id, Option<Id>>) {
    && (forall r :: r in chosen <==> exists k :: 0 <= k < |ds| && ds[k].regionId == r)
    && (forall r :: r in chosen ==> chosen[r] == choice(r))
  }

  method GetRetreatOptions(adj: Adjacency, state: GameState, result: MovementResult) returns (options: map<Id, set<Id>>)
    ensures options == Options(adj, state, result)
  {
    var reports := result.unitResults;
    options := map[];
    for i := 0 to |reports|
      invariant options == OptionsFrom(adj, state, result, reports[..i])
    {
      assert reports[..i + 1][..i] == reports[..i];
      if !reports[i].dislodged {
        continue;
      }
      options := options[reports[i].regionId := RetreatOptions(adj, state, result, reports[i])];
    }
    assert reports[..|reports|] == reports;
  }

  method ChooseRetreats(options: map<Id, set<Id>>, orders: map<Id, RetreatOrder>, ds: seq<UnitOrderResult>)
    returns (chosen: map<Id, Option<Id>>)
    requires forall k :: 0 <= k < |ds| ==> ds[k].regionId in options
    ensures Records(ds, r => Choice(options, orders, r), chosen)
  {
    chosen := map[];
    for i := 0 to |ds|
      invariant forall r :: r in chosen <==> exists k :: 0 <= k < i && ds[k].regionId == r
      invariant forall r :: r in chosen ==> chosen[r] == Choice(options, orders, r)
    {
      var r := ds[i].regionId;
      var legal := options[r];
      if r !in orders || orders[r].destination.None? {
        chosen := chosen[r := None];
      } else if orders[r].destination.value in legal {
        chosen := chosen[r := orders[r].destination];
      } else {
        chosen := chosen[r := None];
      }
    }
  }

  method ResolveRetreats(adj: Adjacency, state: GameState, result: MovementResult, orders: map<Id, RetreatOrder>)
    returns (results: seq<RetreatUnitResult>)
    ensures results == RetreatOutcome(adj, state, result, orders)
  {
    var options := GetRetreatOptions(adj, state, result);
    var ds := Dislodged(result);
    DislodgedHaveOptions(adj, state, result);
    ghost var choice := Chooser(adj, state, result, orders);
    var chosen := ChooseRetreats(options, orders, ds);
    results := RetreatUnlessColliding(ds, choice, chosen);
  }

  method RetreatUnlessColliding(ds: seq<UnitOrderResult>, ghost choice: Id -> Option<Id>, chosen: map<Id, Option<Id>>)
    returns (results: seq<RetreatUnitResult>)
    requires Records(ds, choice, chosen)
    ensures results == RetreatsOf(ds, choice)
  {
    results := [];
    for i := 0 to |ds|
      invariant |results| == i
      invariant forall k :: 0 <= k < i ==> results[k] == RetreatOf(ds, choice, ds[k])
    {
      var u := ds[i];
      var destination := chosen[u.regionId];
      CollisionsCounted(ds, choice, chosen, i);
      if destination.Some? && |Sharing(chosen, destination)| > 1 {
        destination := None;
      }
      results := results + [RetreatUnitResult(u.regionId, u.factionId, u.unitType, destination, destination.None?)];
    }
  }

  /** The regions whose units chose `destination`. */
  function Sharing(chosen: map<Id, Option<Id>>, destination: Option<Id>): set<Id> {
    set r | r in chosen && chosen[r] == destination
  }

  lemma MoreThanOne(s: set<Id>, x: Id, y: Id)
    requires x in s && y in s && x != y
    ensures |s| > 1
  {
    assert s == {x, y} + (s - {x, y});
  }

  lemma CollisionsCounted(ds: seq<UnitOrderResult>, choice: Id -> Option<Id>, chosen: map<Id, Option<Id>>, i: nat)
    requires i < |ds| && Records(ds, choice, chosen)
    ensures ds[i].regionId in chosen
    ensures |Sharing(chosen, choice(ds[i].regionId))| > 1 <==> Collides(ds, choice, ds[i].regionId)
  {
    var mine := ds[i].regionId;
    assert mine in chosen;
    var same := Sharing(chosen, choice(mine));
    if Collides(ds, choice, mine) {
      var k :| 0 <= k < |ds| && ds[k].regionId != mine && choice(ds[k].regionId) == choice(mine);
      MoreThanOne(same, mine, ds[k].regionId);
    } else {
      assert forall r :: r in same ==> r == mine;
      assert same == {mine};
    }
  }

  lemma {:induction false} OptionsCover(adj: Adjacency, state: GameState, result: MovementResult, reports: seq<UnitOrderResult>)
    ensures forall u :: u in reports && u.dislodged ==> u.regionId in OptionsFrom(adj, state, result, reports)
    decreases |reports|
  {
    if reports != [] {
      OptionsCover(adj, state, result, reports[..|reports| - 1]);
      assert reports == reports[..|reports| - 1] + [reports[|reports| - 1]];
    }
  }

  lemma DislodgedHaveOptions(adj: Adjacency, state: GameState, result: MovementResult)
    ensures forall k :: 0 <= k < |Dislodged(result)| ==> Dislodged(result)[k].regionId in Options(adj, state, result)
  {
    OptionsCover(adj, state, result, result.unitResults);
    DislodgedMembers(result.unitResults);
    SortKeeps(DislodgedOf(result.unitResults), ResultLe);
    SameElements(DislodgedOf(result.unitResults), Dislodged(result));
  }

  lemma DislodgedMembers(results: seq<UnitOrderResult>)
    ensures forall u :: u in DislodgedOf(results) <==> u in results && u.dislodged
  {
    if results != [] {
      DislodgedMembers(results[1..]);
      assert results == [results[0]] + results[1..];
    }
  }

  /** When each region is reported once, a unit's options are its own. */
  lemma {:induction false} OptionsAreOwn(adj: Adjacency, state: GameState, result: MovementResult, reports: seq<UnitOrderResult>, i: nat)
    requires OneReportEach(reports) && i < |reports| && reports[i].dislodged
    ensures reports[i].regionId in OptionsFrom(adj, state, result, reports)
    ensures OptionsFrom(adj, state, result, reports)[reports[i].regionId] == RetreatOptions(adj, state, result, reports[i])
    decreases |reports|
  {
    if i < |reports| - 1 {
      OptionsAreOwn(adj, state, result, reports[..|reports| - 1], i);
    }
  }

  function Retreaters(results: seq<RetreatUnitResult>): seq<Unit> {
    if results == [] then [] else
      (if results[0].destination.None? then []
       else [Unit(results[0].unitType, results[0].factionId, results[0].destination.value)]) + Retreaters(results[1..])
  }

  function ApplyRetreats(state: GameState, results: seq<RetreatUnitResult>): GameState {
    state.(units := SortByRegion(state.units + Retreaters(results)))
  }

  // ---------------------------------------------------------------- what retreats guarantee

  lemma {:induction false} DislodgedFrom(results: seq<UnitOrderResult>)
    requires OneReportEach(results)
    ensures OneReportEach(DislodgedOf(results))
  {
    if results != [] {
      var rest := DislodgedOf(results[1..]);
      DislodgedFrom(results[1..]);
      DislodgedMembers(results[1..]);
      forall j | 0 <= j < |rest| ensures rest[j].regionId != results[0].regionId {
        assert rest[j] in results[1..];
        var k :| 0 <= k < |results[1..]| && results[1..][k] == rest[j];
        assert results[k + 1] == rest[j];
      }
    }
  }

  lemma {:induction false} InsertKeepsReportsApart(u: UnitOrderResult, s: seq<UnitOrderResult>)
    requires OneReportEach([u] + s)
    ensures OneReportEach(Insert(u, s, ResultLe))
    ensures forall x :: x in Insert(u, s, ResultLe) <==> x == u || x in s
  {
    if s != [] && !ResultLe(u, s[0]) {
      assert ([u] + s)[1..] == s && ([u] + s[1..])[0] == u;
      forall i, j | 0 <= i < j < |[u] + s[1..]| ensures ([u] + s[1..])[i].regionId != ([u] + s[1..])[j].regionId {
        assert ([u] + s[1..])[j] == ([u] + s)[j + 1];
        assert i > 0 ==> ([u] + s[1..])[i] == ([u] + s)[i + 1];
      }
      InsertKeepsReportsApart(u, s[1..]);
      var rest := Insert(u, s[1..], ResultLe);
      forall j | 0 <= j < |rest| ensures s[0].regionId != rest[j].regionId {
        assert rest[j] in rest;
        if rest[j] != u {
          var k :| 0 <= k < |s[1..]| && s[1..][k] == rest[j];
          assert ([u] + s)[1] == s[0] && ([u] + s)[k + 2] == rest[j];
        } else {
          assert ([u] + s)[0] == u && ([u] + s)[1] == s[0];
        }
      }
      assert s == [s[0]] + s[1..];
    }
  }

  lemma {:induction false} SortKeepsReportsApart(s: seq<UnitOrderResult>)
    requires OneReportEach(s)
    ensures OneReportEach(Sort(s, ResultLe))
    ensures forall x :: x in Sort(s, ResultLe) <==> x in s
  {
    if s != [] {
      SortKeepsReportsApart(s[1..]);
      var t := Sort(s[1..], ResultLe);
      forall j | 0 <= j < |t| ensures s[0].regionId != t[j].regionId {
        assert t[j] in s[1..];
      }
      InsertKeepsReportsApart(s[0], t);
      assert s == [s[0]] + s[1..];
    }
  }

  lemma ReportsApart(adj: Adjacency, state: GameState, orders: map<Id, Order>)
    ensures OneReportEach(MovementOutcome(adj, state, orders).unitResults)
  {
    var result := MovementOutcome(adj, state, orders);
    forall i, j | 0 <= i < j < |result.unitResults|
      ensures result.unitResults[i].regionId != result.unitResults[j].regionId
    {
      ResultAt(adj, state, orders, i);
      ResultAt(adj, state, orders, j);
    }
  }

  lemma ReportsInOrder(result: MovementResult)
    ensures Sorted(Dislodged(result), ResultLe)
  {
    forall u, v ensures ResultLe(u, v) || ResultLe(v, u) { LeTotal(u.regionId, v.regionId); }
    forall u, v, w | ResultLe(u, v) && ResultLe(v, w) ensures ResultLe(u, w) {
      LeTransitive(u.regionId, v.regionId, w.regionId);
    }
    SortSorts(DislodgedOf(result.unitResults), ResultLe);
  }

  /** What a movement resolution hands to the retreat phase, in order of region. */
  lemma DislodgedReports(adj: Adjacency, state: GameState, orders: map<Id, Order>)
    ensures var result := MovementOutcome(adj, state, orders);
            && OneReportEach(Dislodged(result))
            && (forall u :: u in Dislodged(result) <==> u in result.unitResults && u.dislodged)
            && (forall i, j :: 0 <= i < j < |Dislodged(result)| ==> Le(Dislodged(result)[i].regionId, Dislodged(result)[j].regionId))
  {
    var result := MovementOutcome(adj, state, orders);
    ReportsApart(adj, state, orders);
    DislodgedFrom(result.unitResults);
    DislodgedMembers(result.unitResults);
    SortKeepsReportsApart(DislodgedOf(result.unitResults));
    ReportsInOrder(result);
    var ds := Dislodged(result);
    forall i, j | 0 <= i < j < |ds| ensures Le(ds[i].regionId, ds[j].regionId) {
      assert ResultLe(ds[i], ds[j]);
    }
  }

  /** Two different units both tried to move to `c`. */
  ghost predicate Disputed(adj: Adjacency, state: GameState, orders: map<Id, Order>, c: Id) {
    var b := BattleOf(adj, state, orders);
    exists q, r :: q != r && Moves(b, q) && Moves(b, r) && Dest(b, q) == c && Dest(b, r) == c
  }

  /** `c` is open to the dislodged unit `d`: within reach, left empty, undisputed, and not where its attacker came from. */
  ghost predicate OpenTo(adj: Adjacency, state: GameState, orders: map<Id, Order>, d: UnitOrderResult, c: Id) {
    var results := MovementOutcome(adj, state, orders).unitResults;
    && CanMoveTo(adj, state, Origin(d), c)
    && (forall i :: 0 <= i < |results| ==> results[i].dislodged || results[i].finalRegionId != c)
    && !Disputed(adj, state, orders, c) && d.dislodgedBy != Some(c)
  }

  /** A dislodged unit asks for `c`, and may have it. */
  ghost predicate MayHave(adj: Adjacency, state: GameState, orders: map<Id, Order>, retreats: map<Id, RetreatOrder>,
                          d: UnitOrderResult, c: Id)
  {
    d.regionId in retreats && retreats[d.regionId].destination == Some(c) && OpenTo(adj, state, orders, d, c)
  }

  lemma DisputedIsContested(adj: Adjacency, state: GameState, orders: map<Id, Order>, c: Id)
    ensures c in MovementOutcome(adj, state, orders).contested <==> Disputed(adj, state, orders, c)
  {
    var b := BattleOf(adj, state, orders);
    if Disputed(adj, state, orders, c) {
      var q, r :| q != r && Moves(b, q) && Moves(b, r) && Dest(b, q) == c && Dest(b, r) == c;
      assert q in b.orders && r in b.orders;
    }
  }

  lemma LeftEmpty(result: MovementResult, c: Id)
    ensures c !in FinalPositions(result) <==>
            forall i :: 0 <= i < |result.unitResults| ==> result.unitResults[i].dislodged || result.unitResults[i].finalRegionId != c
  {
  }

  /** What the engine chooses for a dislodged unit is what was asked for, if it is an option. */
  lemma ChosenIsOption(adj: Adjacency, state: GameState, result: MovementResult, retreats: map<Id, RetreatOrder>, d: UnitOrderResult, c: Id)
    requires OneReportEach(result.unitResults) && d in result.unitResults && d.dislodged
    ensures Chosen(adj, state, result, retreats, d.regionId) == Some(c) <==>
            && d.regionId in retreats && retreats[d.regionId].destination == Some(c)
            && CanMoveTo(adj, state, Origin(d), c) && c !in FinalPositions(result)
            && c !in result.contested && d.dislodgedBy != Some(c)
  {
    var i :| 0 <= i < |result.unitResults| && result.unitResults[i] == d;
    OptionsAreOwn(adj, state, result, result.unitResults, i);
  }

  lemma SameReach(adj: Adjacency, state: GameState, post: GameState, u: Unit, c: Id)
    requires post.regions == state.regions
    ensures CanMoveTo(adj, post, u, c) == CanMoveTo(adj, state, u, c)
  {
  }

  lemma OpenExactly(adj: Adjacency, state: GameState, orders: map<Id, Order>, result: MovementResult, d: UnitOrderResult, c: Id)
    requires result == MovementOutcome(adj, state, orders)
    ensures OpenTo(adj, state, orders, d, c) <==>
            && CanMoveTo(adj, state, Origin(d), c) && c !in FinalPositions(result)
            && c !in result.contested && d.dislodgedBy != Some(c)
  {
    LeftEmpty(result, c);
    DisputedIsContested(adj, state, orders, c);
  }

  lemma ChosenExactly(adj: Adjacency, state: GameState, orders: map<Id, Order>, result: MovementResult, post: GameState,
                      retreats: map<Id, RetreatOrder>, d: UnitOrderResult, c: Id)
    requires result == MovementOutcome(adj, state, orders) && post.regions == state.regions
    requires OneReportEach(result.unitResults) && d in result.unitResults && d.dislodged
    ensures Chosen(adj, post, result, retreats, d.regionId) == Some(c) <==> MayHave(adj, state, orders, retreats, d, c)
  {
    ChosenIsOption(adj, post, result, retreats, d, c);
    OpenExactly(adj, state, orders, result, d, c);
    SameReach(adj, state, post, Origin(d), c);
  }

  lemma ChoicesExactly(adj: Adjacency, state: GameState, orders: map<Id, Order>, result: MovementResult, post: GameState,
                       retreats: map<Id, RetreatOrder>, choice: Id -> Option<Id>, c: Id)
    requires result == MovementOutcome(adj, state, orders) && post.regions == state.regions
    requires forall r :: choice(r) == Chosen(adj, post, result, retreats, r)
    ensures forall j :: 0 <= j < |Dislodged(result)| ==>
              (choice(Dislodged(result)[j].regionId) == Some(c) <==> MayHave(adj, state, orders, retreats, Dislodged(result)[j], c))
  {
    var ds := Dislodged(result);
    ReportsApart(adj, state, orders);
    DislodgedReports(adj, state, orders);
    forall j | 0 <= j < |ds| ensures choice(ds[j].regionId) == Some(c) <==> MayHave(adj, state, orders, retreats, ds[j], c) {
      assert ds[j] in ds;
      ChosenExactly(adj, state, orders, result, post, retreats, ds[j], c);
    }
  }

  /** The report `r` of the `i`-th dislodged unit settles it in `c` exactly when it may have `c` and no other
      dislodged unit may. */
  ghost predicate SettlesExactly(adj: Adjacency, state: GameState, orders: map<Id, Order>, retreats: map<Id, RetreatOrder>,
                                 ds: seq<UnitOrderResult>, i: nat, r: RetreatUnitResult, c: Id)
    requires i < |ds|
  {
    && r.regionId == ds[i].regionId && r.factionId == ds[i].factionId && r.unitType == ds[i].unitType
    && r.destroyed == r.destination.None?
    && (r.destination == Some(c) <==>
          && MayHave(adj, state, orders, retreats, ds[i], c)
          && forall j :: 0 <= j < |ds| && j != i ==> !MayHave(adj, state, orders, retreats, ds[j], c))
  }

  lemma SettledExactly(adj: Adjacency, state: GameState, orders: map<Id, Order>, retreats: map<Id, RetreatOrder>,
                       ds: seq<UnitOrderResult>, choice: Id -> Option<Id>, i: nat, c: Id)
    requires i < |ds| && OneReportEach(ds)
    requires forall j :: 0 <= j < |ds| ==>
               (choice(ds[j].regionId) == Some(c) <==> MayHave(adj, state, orders, retreats, ds[j], c))
    ensures SettlesExactly(adj, state, orders, retreats, ds, i, RetreatsOf(ds, choice)[i], c)
  {
    CollidesWithAnother(ds, choice, i, c);
  }

  /** A dislodged unit ends in `c` exactly when it may have `c` and no other dislodged unit may; in every
      other case it is destroyed. */
  lemma RetreatExactly(adj: Adjacency, state: GameState, orders: map<Id, Order>, retreats: map<Id, RetreatOrder>, i: nat, c: Id)
    requires i < |Dislodged(MovementOutcome(adj, state, orders))|
    ensures var result := MovementOutcome(adj, state, orders);
            var ds, outcome := Dislodged(result), RetreatOutcome(adj, ApplyMovement(state, result), result, retreats);
            |outcome| == |ds| && SettlesExactly(adj, state, orders, retreats, ds, i, outcome[i], c)
  {
    var result := MovementOutcome(adj, state, orders);
    var choice := Chooser(adj, ApplyMovement(state, result), result, retreats);
    DislodgedReports(adj, state, orders);
    ChoicesExactly(adj, state, orders, result, ApplyMovement(state, result), retreats, choice, c);
    SettledExactly(adj, state, orders, retreats, Dislodged(result), choice, i, c);
  }

  lemma CollidesWithAnother(ds: seq<UnitOrderResult>, choice: Id -> Option<Id>, i: nat, c: Id)
    requires i < |ds| && OneReportEach(ds)
    ensures RetreatOf(ds, choice, ds[i]).destination == Some(c) <==>
            choice(ds[i].regionId) == Some(c) && forall j :: 0 <= j < |ds| && j != i ==> choice(ds[j].regionId) != Some(c)
  {
    if choice(ds[i].regionId) == Some(c) {
      if j :| 0 <= j < |ds| && j != i && choice(ds[j].regionId) == Some(c) {
        assert ds[j].regionId != ds[i].regionId;
        assert Collides(ds, choice, ds[i].regionId);
      }
    }
  }

  lemma {:induction false} RetreatersFrom(results: seq<RetreatUnitResult>, u: Unit)
    requires u in Retreaters(results)
    ensures exists i :: 0 <= i < |results| && results[i].destination == Some(u.regionId) &&
                        results[i].unitType == u.unitType && results[i].factionId == u.factionId
  {
    if u in Retreaters(results[1..]) {
      RetreatersFrom(results[1..], u);
      var i :| 0 <= i < |results[1..]| && results[1..][i].destination == Some(u.regionId) &&
               results[1..][i].unitType == u.unitType && results[1..][i].factionId == u.factionId;
      assert results[i + 1] == results[1..][i];
    } else {
      assert results[0].destination == Some(u.regionId);
    }
  }

  lemma {:induction false} RetreatersHave(results: seq<RetreatUnitResult>, i: nat)
    requires i < |results| && results[i].destination.Some?
    ensures Unit(results[i].unitType, results[i].factionId, results[i].destination.value) in Retreaters(results)
  {
    if i > 0 { RetreatersHave(results[1..], i - 1); }
  }

  ghost predicate RetreatsAs(r: RetreatUnitResult, u: Unit) {
    r.destination == Some(u.regionId) && r.unitType == u.unitType && r.factionId == u.factionId
  }

  /** After retreats stand exactly the units movement left, unchanged, and those that found a place. */
  lemma UnitsAfterRetreats(post: GameState, results: seq<RetreatUnitResult>, u: Unit)
    ensures u in ApplyRetreats(post, results).units <==>
              u in post.units || exists i :: 0 <= i < |results| && RetreatsAs(results[i], u)
  {
    SortByRegionKeeps(post.units + Retreaters(results));
    if u in Retreaters(results) {
      RetreatersFrom(results, u);
      var i :| 0 <= i < |results| && results[i].destination == Some(u.regionId) &&
               results[i].unitType == u.unitType && results[i].factionId == u.factionId;
      assert RetreatsAs(results[i], u);
    }
    if i :| 0 <= i < |results| && RetreatsAs(results[i], u) {
      RetreatersHave(results, i);
    }
  }

  ghost predicate DestinationsApart(results: seq<RetreatUnitResult>) {
    forall i, j :: 0 <= i < j < |results| && results[i].destination.Some? ==>
      results[i].destination != results[j].destination
  }

  lemma {:induction false} RetreatersDistinct(results: seq<RetreatUnitResult>)
    requires DestinationsApart(results)
    ensures DistinctRegions(Retreaters(results))
  {
    if results != [] {
      RetreatersDistinct(results[1..]);
      var rest := Retreaters(results[1..]);
      if results[0].destination.Some? {
        forall j | 0 <= j < |rest| ensures rest[j].regionId != results[0].destination.value {
          RetreatersFrom(results[1..], rest[j]);
        }
      }
    }
  }

  /** A unit that finds a place is a dislodged one that chose it. */
  lemma RetreaterChose(adj: Adjacency, post: GameState, result: MovementResult, retreats: map<Id, RetreatOrder>, u: Unit)
    returns (d: UnitOrderResult)
    requires u in Retreaters(RetreatOutcome(adj, post, result, retreats))
    ensures d in Dislodged(result) && d.unitType == u.unitType && d.factionId == u.factionId
    ensures Chosen(adj, post, result, retreats, d.regionId) == Some(u.regionId)
  {
    var outcome := RetreatOutcome(adj, post, result, retreats);
    RetreatersFrom(outcome, u);
    var i :| 0 <= i < |outcome| && outcome[i].destination == Some(u.regionId) &&
             outcome[i].unitType == u.unitType && outcome[i].factionId == u.factionId;
    d := Dislodged(result)[i];
  }

  /** Units that survive a retreat end alone, on ground their type may enter. */
  lemma RetreatersAreLegal(adj: Adjacency, state: GameState, post: GameState, orders: map<Id, Order>, retreats: map<Id, RetreatOrder>, u: Unit)
    requires LegalBoard(state) && post.regions == state.regions && post.factions == state.factions
    requires u in Retreaters(RetreatOutcome(adj, post, MovementOutcome(adj, state, orders), retreats))
    ensures LegalUnit(post, u) && u.regionId !in FinalPositions(MovementOutcome(adj, state, orders))
  {
    var result := MovementOutcome(adj, state, orders);
    var d := RetreaterChose(adj, post, result, retreats, u);
    ReportsApart(adj, state, orders);
    DislodgedReports(adj, state, orders);
    ChosenIsLegal(adj, post, result, retreats, d);
    DislodgedIsKnown(adj, state, orders, d);
  }

  lemma DislodgedIsKnown(adj: Adjacency, state: GameState, orders: map<Id, Order>, d: UnitOrderResult)
    requires LegalBoard(state) && d in Dislodged(MovementOutcome(adj, state, orders))
    ensures d.factionId in state.factions
  {
    var result := MovementOutcome(adj, state, orders);
    DislodgedReports(adj, state, orders);
    var k :| 0 <= k < |result.unitResults| && result.unitResults[k] == d;
    SurvivorIsLegal(adj, state, orders, k);
  }

  lemma ChosenIsLegal(adj: Adjacency, state: GameState, result: MovementResult, orders: map<Id, RetreatOrder>, u: UnitOrderResult)
    requires OneReportEach(result.unitResults) && u in result.unitResults && u.dislodged
    requires Chosen(adj, state, result, orders, u.regionId).Some?
    ensures var c := Chosen(adj, state, result, orders, u.regionId).value;
            c in state.regions && MayEnter(u.unitType, state.regions[c].regionType) && c !in FinalPositions(result)
  {
    ChosenIsOption(adj, state, result, orders, u, Chosen(adj, state, result, orders, u.regionId).value);
  }

  lemma OutcomeDestinationsApart(ds: seq<UnitOrderResult>, choice: Id -> Option<Id>)
    requires OneReportEach(ds)
    ensures DestinationsApart(RetreatsOf(ds, choice))
  {
    var results := RetreatsOf(ds, choice);
    forall i, j | 0 <= i < j < |results| && results[i].destination.Some?
      ensures results[i].destination != results[j].destination
    {
      assert choice(ds[j].regionId) == choice(ds[i].regionId) ==> Collides(ds, choice, ds[i].regionId);
    }
  }

  /** Movement then retreat takes a legal board to a legal board. */
  lemma RetreatKeepsBoard(adj: Adjacency, state: GameState, orders: map<Id, Order>, retreats: map<Id, RetreatOrder>)
    requires LegalBoard(state)
    ensures var result := MovementOutcome(adj, state, orders);
            var post := ApplyMovement(state, result);
            LegalBoard(ApplyRetreats(post, RetreatOutcome(adj, post, result, retreats)))
  {
    var result := MovementOutcome(adj, state, orders);
    var post := ApplyMovement(state, result);
    var outcome := RetreatOutcome(adj, post, result, retreats);
    MovementKeepsBoard(adj, state, orders);
    DislodgedReports(adj, state, orders);
    OutcomeDestinationsApart(Dislodged(result), Chooser(adj, post, result, retreats));
    RetreatersDistinct(outcome);
    forall u, v | u in post.units && v in Retreaters(outcome) ensures u.regionId != v.regionId {
      RetreatersAreLegal(adj, state, post, orders, retreats, v);
      SurvivorStandsThere(state, result, u);
    }
    DistinctConcat(post.units, Retreaters(outcome));
    SortByRegionKeeps(post.units + Retreaters(outcome));
    forall u | u in post.units + Retreaters(outcome) ensures LegalUnit(post, u) {
      if u in Retreaters(outcome) {
        RetreatersAreLegal(adj, state, post, orders, retreats, u);
      }
    }
  }

  lemma SurvivorStandsThere(state: GameState, result: MovementResult, u: Unit)
    requires u in ApplyMovement(state, result).units
    ensures u.regionId in FinalPositions(result)
  {
    SortByRegionKeeps(Survivors(result.unitResults));
    SurvivorsFrom(result.unitResults, u);
  }

  /** With no retreat orders every dislodged unit is destroyed and the board stays as movement left it. */
  lemma NoRetreatOrders(adj: Adjacency, state: GameState, result: MovementResult)
    ensures var post := ApplyMovement(state, result);
            var outcome := RetreatOutcome(adj, post, result, map[]);
            (forall i :: 0 <= i < |outcome| ==> outcome[i].destroyed) && ApplyRetreats(post, outcome) == post
  {
    var post := ApplyMovement(state, result);
    var outcome := RetreatOutcome(adj, post, result, map[]);
    NobodyRetreats(outcome);
    assert post.units + Retreaters(outcome) == post.units;
    RegionLeIsOrder();
    SortSorts(Survivors(result.unitResults), RegionLe);
    SortIdempotent(post.units, RegionLe);
  }

  lemma NobodyRetreats(results: seq<RetreatUnitResult>)
    requires forall i :: 0 <= i < |results| ==> results[i].destination.None?
    ensures Retreaters(results) == []
  {
  }

  // ---------------------------------------------------------------- ownership

  function OwnersAfter(state: GameState, units: seq<Unit>): map<Id, Id> {
    if units == [] then state.supplyCenters else
      var last := units[|units| - 1];
      var before := OwnersAfter(state, units[..|units| - 1]);
      if last.regionId in state.regions && state.regions[last.regionId].isSupplyCenter
      then before[last.regionId := last.factionId]
      else before
  }

  function UpdateOwnership(state: GameState): GameState {
    state.(supplyCenters := OwnersAfter(state, SortByRegion(state.units)))
  }

  method UpdateSupplyCenterOwnership(state: GameState) returns (after: GameState)
    ensures after == UpdateOwnership(state) && after == state.(supplyCenters := after.supplyCenters)
  {
    var units := SortByRegion(state.units);
    var centers := state.supplyCenters;
    for i := 0 to |units|
      invariant centers == OwnersAfter(state, units[..i])
    {
      assert units[..i + 1][..i] == units[..i];
      var unit := units[i];
      if unit.regionId in state.regions && state.regions[unit.regionId].isSupplyCenter {
        centers := centers[unit.regionId := unit.factionId];
      }
    }
    assert units[..|units|] == units;
    after := state.(supplyCenters := centers);
  }

  predicate IsCenter(state: GameState, r: Id) {
    r in state.regions && state.regions[r].isSupplyCenter
  }

  lemma {:induction false} OccupierOwns(state: GameState, units: seq<Unit>, u: Unit)
    requires DistinctRegions(units) && u in units && IsCenter(state, u.regionId)
    ensures u.regionId in OwnersAfter(state, units) && OwnersAfter(state, units)[u.regionId] == u.factionId
    decreases |units|
  {
    var front, last := units[..|units| - 1], units[|units| - 1];
    assert units == front + [last];
    if u != last {
      var i :| 0 <= i < |front| && front[i] == u;
      assert units[i].regionId != units[|front|].regionId;
      OccupierOwns(state, front, u);
    }
  }

  lemma {:induction false} OthersKeepOwner(state: GameState, units: seq<Unit>, r: Id)
    requires (forall u :: u in units ==> u.regionId != r) || !IsCenter(state, r)
    ensures r in OwnersAfter(state, units) <==> r in state.supplyCenters
    ensures r in OwnersAfter(state, units) ==> OwnersAfter(state, units)[r] == state.supplyCenters[r]
    decreases |units|
  {
    if units != [] {
      var front, last := units[..|units| - 1], units[|units| - 1];
      assert units == front + [last];
      OthersKeepOwner(state, front, r);
    }
  }

  /** On a legal board an occupied centre passes to its occupier, and every other centre keeps its owner. */
  lemma OwnershipFollowsOccupation(state: GameState, r: Id)
    requires DistinctRegions(state.units)
    ensures var owners := UpdateOwnership(state).supplyCenters;
            && (forall u :: u in state.units && u.regionId == r && IsCenter(state, r) ==> r in owners && owners[r] == u.factionId)
            && ((forall u :: u in state.units ==> u.regionId != r) || !IsCenter(state, r) ==>
                  (r in owners <==> r in state.supplyCenters) &&
                  (r in owners ==> owners[r] == state.supplyCenters[r]))
  {
    var units := SortByRegion(state.units);
    SortByRegionKeeps(state.units);
    forall u | u in state.units && u.regionId == r && IsCenter(state, r)
      ensures r in OwnersAfter(state, units) && OwnersAfter(state, units)[r] == u.factionId
    {
      OccupierOwns(state, units, u);
    }
    if (forall u :: u in units ==> u.regionId != r) || !IsCenter(state, r) {
      OthersKeepOwner(state, units, r);
    }
  }

  /** Placing the retreaters changes the units and nothing else; they are listed by region. */
  lemma RetreatsTouchOnlyUnits(state: GameState, results: seq<RetreatUnitResult>)
    ensures ApplyRetreats(state, results) == state.(units := ApplyRetreats(state, results).units)
    ensures InRegionOrder(ApplyRetreats(state, results).units)
  {
    SortedByRegion(state.units + Retreaters(results));
  }

  /** The change of ownership changes the owners and nothing else: no unit moves or vanishes. */
  lemma OwnershipTouchesOnlyOwners(state: GameState)
    ensures UpdateOwnership(state) == state.(supplyCenters := UpdateOwnership(state).supplyCenters)
  {
  }
}
