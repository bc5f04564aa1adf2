/** Movement resolution from submitted orders to unit results, step by step as the engine does it. */
module Adjudication {
  import opened Ordering
  import opened Board
  import opened Movement
  import opened MoveSearch

  datatype UnitOrderResult = UnitOrderResult(
    regionId: Id, factionId: Id, unitType: UnitType, order: Order, normalized: bool,
    moved: bool, finalRegionId: Id, dislodged: bool, dislodgedBy: Option<Id>, supportCut: bool)

  datatype MovementResult = MovementResult(unitResults: seq<UnitOrderResult>, contested: set<Id>)

  function InTurn(b: Battle, keys: seq<Id>): (order: seq<Id>)
    ensures forall r :: r in order <==> r in keys && Moves(b, r)
  {
    if keys == [] then [] else
      var last := keys[|keys| - 1];
      InTurn(b, keys[..|keys| - 1]) + if Moves(b, last) then [last] else []
  }

  predicate Moved(b: Battle, resolved: map<Id, bool>, r: Id) {
    Moves(b, r) && r in resolved && resolved[r]
  }

  lemma InTurnGrows(b: Battle, keys: seq<Id>, i: nat)
    requires i < |keys|
    ensures InTurn(b, keys[..i + 1]) ==
            if Moves(b, keys[i]) then InTurn(b, keys[..i]) + [keys[i]] else InTurn(b, keys[..i])
  {
    assert keys[..i + 1][..i] == keys[..i];
  }

  lemma VisitGrows(b: Battle, order: seq<Id>, r: Id)
    requires Valid(b) && (forall q :: q in order ==> Moves(b, q)) && Moves(b, r)
    ensures Visit(b, order + [r]) == Search(b, r, Visit(b, order), {}).resolved
  {
    assert (order + [r])[..|order|] == order;
  }

  function Winners(b: Battle, resolved: map<Id, bool>, keys: seq<Id>): map<Id, Id> {
    if keys == [] then map[] else
      var last := keys[|keys| - 1];
      var before := Winners(b, resolved, keys[..|keys| - 1]);
      if Moved(b, resolved, last) then before[Dest(b, last) := last] else before
  }

  function Contested(b: Battle): set<Id> {
    set q, r | q in b.orders && r in b.orders && q != r && Moves(b, q) && Moves(b, r) && Dest(b, q) == Dest(b, r)
      :: Dest(b, q)
  }

  function ResultFor(b: Battle, normalized: bool, resolved: map<Id, bool>, winners: map<Id, Id>, r: Id): UnitOrderResult
    requires Valid(b) && r in b.orders
  {
    var moved := Moved(b, resolved, r);
    var dislodged := !moved && r in winners;
    UnitOrderResult(
      r, b.units[r].factionId, b.units[r].unitType, b.orders[r], normalized,
      moved, if moved then Dest(b, r) else r,
      dislodged, if dislodged then Some(winners[r]) else None,
      Supports(b, r) && IsCut(b, r))
  }

  /** The table the search leaves when the moves are visited in order of region. */
  function Outcomes(b: Battle): map<Id, bool>
    requires Valid(b)
  {
    Visit(b, InTurn(b, Ascending(b.orders.Keys)))
  }

  function Flags(adj: Adjacency, state: GameState, orders: map<Id, Order>): map<Id, bool> {
    var units := ByRegion(SortByRegion(state.units));
    map r | r in units :: EffectiveOrder(adj, state, orders, r, units[r]).1
  }

  function ResultsFor(b: Battle, flags: map<Id, bool>, resolved: map<Id, bool>, winners: map<Id, Id>, keys: seq<Id>)
    : (results: seq<UnitOrderResult>)
    requires Valid(b) && flags.Keys == b.orders.Keys && forall r :: r in keys ==> r in b.orders
    ensures |results| == |keys|
    ensures forall k :: 0 <= k < |keys| ==> results[k] == ResultFor(b, flags[keys[k]], resolved, winners, keys[k])
  {
    seq(|keys|, i requires 0 <= i < |keys| => ResultFor(b, flags[keys[i]], resolved, winners, keys[i]))
  }

  function OutcomeOf(b: Battle, flags: map<Id, bool>): MovementResult
    requires Valid(b) && flags.Keys == b.orders.Keys
  {
    var keys := Ascending(b.orders.Keys);
    var resolved := Outcomes(b);
    MovementResult(ResultsFor(b, flags, resolved, Winners(b, resolved, keys), keys), Contested(b))
  }

  function MovementOutcome(adj: Adjacency, state: GameState, orders: map<Id, Order>): MovementResult {
    BattleIsValid(adj, state, orders);
    OutcomeOf(BattleOf(adj, state, orders), Flags(adj, state, orders))
  }

  // ---------------------------------------------------------------- the engine's own steps

  /** The tables hold the effective order and the flag of every unit in `domain`. */
  ghost predicate Normalized(adj: Adjacency, state: GameState, orders: map<Id, Order>, units: map<Id, Unit>, domain: set<Id>,
                             effective: map<Id, Order>, flags: map<Id, bool>)
    requires domain <= units.Keys
  {
    && effective.Keys == domain && flags.Keys == domain
    && forall r :: r in domain ==> (effective[r], flags[r]) == EffectiveOrder(adj, state, orders, r, units[r])
  }

  lemma NormalizedGrows(adj: Adjacency, state: GameState, orders: map<Id, Order>, units: map<Id, Unit>, domain: set<Id>,
                        effective: map<Id, Order>, flags: map<Id, bool>, r: Id)
    requires domain <= units.Keys && r in units && Normalized(adj, state, orders, units, domain, effective, flags)
    ensures var (order, normalized) := EffectiveOrder(adj, state, orders, r, units[r]);
            Normalized(adj, state, orders, units, domain + {r}, effective[r := order], flags[r := normalized])
  {
  }

  method NormalizeOrders(adj: Adjacency, state: GameState, orders: map<Id, Order>, units: map<Id, Unit>, keys: seq<Id>)
    returns (effective: map<Id, Order>, flags: map<Id, bool>)
    requires forall r :: r in keys <==> r in units
    ensures Normalized(adj, state, orders, units, units.Keys, effective, flags)
  {
    effective, flags := map[], map[];
    for i := 0 to |keys|
      invariant Normalized(adj, state, orders, units, Elements(keys[..i]), effective, flags)
    {
      assert keys[..i + 1] == keys[..i] + [keys[i]];
      assert Elements(keys[..i + 1]) == Elements(keys[..i]) + {keys[i]};
      NormalizedGrows(adj, state, orders, units, Elements(keys[..i]), effective, flags, keys[i]);
      var (order, normalized) := EffectiveOrder(adj, state, orders, keys[i], units[keys[i]]);
      effective := effective[keys[i] := order];
      flags := flags[keys[i] := normalized];
    }
    assert keys[..|keys|] == keys && Elements(keys) == units.Keys;
  }

  lemma NormalizedIsBattle(adj: Adjacency, state: GameState, orders: map<Id, Order>, effective: map<Id, Order>, flags: map<Id, bool>)
    requires var units := ByRegion(SortByRegion(state.units));
             Normalized(adj, state, orders, units, units.Keys, effective, flags)
    ensures BattleOf(adj, state, orders) == Battle(ByRegion(SortByRegion(state.units)), effective)
    ensures Flags(adj, state, orders) == flags
  {
    assert BattleOf(adj, state, orders).orders == effective;
  }

  ghost predicate CutsKnown(b: Battle, cut: map<Id, bool>) {
    (forall s :: s in cut <==> Supports(b, s)) && forall s :: s in cut ==> cut[s] == IsCut(b, s)
  }

  /** Every supporter, with whether some move cuts its support. */
  method CutSupports(b: Battle, keys: seq<Id>) returns (cut: map<Id, bool>)
    requires Valid(b) && forall r :: r in keys <==> r in b.orders
    ensures CutsKnown(b, cut)
    ensures forall s :: s in cut <==> s in b.orders && (b.orders[s].SupportHold? || b.orders[s].SupportMove?)
    ensures forall s :: s in cut ==> (cut[s] <==>
              exists a :: a in b.orders && b.orders[a] == Move(a, s) && a != s &&
                          !(b.orders[s].SupportMove? && b.orders[s].target == a))
  {
    cut := map[];
    for i := 0 to |keys|
      invariant forall s :: s in cut <==> Supports(b, s) && s in keys[..i]
      invariant forall s :: s in cut ==> cut[s] == IsCut(b, s)
    {
      var supporter := keys[i];
      assert keys[..i + 1] == keys[..i] + [supporter];
      if Supports(b, supporter) {
        var isCut := false;
        for j := 0 to |keys|
          invariant !isCut && forall a :: a in keys[..j] ==> !Cuts(b, a, supporter)
        {
          var attacker := keys[j];
          assert keys[..j + 1] == keys[..j] + [attacker];
          if !b.orders[attacker].Move? { continue; }
          if b.orders[attacker].destination != supporter { continue; }
          if attacker == supporter { continue; }
          if b.orders[supporter].SupportMove? && b.orders[supporter].target == attacker { continue; }
          isCut := true;
          break;
        }
        assert isCut == IsCut(b, supporter) by {
          assert keys[..|keys|] == keys;
        }
        cut := cut[supporter := isCut];
      }
    }
    assert keys[..|keys|] == keys;
    forall a, s | a in b.orders && s in b.orders
      ensures Cuts(b, a, s) <==> b.orders[a] == Move(a, s) && a != s && !(b.orders[s].SupportMove? && b.orders[s].target == a)
    {
      assert b.orders[a].unit == a;
    }
  }

  method AttackStrength(b: Battle, cut: map<Id, bool>, region: Id) returns (strength: nat)
    requires CutsKnown(b, cut) && Moves(b, region)
    ensures strength == Attack(b, region)
  {
    var supports := set s | s in b.orders && b.orders[s].SupportMove? && b.orders[s].supported == region &&
                            b.orders[s].target == b.orders[region].destination && !cut[s];
    assert supports == AttackSupports(b, region);
    strength := 1 + |supports|;
  }

  method StandingStrength(b: Battle, cut: map<Id, bool>, region: Id) returns (strength: nat)
    requires CutsKnown(b, cut)
    ensures strength == HoldStrength(b, region)
  {
    var supports := set s | s in b.orders && b.orders[s].SupportHold? && b.orders[s].supported == region && !cut[s];
    assert supports == HoldSupports(b, region);
    strength := 1 + |supports|;
  }

  /** Attack strengths of the moves and hold strengths of the other units. */
  method Strengths(b: Battle, keys: seq<Id>, cut: map<Id, bool>) returns (attack: map<Id, nat>, hold: map<Id, nat>)
    requires Valid(b) && forall r :: r in keys <==> r in b.orders
    requires CutsKnown(b, cut)
    ensures StrengthsKnown(b, attack, hold)
  {
    attack, hold := map[], map[];
    for i := 0 to |keys|
      invariant forall r :: r in attack <==> r in keys[..i] && Moves(b, r)
      invariant forall r :: r in hold <==> r in keys[..i] && !Moves(b, r)
      invariant forall r :: r in attack ==> attack[r] == Attack(b, r)
      invariant forall r :: r in hold ==> hold[r] == HoldStrength(b, r)
    {
      var region := keys[i];
      assert keys[..i + 1] == keys[..i] + [region];
      if Moves(b, region) {
        var strength := AttackStrength(b, cut, region);
        attack := attack[region := strength];
      } else {
        var strength := StandingStrength(b, cut, region);
        hold := hold[region := strength];
      }
    }
    assert keys[..|keys|] == keys;
  }

  ghost predicate StrengthsKnown(b: Battle, attack: map<Id, nat>, hold: map<Id, nat>)
    requires Valid(b)
  {
    && (forall r :: r in attack <==> Moves(b, r))
    && (forall r :: r in hold <==> r in b.orders && !Moves(b, r))
    && (forall r :: r in attack ==> attack[r] == Attack(b, r))
    && (forall r :: r in hold ==> hold[r] == HoldStrength(b, r))
  }

  /** Who defends the destination, and how strongly, once it is known whether a mover there gets away. */
  ghost function DefenderOf(b: Battle, r: Id, vacated: bool): Option<(nat, Id)>
    requires Valid(b) && Moves(b, r)
  {
    var d := Dest(b, r);
    if d !in b.units then None
    else if !Moves(b, d) then Some((HoldStrength(b, d), b.units[d].factionId))
    else if Dest(b, d) == r || vacated then None
    else Some((1, b.units[d].factionId))
  }

  ghost function HeadToHeadOf(b: Battle, r: Id): Option<nat>
    requires Moves(b, r)
  {
    var d := Dest(b, r);
    if Moves(b, d) && Dest(b, d) == r then Some(Attack(b, d)) else None
  }

  lemma DecideByComparisons(b: Battle, r: Id, vacated: bool)
    requires Valid(b) && Moves(b, r)
    ensures Decide(b, r, vacated) <==>
      && (DefenderOf(b, r, vacated).Some? ==>
            DefenderOf(b, r, vacated).value.1 != b.units[r].factionId && Attack(b, r) > DefenderOf(b, r, vacated).value.0)
      && (HeadToHeadOf(b, r).Some? ==> Attack(b, r) > HeadToHeadOf(b, r).value)
      && BeatsRivals(b, r)
  {
  }

  /** One undecided call of the search: the call below it, if any, then the decision. */
  lemma SearchUnfolds(b: Battle, r: Id, resolved: map<Id, bool>, inProgress: set<Id>)
    requires Valid(b) && Moves(b, r) && inProgress <= Movers(b) && r !in resolved && r !in inProgress
    ensures r in Movers(b) && inProgress + {r} <= Movers(b)
    ensures Search(b, r, resolved, inProgress) ==
            match Dep(b, r)
            case None => Found(Decide(b, r, false), resolved[r := Decide(b, r, false)])
            case Some(d) =>
              var f := Search(b, d, resolved, inProgress + {r});
              Found(Decide(b, r, f.success), f.resolved[r := Decide(b, r, f.success)])
  {
  }

  /** The search's memo table, its set of moves in progress, and the log of its decisions. */
  class MoveResolver {
    const battle: Battle
    const attack: map<Id, nat>
    const hold: map<Id, nat>
    var resolved: map<Id, bool>
    var inProgress: set<Id>
    ghost var decided: seq<Id>

    ghost predicate Ready()
      reads this
    {
      && Valid(battle) && StrengthsKnown(battle, attack, hold)
      && inProgress <= Movers(battle)
      && (forall r :: r in decided <==> r in resolved)
      && (forall i, j :: 0 <= i < j < |decided| ==> decided[i] != decided[j])
    }

    constructor (b: Battle, attack: map<Id, nat>, hold: map<Id, nat>)
      requires Valid(b) && StrengthsKnown(b, attack, hold)
      ensures Ready() && battle == b && resolved == map[] && inProgress == {}
    {
      battle, this.attack, this.hold := b, attack, hold;
      resolved, inProgress, decided := map[], {}, [];
    }

    /** The comparisons that end the decision of a move. */
    method Judge(region: Id, defender: Option<(nat, Id)>, headToHead: Option<nat>, ghost vacated: bool)
      returns (success: bool)
      requires Ready() && Moves(battle, region)
      requires defender == DefenderOf(battle, region, vacated) && headToHead == HeadToHeadOf(battle, region)
      ensures success == Decide(battle, region, vacated)
    {
      var myStrength := attack[region];
      var dest := battle.orders[region].destination;
      success := true;
      if defender.Some? && (defender.value.1 == battle.units[region].factionId || myStrength <= defender.value.0) {
        success := false;
      }
      if headToHead.Some? && myStrength <= headToHead.value {
        success := false;
      }
      var losesToRival := LosesToRival(region);
      if losesToRival {
        success := false;
      }
      DecideByComparisons(battle, region, vacated);
    }

    method LosesToRival(region: Id) returns (loses: bool)
      requires Ready() && Moves(battle, region)
      ensures loses <==> !BeatsRivals(battle, region)
    {
      var rivals := set r | r in battle.orders && r != region && Moves(battle, r) && Dest(battle, r) == Dest(battle, region);
      loses := exists r :: r in rivals && attack[region] <= attack[r];
    }

    /** Decides one move, and whatever it depends on, as the specification of the search says; no
        decision is ever taken twice. */
    method ResolveMove(region: Id) returns (success: bool)
      requires Ready() && Moves(battle, region)
      modifies this
      ensures Ready() && inProgress == old(inProgress) && old(decided) <= decided
      ensures Found(success, resolved) == Search(battle, region, old(resolved), old(inProgress))
      decreases Movers(battle) - inProgress
    {
      if region in resolved {
        return resolved[region];
      }
      if region in inProgress {
        return true;
      }
      ghost var before := inProgress;
      SearchUnfolds(battle, region, resolved, inProgress);
      assert region in Movers(battle) - inProgress;
      inProgress := inProgress + {region};

      var dest := battle.orders[region].destination;
      var defender: Option<(nat, Id)> := None;
      var headToHead: Option<nat> := None;
      ghost var vacates := false;

      if dest in battle.units {
        if Moves(battle, dest) {
          if battle.orders[dest].destination == region {
            headToHead := Some(attack[dest]);
          } else {
            var vacated := ResolveMove(dest);
            vacates := vacated;
            if !vacated {
              defender := Some((1, battle.units[dest].factionId));
            }
          }
        } else {
          defender := Some((hold[dest], battle.units[dest].factionId));
        }
      }

      success := Conclude(region, defender, headToHead, vacates);
      assert inProgress == before;
    }

    /** The decision itself, taken once the defence is known. */
    method Conclude(region: Id, defender: Option<(nat, Id)>, headToHead: Option<nat>, ghost vacated: bool)
      returns (success: bool)
      requires Ready() && Moves(battle, region) && region !in resolved
      requires defender == DefenderOf(battle, region, vacated) && headToHead == HeadToHeadOf(battle, region)
      modifies this
      ensures Ready() && success == Decide(battle, region, vacated)
      ensures resolved == old(resolved)[region := success] && decided == old(decided) + [region]
      ensures inProgress == old(inProgress) - {region}
    {
      success := Judge(region, defender, headToHead, vacated);
      inProgress := inProgress - {region};
      Record(region, success);
    }

    method Record(region: Id, success: bool)
      requires Ready() && region !in resolved
      modifies this`resolved, this`decided
      ensures Ready() && resolved == old(resolved)[region := success] && decided == old(decided) + [region]
    {
      resolved := resolved[region := success];
      decided := decided + [region];
    }
  }

  /** The outer loop of the search. */
  method ResolveAll(b: Battle, keys: seq<Id>, attack: map<Id, nat>, hold: map<Id, nat>) returns (resolved: map<Id, bool>)
    requires Valid(b) && StrengthsKnown(b, attack, hold)
    ensures resolved == Visit(b, InTurn(b, keys))
  {
    var resolver := new MoveResolver(b, attack, hold);
    for i := 0 to |keys|
      invariant resolver.Ready() && resolver.battle == b && resolver.inProgress == {} && fresh(resolver)
      invariant resolver.resolved == Visit(b, InTurn(b, keys[..i]))
    {
      InTurnGrows(b, keys, i);
      if Moves(b, keys[i]) {
        VisitGrows(b, InTurn(b, keys[..i]), keys[i]);
        var _ := resolver.ResolveMove(keys[i]);
      }
    }
    assert keys[..|keys|] == keys;
    resolved := resolver.resolved;
  }

  method FindWinners(b: Battle, keys: seq<Id>, resolved: map<Id, bool>) returns (winners: map<Id, Id>)
    ensures winners == Winners(b, resolved, keys)
  {
    winners := map[];
    for i := 0 to |keys|
      invariant winners == Winners(b, resolved, keys[..i])
    {
      assert keys[..i + 1][..i] == keys[..i];
      if Moved(b, resolved, keys[i]) {
        winners := winners[Dest(b, keys[i]) := keys[i]];
      }
    }
    assert keys[..|keys|] == keys;
  }

  method AssembleResults(b: Battle, keys: seq<Id>, flags: map<Id, bool>, cut: map<Id, bool>,
                         resolved: map<Id, bool>, winners: map<Id, Id>)
    returns (unitResults: seq<UnitOrderResult>)
    requires Valid(b) && flags.Keys == b.orders.Keys && forall r :: r in keys ==> r in b.orders
    requires CutsKnown(b, cut)
    ensures unitResults == ResultsFor(b, flags, resolved, winners, keys)
  {
    unitResults := [];
    for i := 0 to |keys|
      invariant |unitResults| == i
      invariant forall k :: 0 <= k < i ==> unitResults[k] == ResultFor(b, flags[keys[k]], resolved, winners, keys[k])
    {
      var region := keys[i];
      var unit := b.units[region];
      var moved := Moves(b, region) && region in resolved && resolved[region];
      var finalRegion := if moved then Dest(b, region) else region;
      var dislodged := !moved && region in winners;
      var dislodgedBy := if dislodged then Some(winners[region]) else None;
      var supportCut := region in cut && cut[region];
      unitResults := unitResults + [UnitOrderResult(
        region, unit.factionId, unit.unitType, b.orders[region], flags[region],
        moved, finalRegion, dislodged, dislodgedBy, supportCut)];
    }
  }

  /** The steps after normalisation. */
  method ResolveBattle(b: Battle, flags: map<Id, bool>) returns (result: MovementResult)
    requires Valid(b) && flags.Keys == b.orders.Keys
    ensures result == OutcomeOf(b, flags)
  {
    var keys := Ascending(b.orders.Keys);
    var cut := CutSupports(b, keys);
    var attack, hold := Strengths(b, keys, cut);
    var resolved := ResolveAll(b, keys, attack, hold);
    var winners := FindWinners(b, keys, resolved);
    var unitResults := AssembleResults(b, keys, flags, cut, resolved, winners);
    result := MovementResult(unitResults, Contested(b));
  }

  /** The whole movement phase, computed as the engine does; `MovementOutcome` is its specification. */
  method ResolveMovement(adj: Adjacency, state: GameState, orders: map<Id, Order>) returns (result: MovementResult)
    ensures result == MovementOutcome(adj, state, orders)
  {
    BattleIsValid(adj, state, orders);
    var units := ByRegion(SortByRegion(state.units));
    var effective, flags := NormalizeOrders(adj, state, orders, units, Ascending(units.Keys));
    NormalizedIsBattle(adj, state, orders, effective, flags);
    result := ResolveBattle(Battle(units, effective), flags);
  }
}
