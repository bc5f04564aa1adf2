/** The movement phase up to the search: normalised orders, cut supports, strengths, and the
    equation that says which moves succeed. */
module Movement {
  import opened Ordering
  import opened Board

  /** The units on the board by region, with their normalised orders. */
  datatype Battle = Battle(units: map<Id, Unit>, orders: map<Id, Order>)

  function Normalize(adj: Adjacency, state: GameState, unit: Unit, order: Option<Order>): (Order, bool) {
    var hold := (Hold(unit.regionId), true);
    if order.None? || order.value.unit != unit.regionId then hold else
      match order.value
      case Hold(_) => (order.value, false)
      case Move(_, destination) =>
        if CanMoveTo(adj, state, unit, destination) then (order.value, false) else hold
      case SupportHold(_, supported) =>
        if Occupied(state, supported) && CanMoveTo(adj, state, unit, supported) then (order.value, false) else hold
      case SupportMove(_, supported, target) =>
        if Occupied(state, supported) && CanMoveTo(adj, state, unit, target) then (order.value, false) else hold
  }

  function Lookup(orders: map<Id, Order>, region: Id): Option<Order> {
    if region in orders then Some(orders[region]) else None
  }

  /** What the unit at `r` will do, and whether that is a Hold put in place of an illegal or missing order. */
  function EffectiveOrder(adj: Adjacency, state: GameState, orders: map<Id, Order>, r: Id, unit: Unit): (Order, bool) {
    Normalize(adj, state, unit, Lookup(orders, r))
  }

  function BattleOf(adj: Adjacency, state: GameState, orders: map<Id, Order>): Battle {
    var units := ByRegion(SortByRegion(state.units));
    Battle(units, map r | r in units :: EffectiveOrder(adj, state, orders, r, units[r]).0)
  }

  ghost predicate Valid(b: Battle) {
    && b.orders.Keys == b.units.Keys
    && forall r :: r in b.orders ==> b.orders[r].unit == r && b.units[r].regionId == r
  }

  lemma BattleIsValid(adj: Adjacency, state: GameState, orders: map<Id, Order>)
    ensures Valid(BattleOf(adj, state, orders))
    ensures var b := BattleOf(adj, state, orders);
            forall r :: Moves(b, r) ==> CanMoveTo(adj, state, b.units[r], Dest(b, r))
  {
    ByRegionHas(SortByRegion(state.units));
  }

  predicate Moves(b: Battle, r: Id) {
    r in b.orders && b.orders[r].Move? && r in b.units
  }

  function Dest(b: Battle, r: Id): Id
    requires Moves(b, r)
  {
    b.orders[r].destination
  }

  function Movers(b: Battle): set<Id> {
    set r | r in b.orders && Moves(b, r)
  }

  predicate Supports(b: Battle, s: Id) {
    s in b.orders && (b.orders[s].SupportHold? || b.orders[s].SupportMove?)
  }

  /** A move from `a` into the supporter's region cuts it, unless the support is aimed at `a`. */
  predicate Cuts(b: Battle, a: Id, s: Id)
    requires s in b.orders
  {
    Moves(b, a) && Dest(b, a) == s && a != s && !(b.orders[s].SupportMove? && b.orders[s].target == a)
  }

  predicate IsCut(b: Battle, s: Id) {
    s in b.orders && exists a :: a in b.orders && Cuts(b, a, s)
  }

  function AttackSupports(b: Battle, r: Id): set<Id>
    requires Moves(b, r)
  {
    set s | s in b.orders && b.orders[s].SupportMove? && b.orders[s].supported == r &&
            b.orders[s].target == Dest(b, r) && !IsCut(b, s)
  }

  function Attack(b: Battle, r: Id): nat
    requires Moves(b, r)
  {
    1 + |AttackSupports(b, r)|
  }

  function HoldSupports(b: Battle, r: Id): set<Id> {
    set s | s in b.orders && b.orders[s].SupportHold? && b.orders[s].supported == r && !IsCut(b, s)
  }

  function HoldStrength(b: Battle, r: Id): nat {
    1 + |HoldSupports(b, r)|
  }

  /** The mover whose own outcome decides whether `r` finds its destination vacated. */
  function Dep(b: Battle, r: Id): (d: Option<Id>)
    requires Moves(b, r)
    ensures d.Some? ==> Moves(b, d.value) && Dest(b, r) == d.value && Dest(b, d.value) != r
  {
    if Moves(b, Dest(b, r)) && Dest(b, Dest(b, r)) != r then Some(Dest(b, r)) else None
  }

  predicate BeatsHolder(b: Battle, r: Id)
    requires Valid(b) && Moves(b, r)
  {
    var d := Dest(b, r);
    d in b.units && !Moves(b, d) ==>
      b.units[d].factionId != b.units[r].factionId && Attack(b, r) > HoldStrength(b, d)
  }

  predicate BeatsHeadToHead(b: Battle, r: Id)
    requires Moves(b, r)
  {
    var d := Dest(b, r);
    Moves(b, d) && Dest(b, d) == r ==> Attack(b, r) > Attack(b, d)
  }

  predicate BeatsRivals(b: Battle, r: Id)
    requires Moves(b, r)
  {
    forall q :: q in b.orders && q != r && Moves(b, q) && Dest(b, q) == Dest(b, r) ==> Attack(b, r) > Attack(b, q)
  }

  /** Everything the success of `r` needs that no other move's outcome can change. */
  predicate Prevails(b: Battle, r: Id)
    requires Valid(b) && Moves(b, r)
  {
    BeatsHolder(b, r) && BeatsHeadToHead(b, r) && BeatsRivals(b, r)
  }

  /** Two moves that both prevail neither share a destination nor face each other. */
  lemma PrevailersKeepApart(b: Battle, q: Id, r: Id)
    requires Valid(b) && Moves(b, q) && Moves(b, r) && Prevails(b, q) && Prevails(b, r)
    ensures Dest(b, q) == Dest(b, r) ==> q == r
    ensures !(Dest(b, q) == r && Dest(b, r) == q)
  {
    assert BeatsRivals(b, q) && BeatsRivals(b, r) && BeatsHeadToHead(b, q) && BeatsHeadToHead(b, r);
  }

  /** `r` gets in even if the mover in its destination fails: that unit defends with strength 1. */
  predicate Shoves(b: Battle, r: Id)
    requires Valid(b) && Moves(b, r)
  {
    Dep(b, r).Some? && b.units[Dest(b, r)].factionId != b.units[r].factionId && Attack(b, r) > 1
  }

  /** The outcome of `r`, given whether the mover it depends on gets away. */
  predicate Decide(b: Battle, r: Id, vacated: bool)
    requires Valid(b) && Moves(b, r)
  {
    Prevails(b, r) && (Dep(b, r).Some? ==> vacated || Shoves(b, r))
  }

  /** The success equation: every move's outcome follows from the outcome of the move it depends on. */
  ghost predicate SolvesAt(b: Battle, outcome: map<Id, bool>, r: Id)
    requires Valid(b) && Moves(b, r)
  {
    var d := Dep(b, r);
    && r in outcome
    && (d.Some? ==> d.value in outcome)
    && outcome[r] == Decide(b, r, d.Some? && outcome[d.value])
  }

  ghost predicate Solves(b: Battle, outcome: map<Id, bool>)
    requires Valid(b)
  {
    forall r :: r in Movers(b) ==> SolvesAt(b, outcome, r)
  }

  /** The mover reached from `r` in `k` dependency steps, if the chain is that long. */
  function Chain(b: Battle, r: Id, k: nat): (m: Option<Id>)
    requires Moves(b, r)
    ensures m.Some? ==> Moves(b, m.value)
    decreases k
  {
    if k == 0 then Some(r) else
      match Dep(b, r)
      case None => None
      case Some(d) => Chain(b, d, k - 1)
  }

  lemma ChainOne(b: Battle, r: Id)
    requires Moves(b, r)
    ensures Chain(b, r, 1) == Dep(b, r)
  {
  }

  lemma ChainSplits(b: Battle, r: Id, j: nat, k: nat)
    requires Moves(b, r) && Chain(b, r, j).Some?
    ensures Chain(b, r, j + k) == Chain(b, Chain(b, r, j).value, k)
    decreases j
  {
    if j > 0 {
      ChainSplits(b, Dep(b, r).value, j - 1, k);
    }
  }

  /** `r` is on a ring of moves, each one into the region the next one leaves. */
  ghost predicate OnRing(b: Battle, r: Id) {
    Moves(b, r) && exists k: nat :: k > 0 && Chain(b, r, k) == Some(r)
  }

  ghost predicate NoRings(b: Battle) {
    forall r :: r in Movers(b) ==> !OnRing(b, r)
  }

  /** Head-to-head pairs are not rings: a ring has three moves or more. */
  lemma RingsAreLong(b: Battle, r: Id, k: nat)
    requires Moves(b, r) && k > 0 && Chain(b, r, k) == Some(r)
    ensures k >= 3
  {
    ChainOne(b, r);
    ChainOne(b, Dep(b, r).value);
    assert Chain(b, r, k) == Chain(b, Dep(b, r).value, k - 1);
  }

  /** As `Chain`, but stopping at the first mover that does not need the next one to get away. */
  function Needs(b: Battle, r: Id, k: nat): (m: Option<Id>)
    requires Valid(b) && Moves(b, r)
    ensures m.Some? ==> Moves(b, m.value)
    decreases k
  {
    if k == 0 then Some(r)
    else if Shoves(b, r) || Dep(b, r).None? then None
    else Needs(b, Dep(b, r).value, k - 1)
  }

  /** The declarative verdict on a move, with no reference to any search: it succeeds when it and
      every mover it needs out of the way, however far along the chain, prevail. */
  ghost predicate Succeeds(b: Battle, r: Id)
    requires Valid(b) && Moves(b, r)
  {
    forall k: nat :: Needs(b, r, k).Some? ==> Prevails(b, Needs(b, r, k).value)
  }

  ghost function Verdicts(b: Battle): map<Id, bool>
    requires Valid(b)
  {
    map r | r in Movers(b) :: Succeeds(b, r)
  }

  lemma SucceedsUnfolds(b: Battle, r: Id)
    requires Valid(b) && Moves(b, r)
    ensures Succeeds(b, r) == Decide(b, r, Dep(b, r).Some? && Succeeds(b, Dep(b, r).value))
  {
    assert Needs(b, r, 0) == Some(r);
    if Dep(b, r).Some? && !Shoves(b, r) {
      var d := Dep(b, r).value;
      if Succeeds(b, r) {
        forall k: nat | Needs(b, d, k).Some? ensures Prevails(b, Needs(b, d, k).value) {
          assert Needs(b, r, k + 1) == Needs(b, d, k);
        }
      }
      if Prevails(b, r) && Succeeds(b, d) {
        forall k: nat | Needs(b, r, k).Some? ensures Prevails(b, Needs(b, r, k).value) {
          if k > 0 {
            assert Needs(b, r, k) == Needs(b, d, k - 1);
          }
        }
      }
    }
  }

  /** The declarative verdicts solve the success equation of every order set. */
  lemma VerdictsSolve(b: Battle)
    requires Valid(b)
    ensures Solves(b, Verdicts(b))
  {
    forall r | r in Movers(b) ensures SolvesAt(b, Verdicts(b), r) {
      SucceedsUnfolds(b, r);
    }
  }

  lemma {:induction false} SolutionNeeds(b: Battle, outcome: map<Id, bool>, r: Id, k: nat)
    requires Valid(b) && Solves(b, outcome) && Moves(b, r) && r in outcome && outcome[r]
    ensures Needs(b, r, k).Some? ==> Prevails(b, Needs(b, r, k).value)
    decreases k
  {
    assert SolvesAt(b, outcome, r);
    if k > 0 && Needs(b, r, k).Some? {
      SolutionNeeds(b, outcome, Dep(b, r).value, k - 1);
    }
  }

  /** They are the largest solution: any solution that lets a move succeed is matched by them. */
  lemma VerdictsAreGreatest(b: Battle, outcome: map<Id, bool>, r: Id)
    requires Valid(b) && Solves(b, outcome) && Moves(b, r) && r in outcome && outcome[r]
    ensures Succeeds(b, r)
  {
    forall k: nat | Needs(b, r, k).Some? ensures Prevails(b, Needs(b, r, k).value) {
      SolutionNeeds(b, outcome, r, k);
    }
  }

  /** `path` holds movers whose dependency chain leads to `r`. */
  ghost predicate LeadsTo(b: Battle, path: set<Id>, r: Id)
    requires Moves(b, r)
  {
    forall p :: p in path ==> Moves(b, p) && exists k: nat :: k > 0 && Chain(b, p, k) == Some(r)
  }

  lemma LeadsOn(b: Battle, path: set<Id>, r: Id)
    requires Moves(b, r) && LeadsTo(b, path, r) && Dep(b, r).Some?
    ensures LeadsTo(b, path + {r}, Dep(b, r).value)
    ensures Dep(b, r).value in path + {r} ==> OnRing(b, r)
  {
    var d := Dep(b, r).value;
    forall p | p in path + {r}
      ensures Moves(b, p) && exists k: nat :: k > 0 && Chain(b, p, k) == Some(d)
    {
      assert Chain(b, r, 1) == Some(d) by { assert Chain(b, d, 0) == Some(d); }
      if p != r {
        var k: nat :| k > 0 && Chain(b, p, k) == Some(r);
        ChainSplits(b, p, k, 1);
      }
    }
    if d in path {
      var k: nat :| k > 0 && Chain(b, d, k) == Some(r);
      assert Chain(b, r, k + 1) == Chain(b, d, k);
    }
  }

  lemma {:induction false} UniqueAlong(b: Battle, outcome: map<Id, bool>, r: Id, path: set<Id>)
    requires Valid(b) && NoRings(b) && Solves(b, outcome) && Moves(b, r)
    requires LeadsTo(b, path, r) && r !in path
    ensures r in outcome && outcome[r] == Succeeds(b, r)
    decreases Movers(b) - path
  {
    assert SolvesAt(b, outcome, r);
    SucceedsUnfolds(b, r);
    if Dep(b, r).Some? {
      var d := Dep(b, r).value;
      LeadsOn(b, path, r);
      assert r in Movers(b);
      assert r in Movers(b) - path && r !in Movers(b) - (path + {r});
      UniqueAlong(b, outcome, d, path + {r});
    }
  }

  /** With no ring of moves the success equation has exactly one solution. */
  lemma SolutionIsUnique(b: Battle, outcome: map<Id, bool>)
    requires Valid(b) && NoRings(b) && Solves(b, outcome)
    ensures forall r :: r in Movers(b) ==> r in outcome && outcome[r] == Succeeds(b, r)
  {
    forall r | r in Movers(b) ensures r in outcome && outcome[r] == Succeeds(b, r) {
      UniqueAlong(b, outcome, r, {});
    }
  }
}
