/** Adding a legal support for a move never turns that move from success to failure. */
module Supports {
  import opened Ordering
  import opened Board
  import opened Movement
  import opened MoveSearch
  import opened Adjudication
  import opened MovementTheorems

  /** The battle in which the holding unit at `s` supports the move of `r` instead. */
  function WithSupport(b: Battle, s: Id, r: Id): Battle
    requires Moves(b, r)
  {
    b.(orders := b.orders[s := SupportMove(s, r, Dest(b, r))])
  }

  ghost predicate CanSupport(b: Battle, s: Id, r: Id) {
    Valid(b) && Moves(b, r) && s in b.orders && b.orders[s].Hold?
  }

  lemma SupportKeepsMoves(b: Battle, s: Id, r: Id, q: Id)
    requires CanSupport(b, s, r)
    ensures Valid(WithSupport(b, s, r))
    ensures Moves(WithSupport(b, s, r), q) == Moves(b, q)
    ensures Moves(b, q) ==> Dest(WithSupport(b, s, r), q) == Dest(b, q)
    ensures Moves(b, q) ==> Dep(WithSupport(b, s, r), q) == Dep(b, q)
  {
  }

  lemma SupportKeepsCuts(b: Battle, s: Id, r: Id, x: Id)
    requires CanSupport(b, s, r) && x != s
    ensures IsCut(WithSupport(b, s, r), x) == IsCut(b, x)
  {
    var c := WithSupport(b, s, r);
    forall a | a in b.orders && x in b.orders ensures Cuts(c, a, x) == Cuts(b, a, x) {
      SupportKeepsMoves(b, s, r, a);
    }
  }

  lemma SupportKeepsStrengths(b: Battle, s: Id, r: Id, q: Id)
    requires CanSupport(b, s, r)
    ensures HoldStrength(WithSupport(b, s, r), q) == HoldStrength(b, q)
    ensures Moves(b, q) && q != r ==> Attack(WithSupport(b, s, r), q) == Attack(b, q)
    ensures Attack(WithSupport(b, s, r), r) >= Attack(b, r)
  {
    var c := WithSupport(b, s, r);
    forall x | x in b.orders && x != s ensures IsCut(c, x) == IsCut(b, x) {
      SupportKeepsCuts(b, s, r, x);
    }
    assert HoldSupports(c, q) == HoldSupports(b, q);
    assert Moves(b, q) && q != r ==> AttackSupports(c, q) == AttackSupports(b, q);
    assert AttackSupports(b, r) <= AttackSupports(c, r);
    SubsetSize(AttackSupports(b, r), AttackSupports(c, r));
  }

  /** A supported move's rivals may suffer, and its head-to-head opponent; nobody else does. */
  lemma SupportKeepsPrevailing(b: Battle, s: Id, r: Id, q: Id)
    requires CanSupport(b, s, r) && Moves(b, q) && Prevails(b, q)
    requires q != r ==> Dest(b, q) != Dest(b, r) && !(Dest(b, q) == r && Dest(b, r) == q)
    ensures Valid(WithSupport(b, s, r)) && Moves(WithSupport(b, s, r), q) && Prevails(WithSupport(b, s, r), q)
  {
    var c := WithSupport(b, s, r);
    SupportKeepsMoves(b, s, r, q);
    SupportKeepsStrengths(b, s, r, q);
    SupportKeepsMoves(b, s, r, Dest(b, q));
    SupportKeepsStrengths(b, s, r, Dest(b, q));
    forall x | x in c.orders && x != q && Moves(c, x) && Dest(c, x) == Dest(c, q)
      ensures Attack(c, q) > Attack(c, x)
    {
      SupportKeepsMoves(b, s, r, x);
      SupportKeepsStrengths(b, s, r, x);
      assert Attack(b, q) > Attack(b, x);
    }
    assert BeatsRivals(c, q) && BeatsHolder(c, q) && BeatsHeadToHead(c, q);
  }

  lemma {:induction false} SupportKeepsNeeds(b: Battle, s: Id, r: Id, q: Id, k: nat)
    requires CanSupport(b, s, r) && Moves(b, q)
    ensures Valid(WithSupport(b, s, r)) && Moves(WithSupport(b, s, r), q)
    ensures Needs(WithSupport(b, s, r), q, k).Some? ==> Needs(b, q, k) == Needs(WithSupport(b, s, r), q, k)
    decreases k
  {
    var c := WithSupport(b, s, r);
    SupportKeepsMoves(b, s, r, q);
    SupportKeepsStrengths(b, s, r, q);
    assert Shoves(b, q) ==> Shoves(c, q);
    if k > 0 && Dep(b, q).Some? {
      SupportKeepsNeeds(b, s, r, Dep(b, q).value, k - 1);
    }
  }

  /** For the declarative verdicts, with or without rings. */
  lemma SupportIsMonotone(b: Battle, s: Id, r: Id)
    requires CanSupport(b, s, r) && Succeeds(b, r)
    ensures Valid(WithSupport(b, s, r)) && Moves(WithSupport(b, s, r), r) && Succeeds(WithSupport(b, s, r), r)
  {
    var c := WithSupport(b, s, r);
    SupportKeepsMoves(b, s, r, r);
    assert Needs(b, r, 0) == Some(r);
    forall k: nat | Needs(c, r, k).Some? ensures Prevails(c, Needs(c, r, k).value) {
      SupportKeepsNeeds(b, s, r, r, k);
      var m := Needs(b, r, k).value;
      PrevailersKeepApart(b, m, r);
      SupportKeepsPrevailing(b, s, r, m);
    }
  }

  // ---------------------------------------------------------------- the search, rings or no rings

  /** Whatever the table grants still prevails once the support is given. */
  ghost predicate StillPrevail(b: Battle, s: Id, r: Id, v: map<Id, bool>)
    requires CanSupport(b, s, r)
  {
    forall x :: x in v && v[x] ==>
      var c := WithSupport(b, s, r); Valid(c) && Moves(c, x) && Prevails(c, x)
  }

  /** One table decides the same moves as another and grants at least as many. */
  ghost predicate GrantsMore(u: map<Id, bool>, v: map<Id, bool>) {
    u.Keys == v.Keys && forall x :: x in u && u[x] ==> v[x]
  }

  lemma SupportKeepsMovers(b: Battle, s: Id, r: Id)
    requires CanSupport(b, s, r)
    ensures Valid(WithSupport(b, s, r)) && Movers(WithSupport(b, s, r)) == Movers(b)
  {
    forall q ensures Moves(WithSupport(b, s, r), q) == Moves(b, q) { SupportKeepsMoves(b, s, r, q); }
  }

  lemma SupportKeepsDecision(b: Battle, s: Id, r: Id, x: Id, before: bool, after: bool)
    requires CanSupport(b, s, r) && Moves(b, x) && (before ==> after)
    requires var c := WithSupport(b, s, r); Valid(c) && Moves(c, x) && (Decide(b, x, before) ==> Prevails(c, x))
    ensures Decide(b, x, before) ==> Decide(WithSupport(b, s, r), x, after)
  {
    SupportKeepsMoves(b, s, r, x);
    SupportKeepsStrengths(b, s, r, x);
  }

  lemma GrantsMoreGrows(u: map<Id, bool>, v: map<Id, bool>, x: Id, p: bool, q: bool)
    requires GrantsMore(u, v) && (p ==> q)
    ensures GrantsMore(u[x := p], v[x := q])
  {
  }

  lemma StillPrevailBelow(b: Battle, s: Id, r: Id, u: map<Id, bool>, v: map<Id, bool>)
    requires CanSupport(b, s, r) && StillPrevail(b, s, r, v)
    requires forall x :: x in u ==> x in v && u[x] == v[x]
    ensures StillPrevail(b, s, r, u)
  {
  }

  /** One step of the two searches side by side, given the searches below it. */
  lemma CombineSearches(b: Battle, s: Id, r: Id, x: Id, vacated: bool, below: map<Id, bool>, vacatedToo: bool, belowToo: map<Id, bool>)
    requires CanSupport(b, s, r) && Moves(b, x)
    requires GrantsMore(below, belowToo) && (vacated ==> vacatedToo)
    requires StillPrevail(b, s, r, below[x := Decide(b, x, vacated)])
    ensures var c := WithSupport(b, s, r);
            && Valid(c) && Moves(c, x) && (Decide(b, x, vacated) ==> Decide(c, x, vacatedToo))
            && GrantsMore(below[x := Decide(b, x, vacated)], belowToo[x := Decide(c, x, vacatedToo)])
  {
    SupportKeepsMoves(b, s, r, x);
    assert x in below[x := Decide(b, x, vacated)];
    SupportKeepsDecision(b, s, r, x, vacated, vacatedToo);
    GrantsMoreGrows(below, belowToo, x, Decide(b, x, vacated), Decide(WithSupport(b, s, r), x, vacatedToo));
  }

  /** Two searches side by side: with the support, the table grants everything it granted without. */
  lemma {:induction false} SearchKeepsSuccess(b: Battle, s: Id, r: Id, x: Id, u: map<Id, bool>, v: map<Id, bool>, inProgress: set<Id>)
    requires CanSupport(b, s, r) && Moves(b, x) && inProgress <= Movers(b) && GrantsMore(u, v)
    requires inProgress !! u.Keys && StillPrevail(b, s, r, Search(b, x, u, inProgress).resolved)
    ensures var c := WithSupport(b, s, r);
            && Valid(c) && Moves(c, x) && inProgress <= Movers(c)
            && var f, g := Search(b, x, u, inProgress), Search(c, x, v, inProgress);
               GrantsMore(f.resolved, g.resolved) && (f.success ==> g.success)
    decreases Movers(b) - inProgress
  {
    var c := WithSupport(b, s, r);
    SupportKeepsMovers(b, s, r);
    SupportKeepsMoves(b, s, r, x);
    if x !in u && x !in inProgress {
      if Dep(b, x).Some? {
        var d := Dep(b, x).value;
        assert x in Movers(b);
        assert x in Movers(b) - inProgress && x !in Movers(b) - (inProgress + {x});
        var below := Search(b, d, u, inProgress + {x});
        StillPrevailBelow(b, s, r, below.resolved, Search(b, x, u, inProgress).resolved);
        SearchKeepsSuccess(b, s, r, d, u, v, inProgress + {x});
        var belowToo := Search(c, d, v, inProgress + {x});
        CombineSearches(b, s, r, x, below.success, below.resolved, belowToo.success, belowToo.resolved);
      } else {
        CombineSearches(b, s, r, x, false, u, false, v);
      }
    }
  }

  lemma {:induction false} VisitKeepsSuccess(b: Battle, s: Id, r: Id, order: seq<Id>)
    requires CanSupport(b, s, r) && (forall x :: x in order ==> Moves(b, x))
    requires StillPrevail(b, s, r, Visit(b, order))
    ensures var c := WithSupport(b, s, r);
            && Valid(c) && (forall x :: x in order ==> Moves(c, x))
            && GrantsMore(Visit(b, order), Visit(c, order))
    decreases |order|
  {
    SupportKeepsMovers(b, s, r);
    forall x | x in order ensures Moves(WithSupport(b, s, r), x) { SupportKeepsMoves(b, s, r, x); }
    if order != [] {
      var front, x := order[..|order| - 1], order[|order| - 1];
      var u := Visit(b, front);
      assert forall y :: y in u ==> y in Visit(b, order) && Visit(b, order)[y] == u[y];
      VisitKeepsSuccess(b, s, r, front);
      SearchKeepsSuccess(b, s, r, x, u, Visit(WithSupport(b, s, r), front), {});
    }
  }

  lemma {:induction false} SupportKeepsTurns(b: Battle, s: Id, r: Id, keys: seq<Id>)
    requires CanSupport(b, s, r)
    ensures InTurn(WithSupport(b, s, r), keys) == InTurn(b, keys)
    decreases |keys|
  {
    if keys != [] {
      SupportKeepsTurns(b, s, r, keys[..|keys| - 1]);
      SupportKeepsMoves(b, s, r, keys[|keys| - 1]);
    }
  }

  /** Supporting a move that succeeds leaves every successful move successful, rings or no rings. */
  lemma SupportKeepsOutcomes(b: Battle, s: Id, r: Id)
    requires CanSupport(b, s, r) && Moved(b, Outcomes(b), r)
    ensures Valid(WithSupport(b, s, r))
    ensures forall x :: Moved(b, Outcomes(b), x) ==> Moved(WithSupport(b, s, r), Outcomes(WithSupport(b, s, r)), x)
  {
    var c := WithSupport(b, s, r);
    OutcomesPrevail(b);
    SupportKeepsMovers(b, s, r);
    forall x | x in Outcomes(b) && Outcomes(b)[x] ensures Moves(c, x) && Prevails(c, x) {
      PrevailersKeepApart(b, x, r);
      SupportKeepsPrevailing(b, s, r, x);
    }
    assert c.orders.Keys == b.orders.Keys;
    SupportKeepsTurns(b, s, r, Ascending(b.orders.Keys));
    VisitKeepsSuccess(b, s, r, InTurn(b, Ascending(b.orders.Keys)));
    forall x | Moved(b, Outcomes(b), x) ensures Moved(c, Outcomes(c), x) {
      SupportKeepsMoves(b, s, r, x);
    }
  }

  lemma WithSupportIsBattle(adj: Adjacency, state: GameState, orders: map<Id, Order>, s: Id, r: Id)
    requires CanSupport(BattleOf(adj, state, orders), s, r)
    requires Occupied(state, r)
    requires CanMoveTo(adj, state, BattleOf(adj, state, orders).units[s], Dest(BattleOf(adj, state, orders), r))
    ensures var b := BattleOf(adj, state, orders);
            BattleOf(adj, state, orders[s := SupportMove(s, r, Dest(b, r))]) == WithSupport(b, s, r)
  {
    BattleIsValid(adj, state, orders);
    var b := BattleOf(adj, state, orders);
    var orders' := orders[s := SupportMove(s, r, Dest(b, r))];
    assert b.units == BattleOf(adj, state, orders').units;
    forall x | x in b.orders
      ensures BattleOf(adj, state, orders').orders[x] == WithSupport(b, s, r).orders[x]
    {
      assert x != s ==> Lookup(orders', x) == Lookup(orders, x);
    }
    assert BattleOf(adj, state, orders').orders == WithSupport(b, s, r).orders;
  }

  /** For the engine, whatever the orders: a unit that held and now legally supports a successful move
      leaves that move, and every other successful move, successful. */
  lemma SupportNeverHurts(adj: Adjacency, state: GameState, orders: map<Id, Order>, s: Id, r: Id)
    requires CanSupport(BattleOf(adj, state, orders), s, r)
    requires CanMoveTo(adj, state, BattleOf(adj, state, orders).units[s], Dest(BattleOf(adj, state, orders), r))
    requires Moved(BattleOf(adj, state, orders), Outcomes(BattleOf(adj, state, orders)), r)
    ensures var b := BattleOf(adj, state, orders);
            var c := BattleOf(adj, state, orders[s := SupportMove(s, r, Dest(b, r))]);
            && Valid(c) && Moved(c, Outcomes(c), r)
            && forall x :: Moved(b, Outcomes(b), x) ==> Moved(c, Outcomes(c), x)
  {
    MoverIsOnBoard(adj, state, orders, r);
    WithSupportIsBattle(adj, state, orders, s, r);
    SupportKeepsOutcomes(BattleOf(adj, state, orders), s, r);
  }

  lemma MoverIsOnBoard(adj: Adjacency, state: GameState, orders: map<Id, Order>, r: Id)
    requires Moves(BattleOf(adj, state, orders), r)
    ensures Occupied(state, r)
  {
    SortByRegionKeeps(state.units);
    ByRegionHas(SortByRegion(state.units));
    var u := BattleOf(adj, state, orders).units[r];
    assert u in state.units;
    var i :| 0 <= i < |state.units| && state.units[i] == u;
  }
}
