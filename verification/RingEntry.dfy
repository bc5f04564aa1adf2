/** Exactly when the search and the declarative verdicts agree: a condition on the orders and the
    visiting order that can be checked before the search is run. */
module RingEntry {
  import opened Ordering
  import opened Movement
  import opened MoveSearch

  /** `c` is the first ring member met on the way from `m`. */
  ghost predicate EntersAt(b: Battle, m: Id, c: Id)
    requires Moves(b, m)
  {
    && OnRing(b, c)
    && exists k: nat :: Chain(b, m, k) == Some(c) && OffRingBefore(b, m, k)
  }

  ghost predicate OffRingBefore(b: Battle, m: Id, k: nat)
    requires Moves(b, m)
  {
    forall j: nat :: j < k && Chain(b, m, j).Some? ==> !OnRing(b, Chain(b, m, j).value)
  }

  /** The outer loop enters the ring of `c` at `c`. */
  ghost predicate Entered(b: Battle, order: seq<Id>, c: Id)
    requires forall r :: r in order ==> Moves(b, r)
  {
    exists i :: 0 <= i < |order| && EntersAt(b, order[i], c) &&
                forall j :: 0 <= j < i ==> !Reaches(b, order[j], c)
  }

  /** A ring move that prevails but must not succeed, because it needs a ring move that fails to get
      out of its way. */
  ghost predicate Fragile(b: Battle, z: Id)
    requires Valid(b)
  {
    && OnRing(b, z) && Prevails(b, z) && !Shoves(b, z)
    && Dep(b, z).Some? && !Succeeds(b, Dep(b, z).value)
  }

  lemma RingGoesOn(b: Battle, x: Id)
    requires OnRing(b, x)
    ensures Dep(b, x).Some? && OnRing(b, Dep(b, x).value) && Reaches(b, Dep(b, x).value, x)
    ensures Reaches(b, x, Dep(b, x).value)
  {
    var k: nat :| k > 0 && Chain(b, x, k) == Some(x);
    ChainOne(b, x);
    assert Chain(b, Dep(b, x).value, k - 1) == Some(x);
    RingReachesBack(b, x, Dep(b, x).value);
  }

  /** A ring member has one predecessor on the ring. */
  lemma RingIsInjective(b: Battle, x: Id, y: Id)
    requires OnRing(b, x) && OnRing(b, y) && Dep(b, x) == Dep(b, y)
    ensures x == y
  {
    var n: nat :| n > 0 && Chain(b, x, n) == Some(x);
    var m: nat :| m > 0 && Chain(b, y, m) == Some(y);
    ChainMultiple(b, x, n, m);
    ChainMultiple(b, y, m, n);
    assert m * n > 0;
    assert Chain(b, x, m * n) == Chain(b, Dep(b, x).value, m * n - 1);
  }

  /** Every ring member in progress, other than the entry, was reached from its ring predecessor. */
  ghost predicate RingPath(b: Battle, inProgress: set<Id>, r: Id, entry: Option<Id>) {
    match entry
    case None => forall p :: p in inProgress ==> !OnRing(b, p)
    case Some(e) =>
      && (forall p :: p in inProgress + {r} && OnRing(b, p) && p != e ==> CameFrom(b, inProgress, p))
      && OnRing(b, r) && r != e
  }

  ghost predicate CameFrom(b: Battle, inProgress: set<Id>, p: Id) {
    exists w :: w in inProgress && OnRing(b, w) && Dep(b, w) == Some(p)
  }

  function EntryPoint(entry: Option<Id>, r: Id): Id {
    if entry.Some? then entry.value else r
  }

  /** A step from the ring back onto the path lands on the entry. */
  lemma RingClosesAtEntry(b: Battle, inProgress: set<Id>, r: Id, entry: Option<Id>)
    requires OnRing(b, r) && r !in inProgress && RingPath(b, inProgress, r, entry)
    ensures Dep(b, r).Some?
    ensures Dep(b, r).value in inProgress + {r} ==> entry == Dep(b, r)
  {
    RingGoesOn(b, r);
    var d := Dep(b, r).value;
    if d in inProgress && entry.Some? && d != entry.value {
      assert d in inProgress + {r};
      assert CameFrom(b, inProgress, d);
      var w :| w in inProgress && OnRing(b, w) && Dep(b, w) == Some(d);
      RingIsInjective(b, w, r);
    }
  }

  lemma CameFromGrows(b: Battle, inProgress: set<Id>, r: Id, p: Id)
    requires CameFrom(b, inProgress, p)
    ensures CameFrom(b, inProgress + {r}, p)
  {
    var w :| w in inProgress && OnRing(b, w) && Dep(b, w) == Some(p);
    assert w in inProgress + {r};
  }

  /** Any other step along the ring keeps the path in shape. */
  lemma RingPathGrows(b: Battle, inProgress: set<Id>, r: Id, entry: Option<Id>)
    requires OnRing(b, r) && r !in inProgress && RingPath(b, inProgress, r, entry)
    requires entry.Some? ==> entry.value in inProgress
    requires Dep(b, r).Some? && Dep(b, r).value !in inProgress + {r}
    ensures EntryPoint(entry, r) in inProgress + {r}
    ensures RingPath(b, inProgress + {r}, Dep(b, r).value, Some(EntryPoint(entry, r)))
  {
    RingGoesOn(b, r);
    var d, e := Dep(b, r).value, EntryPoint(entry, r);
    forall p | p in inProgress + {r} + {d} && OnRing(b, p) && p != e ensures CameFrom(b, inProgress + {r}, p) {
      if p == d {
        assert r in inProgress + {r};
      } else {
        assert CameFrom(b, inProgress, p);
        CameFromGrows(b, inProgress, r, p);
      }
    }
  }

  lemma EntersLater(b: Battle, r: Id, c: Id)
    requires Moves(b, r) && Dep(b, r).Some? && !OnRing(b, r) && EntersAt(b, Dep(b, r).value, c)
    ensures EntersAt(b, r, c)
  {
    var d := Dep(b, r).value;
    var k: nat :| Chain(b, d, k) == Some(c) && OffRingBefore(b, d, k);
    assert Chain(b, r, k + 1) == Some(c);
    forall j: nat | j < k + 1 && Chain(b, r, j).Some? ensures !OnRing(b, Chain(b, r, j).value) {
      if j > 0 { assert Chain(b, r, j) == Chain(b, d, j - 1); }
    }
    assert OffRingBefore(b, r, k + 1);
  }

  lemma EntersHere(b: Battle, r: Id)
    requires OnRing(b, r)
    ensures EntersAt(b, r, r)
  {
    assert Chain(b, r, 0) == Some(r) && OffRingBefore(b, r, 0);
  }

  /** The closer steps onto the entry of its ring. */
  lemma {:induction false} CloserEntry(b: Battle, r: Id, resolved: map<Id, bool>, inProgress: set<Id>, entry: Option<Id>)
    requires Valid(b) && Moves(b, r) && inProgress <= Movers(b) && r !in inProgress
    requires LeadsTo(b, inProgress, r) && RingPath(b, inProgress, r, entry)
    requires entry.Some? ==> entry.value in inProgress
    ensures var c := Closer(b, r, resolved, inProgress);
            c.Some? ==>
              && Moves(b, c.value) && Dep(b, c.value).Some?
              && (if entry.Some? then Dep(b, c.value) == entry else EntersAt(b, r, Dep(b, c.value).value))
    decreases Movers(b) - inProgress
  {
    if r !in resolved && Dep(b, r).Some? {
      var d := Dep(b, r).value;
      LeadsOn(b, inProgress, r);
      assert r in Movers(b) - inProgress && r !in Movers(b) - (inProgress + {r});
      if OnRing(b, r) {
        RingClosesAtEntry(b, inProgress, r, entry);
        EntersHere(b, r);
        if d !in inProgress + {r} {
          RingPathGrows(b, inProgress, r, entry);
          CloserEntry(b, d, resolved, inProgress + {r}, Some(EntryPoint(entry, r)));
        }
      } else {
        CloserEntry(b, d, resolved, inProgress + {r}, None);
        var c := Closer(b, d, resolved, inProgress + {r});
        if c.Some? { EntersLater(b, r, Dep(b, c.value).value); }
      }
    }
  }

  /** A call that leads to an undecided ring closes it. */
  lemma {:induction false} CloserExists(b: Battle, r: Id, resolved: map<Id, bool>, inProgress: set<Id>, c: Id)
    requires Valid(b) && Moves(b, r) && inProgress <= Movers(b) && r !in inProgress
    requires Closed(b, resolved) && Reaches(b, r, c) && OnRing(b, c) && c !in resolved
    ensures Closer(b, r, resolved, inProgress).Some?
    decreases Movers(b) - inProgress
  {
    var k: nat :| Chain(b, r, k) == Some(c);
    if r in resolved { ChainStaysIn(b, resolved, r, k); }
    if r == c { RingGoesOn(b, r); }
    var d := Dep(b, r).value;
    if r != c { assert Chain(b, d, k - 1) == Some(c); }
    if d in resolved {
      var j: nat :| Chain(b, d, j) == Some(c);
      ChainStaysIn(b, resolved, d, j);
    }
    if d !in inProgress + {r} {
      assert r in Movers(b) - inProgress && r !in Movers(b) - (inProgress + {r});
      CloserExists(b, d, resolved, inProgress + {r}, c);
    }
  }

  lemma {:induction false} SearchReaches(b: Battle, r: Id, resolved: map<Id, bool>, inProgress: set<Id>, x: Id)
    requires Valid(b) && Moves(b, r) && inProgress <= Movers(b)
    requires x in Search(b, r, resolved, inProgress).resolved && x !in resolved
    ensures Reaches(b, r, x)
    decreases Movers(b) - inProgress
  {
    assert Chain(b, r, 0) == Some(r);
    if x != r {
      assert r in Movers(b) - inProgress && r !in Movers(b) - (inProgress + {r});
      SearchReaches(b, Dep(b, r).value, resolved, inProgress + {r}, x);
      var k: nat :| Chain(b, Dep(b, r).value, k) == Some(x);
      assert Chain(b, r, k + 1) == Some(x);
    }
  }

  lemma {:induction false} VisitReaches(b: Battle, order: seq<Id>, x: Id)
    requires Valid(b) && forall r :: r in order ==> Moves(b, r)
    requires x in Visit(b, order)
    ensures exists i :: 0 <= i < |order| && Reaches(b, order[i], x)
    decreases |order|
  {
    var before, r := order[..|order| - 1], order[|order| - 1];
    if x in Visit(b, before) {
      VisitReaches(b, before, x);
      var i :| 0 <= i < |before| && Reaches(b, before[i], x);
      assert order[i] == before[i];
    } else {
      SearchReaches(b, r, Visit(b, before), {}, x);
    }
  }

  lemma {:induction false} EntersAtOnePoint(b: Battle, m: Id, c: Id, e: Id)
    requires Moves(b, m) && EntersAt(b, m, c) && EntersAt(b, m, e)
    ensures c == e
  {
    var k: nat :| Chain(b, m, k) == Some(c) && OffRingBefore(b, m, k);
    var j: nat :| Chain(b, m, j) == Some(e) && OffRingBefore(b, m, j);
    assert j == k;
  }

  /** A mover is in the table exactly when the moves visited so far lead to it. */
  lemma DecidedWhenReached(b: Battle, order: seq<Id>, c: Id)
    requires Valid(b) && forall r :: r in order ==> Moves(b, r)
    ensures c in Visit(b, order) <==> exists j :: 0 <= j < |order| && Reaches(b, order[j], c)
  {
    var u := Visit(b, order);
    VisitFacts(b, order);
    if c in u {
      VisitReaches(b, order, c);
    }
    if j :| 0 <= j < |order| && Reaches(b, order[j], c) {
      var k: nat :| Chain(b, order[j], k) == Some(c);
      assert order[j] in order;
      ChainStaysIn(b, u, order[j], k);
    }
  }

  /** The outer call on `m` closes the ring at `z` exactly when it enters the undecided ring just past `z`. */
  lemma CallCloses(b: Battle, m: Id, u: map<Id, bool>, z: Id, c: Id)
    requires Valid(b) && Moves(b, m) && Closed(b, u) && OnRing(b, z) && Dep(b, z) == Some(c)
    ensures Closer(b, m, u, {}) == Some(z) <==> EntersAt(b, m, c) && c !in u
  {
    CloserEntry(b, m, u, {}, None);
    CloserFacts(b, m, u, {});
    var last := Closer(b, m, u, {});
    if EntersAt(b, m, c) && c !in u {
      assert Reaches(b, m, c) by {
        var k: nat :| Chain(b, m, k) == Some(c) && OffRingBefore(b, m, k);
      }
      CloserExists(b, m, u, {}, c);
      EntersAtOnePoint(b, m, c, Dep(b, last.value).value);
      RingIsInjective(b, z, last.value);
    }
  }

  /** The movers decided with a guess are the ring predecessors of the entries. */
  lemma {:induction false} ClosersPrecedeEntries(b: Battle, order: seq<Id>, z: Id)
    requires Valid(b) && (forall r :: r in order ==> Moves(b, r)) && OnRing(b, z)
    ensures Dep(b, z).Some?
    ensures z in Closers(b, order) <==> Entered(b, order, Dep(b, z).value)
    decreases |order|
  {
    RingGoesOn(b, z);
    if order != [] {
      var before, m := order[..|order| - 1], order[|order| - 1];
      assert order == before + [m];
      ClosersPrecedeEntries(b, before, z);
      VisitFacts(b, before);
      DecidedWhenReached(b, before, Dep(b, z).value);
      CallCloses(b, m, Visit(b, before), z, Dep(b, z).value);
      EnteredStep(b, before, m, Dep(b, z).value);
    }
  }

  lemma EnteredStep(b: Battle, before: seq<Id>, m: Id, c: Id)
    requires (forall r :: r in before ==> Moves(b, r)) && Moves(b, m)
    ensures forall r :: r in before + [m] ==> Moves(b, r)
    ensures Entered(b, before + [m], c) <==>
            Entered(b, before, c) || (EntersAt(b, m, c) && forall j :: 0 <= j < |before| ==> !Reaches(b, before[j], c))
  {
    var order := before + [m];
    if Entered(b, before, c) {
      var i :| 0 <= i < |before| && EntersAt(b, before[i], c) && forall j :: 0 <= j < i ==> !Reaches(b, before[j], c);
      assert EntersAt(b, order[i], c) && forall j :: 0 <= j < i ==> !Reaches(b, order[j], c);
    }
    if EntersAt(b, m, c) && forall j :: 0 <= j < |before| ==> !Reaches(b, before[j], c) {
      assert EntersAt(b, order[|before|], c);
    }
    if Entered(b, order, c) {
      var i :| 0 <= i < |order| && EntersAt(b, order[i], c) && forall j :: 0 <= j < i ==> !Reaches(b, order[j], c);
      if i < |before| {
        assert EntersAt(b, before[i], c);
        assert forall j :: 0 <= j < i ==> before[j] == order[j];
      } else {
        assert forall j :: 0 <= j < |before| ==> before[j] == order[j];
      }
    }
  }

  /** On the ring that `z` closes, a granted move prevails, and what it needs is granted too. */
  lemma GrantedOnRing(b: Battle, order: seq<Id>, z: Id, m: Id)
    requires Valid(b) && Covers(b, order) && z in Closers(b, order) && Moves(b, z) && Prevails(b, z)
    requires Dep(b, z).Some? && Dep(b, z).value in Visit(b, order) && Visit(b, order)[Dep(b, z).value]
    requires Moves(b, m) && Reaches(b, z, m) && m in Visit(b, order) && Visit(b, order)[m]
    ensures Prevails(b, m)
    ensures Dep(b, m).Some? && !Shoves(b, m) ==> Dep(b, m).value in Visit(b, order) && Visit(b, order)[Dep(b, m).value]
  {
    if m in Closers(b, order) {
      OneCloserPerRing(b, order, z, m);
    } else {
      VisitFacts(b, order);
      assert SolvesAt(b, Visit(b, order), m);
    }
  }

  lemma {:induction false} GrantedAlongRing(b: Battle, order: seq<Id>, z: Id, m: Id, k: nat)
    requires Valid(b) && Covers(b, order) && z in Closers(b, order) && Moves(b, z) && Prevails(b, z)
    requires Dep(b, z).Some? && Dep(b, z).value in Visit(b, order) && Visit(b, order)[Dep(b, z).value]
    requires Moves(b, m) && Reaches(b, z, m) && m in Visit(b, order) && Visit(b, order)[m]
    ensures Needs(b, m, k).Some? ==> Prevails(b, Needs(b, m, k).value)
    decreases k
  {
    GrantedOnRing(b, order, z, m);
    if k > 0 && Needs(b, m, k).Some? {
      ReachesOneFurther(b, z, m);
      GrantedAlongRing(b, order, z, Dep(b, m).value, k - 1);
    }
  }

  lemma ReachesOneFurther(b: Battle, x: Id, m: Id)
    requires Moves(b, x) && Reaches(b, x, m) && Moves(b, m) && Dep(b, m).Some?
    ensures Reaches(b, x, Dep(b, m).value)
  {
    var k: nat :| Chain(b, x, k) == Some(m);
    ChainSplits(b, x, k, 1);
    ChainOne(b, m);
  }

  /** A move that closes its ring finds the move it depends on granted exactly when that one should be. */
  lemma CloserSeesTheVerdict(b: Battle, order: seq<Id>, z: Id)
    requires Valid(b) && Covers(b, order) && z in Closers(b, order) && Moves(b, z) && Prevails(b, z)
    ensures Dep(b, z).Some? && Dep(b, z).value in Visit(b, order)
    ensures Visit(b, order)[Dep(b, z).value] <==> Succeeds(b, Dep(b, z).value)
  {
    VisitFacts(b, order);
    RingGoesOn(b, z);
    var d := Dep(b, z).value;
    if Visit(b, order)[d] {
      forall k: nat | Needs(b, d, k).Some? ensures Prevails(b, Needs(b, d, k).value) {
        GrantedAlongRing(b, order, z, d, k);
      }
    }
  }

  /** Move by move, from the orders and the visiting order alone: the success equation fails exactly at
      a fragile move whose ring is entered just past it. */
  lemma EquationFailsExactly(b: Battle, order: seq<Id>, z: Id)
    requires Valid(b) && Covers(b, order) && z in Movers(b)
    ensures SolvesAt(b, Visit(b, order), z) <==> !(Fragile(b, z) && Entered(b, order, Dep(b, z).value))
  {
    VisitFacts(b, order);
    EquationFailsOnlyAtClosers(b, order);
    if OnRing(b, z) { ClosersPrecedeEntries(b, order, z); }
    if z in Closers(b, order) && Prevails(b, z) { CloserSeesTheVerdict(b, order, z); }
  }

  /** The search gives every move its verdict exactly when no ring is entered just past a fragile move. */
  lemma SearchIsRightExactly(b: Battle, order: seq<Id>)
    requires Valid(b) && Covers(b, order)
    ensures Visit(b, order) == Verdicts(b) <==>
            forall z :: z in Movers(b) && Fragile(b, z) ==> !Entered(b, order, Dep(b, z).value)
  {
    SearchIsRightWhereItSolves(b, order);
    forall z | z in Movers(b)
      ensures SolvesAt(b, Visit(b, order), z) <==> !(Fragile(b, z) && Entered(b, order, Dep(b, z).value))
    {
      EquationFailsExactly(b, order, z);
    }
  }

  /** The outcome is the same for every visiting order, and right, exactly when no move is fragile. */
  lemma RightInEveryOrderExactly(b: Battle)
    requires Valid(b)
    ensures (forall order :: Covers(b, order) ==> Visit(b, order) == Verdicts(b)) <==>
            forall z :: z in Movers(b) ==> !Fragile(b, z)
  {
    if z :| z in Movers(b) && Fragile(b, z) {
      var order := MisleadingOrder(b, z);
      assert Visit(b, order) != Verdicts(b);
    } else {
      forall order | Covers(b, order) ensures Visit(b, order) == Verdicts(b) {
        SearchIsRightExactly(b, order);
      }
    }
  }

  /** A fragile move is judged wrongly by a search that starts just past it. */
  lemma MisleadingOrder(b: Battle, z: Id) returns (order: seq<Id>)
    requires Valid(b) && z in Movers(b) && Fragile(b, z)
    ensures Covers(b, order) && Visit(b, order) != Verdicts(b)
  {
    RingGoesOn(b, z);
    var c := Dep(b, z).value;
    order := [c] + Ascending(Movers(b));
    assert c in Movers(b);
    EntersHere(b, c);
    assert order[0] == c;
    assert Entered(b, order, c);
    SearchIsRightExactly(b, order);
  }
}
