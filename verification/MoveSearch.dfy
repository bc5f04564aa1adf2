/** The memoised search that decides every move, and what it has to do with the success equation. */
module MoveSearch {
  import opened Ordering
  import opened Movement

  datatype Found = Found(success: bool, resolved: map<Id, bool>)

  /** One call of the inner resolver: the answer and the memo table it leaves. */
  function Search(b: Battle, r: Id, resolved: map<Id, bool>, inProgress: set<Id>): (f: Found)
    requires Valid(b) && Moves(b, r) && inProgress <= Movers(b)
    ensures resolved.Keys <= f.resolved.Keys <= resolved.Keys + (Movers(b) - inProgress)
    ensures forall x :: x in resolved ==> f.resolved[x] == resolved[x]
    decreases Movers(b) - inProgress
  {
    if r in resolved then Found(resolved[r], resolved)
    else if r in inProgress then Found(true, resolved)
    else
      assert r in Movers(b) - inProgress;
      match Dep(b, r)
      case None => Found(Prevails(b, r), resolved[r := Prevails(b, r)])
      case Some(d) =>
        var f := Search(b, d, resolved, inProgress + {r});
        Found(Decide(b, r, f.success), f.resolved[r := Decide(b, r, f.success)])
  }

  /** The outer loop: the moves are resolved in the order given. */
  function Visit(b: Battle, order: seq<Id>): map<Id, bool>
    requires Valid(b) && forall r :: r in order ==> Moves(b, r)
  {
    if order == [] then map[] else
      Search(b, order[|order| - 1], Visit(b, order[..|order| - 1]), {}).resolved
  }

  /** The mover, if any, whose dependency the call guesses because it is already in progress. */
  ghost function Closer(b: Battle, r: Id, resolved: map<Id, bool>, inProgress: set<Id>): Option<Id>
    requires Valid(b) && Moves(b, r) && inProgress <= Movers(b)
    decreases Movers(b) - inProgress
  {
    if r in resolved || r in inProgress then None else
      match Dep(b, r)
      case None => None
      case Some(d) =>
        assert r in Movers(b) - inProgress;
        if d !in resolved && d in inProgress + {r} then Some(r) else Closer(b, d, resolved, inProgress + {r})
  }

  /** All the movers the outer loop decides with a guess. */
  ghost function Closers(b: Battle, order: seq<Id>): set<Id>
    requires Valid(b) && forall r :: r in order ==> Moves(b, r)
  {
    if order == [] then {} else
      var before := order[..|order| - 1];
      var c := Closer(b, order[|order| - 1], Visit(b, before), {});
      Closers(b, before) + if c.Some? then {c.value} else {}
  }

  ghost predicate Closed(b: Battle, resolved: map<Id, bool>) {
    && resolved.Keys <= Movers(b)
    && forall x :: x in resolved ==> Dep(b, x).Some? ==> Dep(b, x).value in resolved
  }

  /** The search never denies a move that should succeed. */
  ghost predicate NeverUnder(b: Battle, resolved: map<Id, bool>)
    requires Valid(b)
  {
    forall x :: x in resolved && Moves(b, x) && Succeeds(b, x) ==> resolved[x]
  }

  lemma {:induction false} SearchNeverUnder(b: Battle, r: Id, resolved: map<Id, bool>, inProgress: set<Id>)
    requires Valid(b) && Moves(b, r) && inProgress <= Movers(b)
    requires NeverUnder(b, resolved)
    ensures var f := Search(b, r, resolved, inProgress);
            && (Succeeds(b, r) ==> f.success)
            && NeverUnder(b, f.resolved)
    decreases Movers(b) - inProgress
  {
    SucceedsUnfolds(b, r);
    assert r in Movers(b);
    if r !in resolved && r !in inProgress && Dep(b, r).Some? {
      assert r in Movers(b) - inProgress && r !in Movers(b) - (inProgress + {r});
      SearchNeverUnder(b, Dep(b, r).value, resolved, inProgress + {r});
    }
  }

  /** The equation holds at every move the call decides, except at its closer. */
  lemma {:induction false} SearchSolves(b: Battle, r: Id, resolved: map<Id, bool>, inProgress: set<Id>)
    requires Valid(b) && Moves(b, r) && inProgress <= Movers(b) && r !in inProgress
    requires inProgress !! resolved.Keys
    ensures var f, c := Search(b, r, resolved, inProgress), Closer(b, r, resolved, inProgress);
            && r in f.resolved && f.success == f.resolved[r]
            && forall x :: x in f.resolved && x !in resolved && c != Some(x) ==> Moves(b, x) && SolvesAt(b, f.resolved, x)
    decreases Movers(b) - inProgress
  {
    assert r in Movers(b);
    if r !in resolved && Dep(b, r).Some? {
      var d := Dep(b, r).value;
      if d !in resolved && d !in inProgress + {r} {
        assert r in Movers(b) - inProgress && r !in Movers(b) - (inProgress + {r});
        SearchSolves(b, d, resolved, inProgress + {r});
        var f, g := Search(b, d, resolved, inProgress + {r}), Search(b, r, resolved, inProgress);
        assert r !in f.resolved;
        forall x | x in g.resolved && x !in resolved && Closer(b, r, resolved, inProgress) != Some(x)
          ensures Moves(b, x) && SolvesAt(b, g.resolved, x)
        {
          if x != r { assert SolvesAt(b, f.resolved, x); }
        }
      } else if d in resolved {
        assert Search(b, d, resolved, inProgress + {r}) == Found(resolved[d], resolved);
      }
    }
  }

  /** The closer is on a ring, its dependency is in progress, and it got the benefit of the doubt. */
  lemma {:induction false} CloserFacts(b: Battle, r: Id, resolved: map<Id, bool>, inProgress: set<Id>)
    requires Valid(b) && Moves(b, r) && inProgress <= Movers(b) && r !in inProgress
    requires inProgress !! resolved.Keys && LeadsTo(b, inProgress, r)
    ensures var f, c := Search(b, r, resolved, inProgress), Closer(b, r, resolved, inProgress);
            c.Some? ==>
              && c.value in f.resolved && c.value !in resolved && c.value !in inProgress && OnRing(b, c.value)
              && Dep(b, c.value).Some? && Dep(b, c.value).value in inProgress + f.resolved.Keys
              && Dep(b, c.value).value !in resolved
              && f.resolved[c.value] == Prevails(b, c.value)
    decreases Movers(b) - inProgress
  {
    assert r in Movers(b);
    if r !in resolved && Dep(b, r).Some? {
      var d := Dep(b, r).value;
      LeadsOn(b, inProgress, r);
      if d !in resolved && d !in inProgress + {r} {
        assert r in Movers(b) - inProgress && r !in Movers(b) - (inProgress + {r});
        CloserFacts(b, d, resolved, inProgress + {r});
        assert r !in Search(b, d, resolved, inProgress + {r}).resolved;
      } else if d !in resolved {
        assert Search(b, d, resolved, inProgress + {r}) == Found(true, resolved);
      }
    }
  }

  lemma {:induction false} ChainStaysIn(b: Battle, resolved: map<Id, bool>, x: Id, k: nat)
    requires Closed(b, resolved) && x in resolved && Chain(b, x, k).Some?
    ensures Chain(b, x, k).value in resolved
    decreases k
  {
    if k > 0 {
      ChainStaysIn(b, resolved, Dep(b, x).value, k - 1);
    }
  }

  lemma {:induction false} ChainMultiple(b: Battle, x: Id, k: nat, n: nat)
    requires Moves(b, x) && Chain(b, x, k) == Some(x)
    ensures Chain(b, x, n * k) == Some(x)
    decreases n
  {
    if n > 0 {
      ChainMultiple(b, x, k, n - 1);
      assert n * k == k + (n - 1) * k;
      ChainSplits(b, x, k, (n - 1) * k);
    }
  }

  /** `y` is reached from `x` by following dependencies. */
  ghost predicate Reaches(b: Battle, x: Id, y: Id)
    requires Moves(b, x)
  {
    exists k: nat :: Chain(b, x, k) == Some(y)
  }

  lemma RingReachesBack(b: Battle, x: Id, y: Id)
    requires OnRing(b, x) && Reaches(b, x, y)
    ensures Moves(b, y) && Reaches(b, y, x) && OnRing(b, y)
  {
    var k: nat :| Chain(b, x, k) == Some(y);
    var n: nat :| n > 0 && Chain(b, x, n) == Some(x);
    ChainMultiple(b, x, n, k + 1);
    assert (k + 1) * n >= k + 1 by {
      assert (k + 1) * n == (k + 1) * (n - 1) + (k + 1);
      assert (k + 1) * (n - 1) >= 0;
    }
    var m: nat := (k + 1) * n - k;
    ChainSplits(b, x, k, m);
    assert Chain(b, y, m) == Some(x);
    ChainSplits(b, y, m, k);
    assert Chain(b, y, m + k) == Some(y);
  }

  ghost predicate Covers(b: Battle, order: seq<Id>) {
    forall r :: r in order <==> r in Movers(b)
  }

  /** What one call of the outer loop adds to a table that is closed under dependency. */
  lemma VisitStep(b: Battle, r: Id, u: map<Id, bool>)
    requires Valid(b) && Moves(b, r) && Closed(b, u)
    ensures var v, c := Search(b, r, u, {}).resolved, Closer(b, r, u, {});
            && Closed(b, v) && r in v
            && (forall x :: x in v && x !in u && c != Some(x) ==> SolvesAt(b, v, x))
            && (c.Some? ==> c.value in v && c.value !in u && OnRing(b, c.value) &&
                            v[c.value] == Prevails(b, c.value))
  {
    SearchSolves(b, r, u, {});
    CloserFacts(b, r, u, {});
    var v, c := Search(b, r, u, {}).resolved, Closer(b, r, u, {});
    forall x | x in v && Dep(b, x).Some? ensures Dep(b, x).value in v {
      if x !in u && c != Some(x) { assert SolvesAt(b, v, x); }
    }
  }

  /** What the table holds after any part of the outer loop, rings or no rings. */
  lemma {:induction false} VisitFacts(b: Battle, order: seq<Id>)
    requires Valid(b) && forall r :: r in order ==> Moves(b, r)
    ensures var v, cs := Visit(b, order), Closers(b, order);
            && Closed(b, v) && NeverUnder(b, v) && (forall r :: r in order ==> r in v) && cs <= v.Keys
            && (forall x :: x in v && x !in cs ==> SolvesAt(b, v, x))
            && (forall z :: z in cs ==> OnRing(b, z) && v[z] == Prevails(b, z))
    decreases |order|
  {
    if order != [] {
      var before, r := order[..|order| - 1], order[|order| - 1];
      assert order == before + [r];
      VisitFacts(b, before);
      VisitStep(b, r, Visit(b, before));
      SearchNeverUnder(b, r, Visit(b, before), {});
      CarryOver(b, Visit(b, before), Visit(b, order));
    } else {
      assert Visit(b, order) == map[];
    }
  }

  /** Where the equation held it keeps holding as the table grows. */
  lemma CarryOver(b: Battle, u: map<Id, bool>, v: map<Id, bool>)
    requires Valid(b) && Closed(b, u) && u.Keys <= v.Keys && forall x :: x in u ==> u[x] == v[x]
    ensures forall x :: x in u && SolvesAt(b, u, x) ==> SolvesAt(b, v, x)
  {
  }

  lemma {:induction false} ClosersApart(b: Battle, order: seq<Id>)
    requires Valid(b) && forall r :: r in order ==> Moves(b, r)
    ensures forall y, z :: y in Closers(b, order) && z in Closers(b, order) && y != z ==>
              Moves(b, y) && !Reaches(b, y, z)
    decreases |order|
  {
    VisitFacts(b, order);
    if order != [] {
      var before, r := order[..|order| - 1], order[|order| - 1];
      ClosersApart(b, before);
      VisitFacts(b, before);
      var u := Visit(b, before);
      VisitStep(b, r, u);
      forall y, z | y in Closers(b, order) && z in Closers(b, order) && y != z ensures !Reaches(b, y, z) {
        if Reaches(b, y, z) {
          RingReachesBack(b, y, z);
          if y in u {
            var k: nat :| Chain(b, y, k) == Some(z);
            ChainStaysIn(b, u, y, k);
          } else {
            var k: nat :| Chain(b, z, k) == Some(y);
            ChainStaysIn(b, u, z, k);
          }
        }
      }
    }
  }

  /** Whatever the visiting order, every move is decided and the success equation holds at each of
      them, except at a mover that closed a ring, prevailed, and needed the ring's entry out of its
      way although the entry stayed. */
  lemma EquationFailsOnlyAtClosers(b: Battle, order: seq<Id>)
    requires Valid(b) && Covers(b, order)
    ensures Visit(b, order).Keys == Movers(b)
    ensures Closed(b, Visit(b, order)) && Closers(b, order) <= Movers(b)
    ensures forall r :: r in Movers(b) ==>
              (SolvesAt(b, Visit(b, order), r) <==>
               !(r in Closers(b, order) && Prevails(b, r) && !Shoves(b, r) &&
                 Dep(b, r).Some? && !Visit(b, order)[Dep(b, r).value]))
  {
    VisitFacts(b, order);
    var v := Visit(b, order);
    forall z | z in Closers(b, order) ensures Dep(b, z).Some? {
      var k: nat :| k > 0 && Chain(b, z, k) == Some(z);
      assert Dep(b, z).Some?;
    }
  }

  /** A ring has at most one closing move. */
  lemma OneCloserPerRing(b: Battle, order: seq<Id>, y: Id, z: Id)
    requires Valid(b) && Covers(b, order)
    requires y in Closers(b, order) && z in Closers(b, order)
    ensures OnRing(b, y) && (Reaches(b, y, z) ==> y == z)
  {
    VisitFacts(b, order);
    ClosersApart(b, order);
  }

  /** With rings too, the search grants every move the declarative verdict grants, and it is right
      on all moves exactly when the equation holds at all of them. */
  lemma SearchIsRightWhereItSolves(b: Battle, order: seq<Id>)
    requires Valid(b) && Covers(b, order)
    ensures forall r :: r in Movers(b) ==> r in Visit(b, order)
    ensures forall r :: r in Movers(b) && Succeeds(b, r) ==> Visit(b, order)[r]
    ensures Visit(b, order) == Verdicts(b) <==> Solves(b, Visit(b, order))
  {
    VisitFacts(b, order);
    VerdictsSolve(b);
    var v := Visit(b, order);
    if Solves(b, v) {
      forall r | r in Movers(b) ensures v[r] == Succeeds(b, r) {
        if v[r] { VerdictsAreGreatest(b, v, r); }
      }
      assert v.Keys == Movers(b);
    }
  }

  /** With no ring of moves the search computes the verdicts, whatever order it visits the moves in. */
  lemma SearchIsRightWithoutRings(b: Battle, order: seq<Id>)
    requires Valid(b) && Covers(b, order) && NoRings(b)
    ensures Visit(b, order) == Verdicts(b)
  {
    VisitFacts(b, order);
    SearchIsRightWhereItSolves(b, order);
    forall r | r in Movers(b) ensures SolvesAt(b, Visit(b, order), r) {}
  }

  lemma {:induction false} RingNeedsPrevail(b: Battle, r: Id, k: nat)
    requires Valid(b) && Moves(b, r)
    requires forall m :: Moves(b, m) && Reaches(b, r, m) ==> Prevails(b, m)
    ensures Needs(b, r, k).Some? ==> Prevails(b, Needs(b, r, k).value)
    decreases k
  {
    assert Chain(b, r, 0) == Some(r);
    if k > 0 && Needs(b, r, k).Some? {
      var d := Dep(b, r).value;
      forall m | Moves(b, m) && Reaches(b, d, m) ensures Prevails(b, m) {
        var j: nat :| Chain(b, d, j) == Some(m);
        assert Chain(b, r, j + 1) == Some(m);
      }
      RingNeedsPrevail(b, d, k - 1);
    }
  }

  /** A ring all of whose moves prevail rotates whole, wherever the search enters it. */
  lemma UnopposedRingRotates(b: Battle, order: seq<Id>, r: Id)
    requires Valid(b) && Covers(b, order) && OnRing(b, r)
    requires forall m :: Moves(b, m) && Reaches(b, r, m) ==> Prevails(b, m)
    ensures forall m :: Moves(b, m) && Reaches(b, r, m) ==> m in Visit(b, order) && Visit(b, order)[m]
  {
    VisitFacts(b, order);
    forall m | Moves(b, m) && Reaches(b, r, m) ensures m in Visit(b, order) && Visit(b, order)[m] {
      assert m in Movers(b);
      var j: nat :| Chain(b, r, j) == Some(m);
      forall q | Moves(b, q) && Reaches(b, m, q) ensures Prevails(b, q) {
        var k: nat :| Chain(b, m, k) == Some(q);
        ChainSplits(b, r, j, k);
      }
      forall k: nat | Needs(b, m, k).Some? ensures Prevails(b, Needs(b, m, k).value) {
        RingNeedsPrevail(b, m, k);
      }
    }
  }
}
