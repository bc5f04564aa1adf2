/** What the search decides, move by move and rings included, in closed form; and when all visiting
    orders agree. */
module RingOutcome {
  import opened Ordering
  import opened Movement
  import opened MoveSearch
  import opened RingEntry

  /** The move is waved through although it needs a move out of its way that must fail: it is fragile,
      and the outer loop enters its ring just past it. */
  ghost predicate WavedThrough(b: Battle, order: seq<Id>, r: Id)
    requires Valid(b) && forall x :: x in order ==> Moves(b, x)
  {
    Fragile(b, r) && Entered(b, order, Dep(b, r).value)
  }

  /** As `Needs`, but stopping also at a move that is waved through. */
  ghost function NeedsUpTo(b: Battle, order: seq<Id>, r: Id, k: nat): (m: Option<Id>)
    requires Valid(b) && (forall x :: x in order ==> Moves(b, x)) && Moves(b, r)
    ensures m.Some? ==> Moves(b, m.value)
    decreases k
  {
    if k == 0 then Some(r)
    else if Shoves(b, r) || Dep(b, r).None? || WavedThrough(b, order, r) then None
    else NeedsUpTo(b, order, Dep(b, r).value, k - 1)
  }

  /** The closed form of the engine's decision. */
  ghost predicate Granted(b: Battle, order: seq<Id>, r: Id)
    requires Valid(b) && (forall x :: x in order ==> Moves(b, x)) && Moves(b, r)
  {
    forall k: nat :: NeedsUpTo(b, order, r, k).Some? ==> Prevails(b, NeedsUpTo(b, order, r, k).value)
  }

  lemma GrantedUnfolds(b: Battle, order: seq<Id>, r: Id)
    requires Valid(b) && (forall x :: x in order ==> Moves(b, x)) && Moves(b, r) && Granted(b, order, r)
    ensures Prevails(b, r)
    ensures Dep(b, r).Some? && !Shoves(b, r) && !WavedThrough(b, order, r) ==> Granted(b, order, Dep(b, r).value)
  {
    assert NeedsUpTo(b, order, r, 0) == Some(r);
    if Dep(b, r).Some? && !Shoves(b, r) && !WavedThrough(b, order, r) {
      var d := Dep(b, r).value;
      forall k: nat | NeedsUpTo(b, order, d, k).Some? ensures Prevails(b, NeedsUpTo(b, order, d, k).value) {
        assert NeedsUpTo(b, order, r, k + 1) == NeedsUpTo(b, order, d, k);
      }
    }
  }

  // ---------------------------------------------------------------- the search grants no more

  lemma {:induction false} SuccessNeeds(b: Battle, order: seq<Id>, r: Id, k: nat)
    requires Valid(b) && Covers(b, order) && Moves(b, r) && r in Visit(b, order) && Visit(b, order)[r]
    ensures NeedsUpTo(b, order, r, k).Some? ==> Prevails(b, NeedsUpTo(b, order, r, k).value)
    decreases k
  {
    SuccessPrevails(b, order, r);
    if k > 0 && NeedsUpTo(b, order, r, k).Some? {
      SuccessNeeds(b, order, Dep(b, r).value, k - 1);
    }
  }

  lemma SuccessPrevails(b: Battle, order: seq<Id>, r: Id)
    requires Valid(b) && Covers(b, order) && Moves(b, r) && r in Visit(b, order) && Visit(b, order)[r]
    ensures Prevails(b, r)
    ensures Dep(b, r).Some? && !Shoves(b, r) && !WavedThrough(b, order, r) ==>
              Dep(b, r).value in Visit(b, order) && Visit(b, order)[Dep(b, r).value]
  {
    assert r in Movers(b);
    EquationFailsExactly(b, order, r);
    if !SolvesAt(b, Visit(b, order), r) {
      assert Prevails(b, r);
    }
  }

  // ---------------------------------------------------------------- and no less

  /** What is waved through is granted in the table. */
  ghost predicate WavesThrough(b: Battle, order: seq<Id>, v: map<Id, bool>)
    requires Valid(b) && forall x :: x in order ==> Moves(b, x)
  {
    forall x :: x in v && Moves(b, x) && WavedThrough(b, order, x) ==> v[x]
  }

  ghost predicate DeniesNone(b: Battle, order: seq<Id>, v: map<Id, bool>)
    requires Valid(b) && forall x :: x in order ==> Moves(b, x)
  {
    forall x :: x in v && Moves(b, x) && Granted(b, order, x) ==> v[x]
  }

  lemma {:induction false} SearchGrants(b: Battle, order: seq<Id>, r: Id, resolved: map<Id, bool>, inProgress: set<Id>)
    requires Valid(b) && (forall x :: x in order ==> Moves(b, x)) && Moves(b, r) && inProgress <= Movers(b)
    requires inProgress !! resolved.Keys && DeniesNone(b, order, resolved)
    requires WavesThrough(b, order, Search(b, r, resolved, inProgress).resolved)
    ensures var f := Search(b, r, resolved, inProgress);
            (Granted(b, order, r) ==> f.success) && DeniesNone(b, order, f.resolved)
    decreases Movers(b) - inProgress
  {
    assert r in Movers(b);
    if r !in resolved && r !in inProgress {
      var f := Search(b, r, resolved, inProgress);
      assert f.resolved[r] == f.success;
      if Granted(b, order, r) { GrantedUnfolds(b, order, r); }
      if Dep(b, r).Some? {
        var d := Dep(b, r).value;
        assert r in Movers(b) - inProgress && r !in Movers(b) - (inProgress + {r});
        var below := Search(b, d, resolved, inProgress + {r}).resolved;
        assert forall x :: x in below ==> x in f.resolved && f.resolved[x] == below[x] by {
          assert r !in below;
        }
        SearchGrants(b, order, d, resolved, inProgress + {r});
      }
    }
  }

  lemma {:induction false} VisitGrants(b: Battle, order: seq<Id>, part: seq<Id>)
    requires Valid(b) && (forall x :: x in order ==> Moves(b, x)) && (forall x :: x in part ==> Moves(b, x))
    requires WavesThrough(b, order, Visit(b, part))
    ensures DeniesNone(b, order, Visit(b, part))
    decreases |part|
  {
    if part != [] {
      var front, r := part[..|part| - 1], part[|part| - 1];
      var u := Visit(b, front);
      assert forall x :: x in u ==> x in Visit(b, part) && Visit(b, part)[x] == u[x];
      VisitGrants(b, order, front);
      SearchGrants(b, order, r, u, {});
    }
  }

  lemma ClosersAreWavedThrough(b: Battle, order: seq<Id>)
    requires Valid(b) && Covers(b, order)
    ensures WavesThrough(b, order, Visit(b, order))
  {
    var v := Visit(b, order);
    VisitFacts(b, order);
    forall x | x in v && Moves(b, x) && WavedThrough(b, order, x) ensures v[x] {
      ClosersPrecedeEntries(b, order, x);
    }
  }

  /** Rings or no rings, in any visiting order: the search lets a move succeed exactly when it and every
      move it needs out of its way, up to the first that is waved through, prevail. */
  lemma SearchDecidesExactly(b: Battle, order: seq<Id>, r: Id)
    requires Valid(b) && Covers(b, order) && Moves(b, r)
    ensures r in Visit(b, order)
    ensures Visit(b, order)[r] <==> Granted(b, order, r)
  {
    assert r in Movers(b);
    VisitFacts(b, order);
    ClosersAreWavedThrough(b, order);
    VisitGrants(b, order, order);
    if Visit(b, order)[r] {
      forall k: nat | NeedsUpTo(b, order, r, k).Some? ensures Prevails(b, NeedsUpTo(b, order, r, k).value) {
        SuccessNeeds(b, order, r, k);
      }
    }
  }

  // ---------------------------------------------------------------- when all orders agree

  /** `c` is entered from a ring move that is not fragile. */
  ghost predicate SafeEntry(b: Battle, c: Id)
    requires Valid(b)
  {
    OnRing(b, c) && exists m :: m in Movers(b) && OnRing(b, m) && Dep(b, m) == Some(c) && !Fragile(b, m)
  }

  ghost function SafeEntries(b: Battle): set<Id>
    requires Valid(b)
  {
    set c | c in Movers(b) && SafeEntry(b, c)
  }

  /** Ring members with a safe entry first, then everyone. */
  ghost function SafeOrder(b: Battle): (order: seq<Id>)
    requires Valid(b)
    ensures Covers(b, order)
  {
    Ascending(SafeEntries(b)) + Ascending(Movers(b))
  }

  /** A ring with a fragile move has one that is not fragile. */
  lemma SomeMoveIsNotFragile(b: Battle, z: Id) returns (m: Id)
    requires Valid(b) && z in Movers(b) && Fragile(b, z)
    ensures Moves(b, m) && OnRing(b, m) && Reaches(b, z, m) && !Fragile(b, m)
  {
    RingGoesOn(b, z);
    var d := Dep(b, z).value;
    if forall x :: Moves(b, x) && Reaches(b, d, x) ==> Prevails(b, x) {
      forall k: nat | Needs(b, d, k).Some? ensures Prevails(b, Needs(b, d, k).value) {
        RingNeedsPrevail(b, d, k);
      }
      assert false;
    }
    m :| Moves(b, m) && Reaches(b, d, m) && !Prevails(b, m);
    var k: nat :| Chain(b, d, k) == Some(m);
    assert Chain(b, z, k + 1) == Some(m);
    RingReachesBack(b, z, m);
  }

  lemma EntryOfRingMember(b: Battle, m: Id, c: Id)
    requires OnRing(b, m) && EntersAt(b, m, c)
    ensures c == m
  {
    var k: nat :| Chain(b, m, k) == Some(c) && OffRingBefore(b, m, k);
    assert Chain(b, m, 0) == Some(m);
  }

  /** The ring of a fragile move has a safe entry. */
  lemma SafeEntryExists(b: Battle, z: Id) returns (g: Id)
    requires Valid(b) && z in Movers(b) && Fragile(b, z)
    ensures g in SafeEntries(b) && OnRing(b, g) && Reaches(b, g, Dep(b, z).value)
  {
    var m := SomeMoveIsNotFragile(b, z);
    RingGoesOn(b, m);
    g := Dep(b, m).value;
    SafeEntryReaches(b, z, m);
    assert m in Movers(b) && g in Movers(b) && SafeEntry(b, g);
  }

  lemma FragileEntryIsNotSafe(b: Battle, z: Id)
    requires Valid(b) && z in Movers(b) && Fragile(b, z)
    ensures Dep(b, z).value !in SafeEntries(b)
  {
    if Dep(b, z).value in SafeEntries(b) {
      var y :| y in Movers(b) && OnRing(b, y) && Dep(b, y) == Dep(b, z) && !Fragile(b, y);
      RingIsInjective(b, y, z);
    }
  }

  /** Ring members visited first forestall any other entry into the rings they are on. */
  lemma EnteredElsewhere(b: Battle, first: seq<Id>, rest: seq<Id>, g: Id, c: Id)
    requires (forall x :: x in first ==> OnRing(b, x)) && (forall x :: x in rest ==> Moves(b, x))
    requires g in first && OnRing(b, g) && Reaches(b, g, c) && c !in first
    ensures forall x :: x in first + rest ==> Moves(b, x)
    ensures !Entered(b, first + rest, c)
  {
    var order := first + rest;
    forall i | 0 <= i < |order| ensures Moves(b, order[i]) {
      assert order[i] in first || order[i] in rest;
    }
    var j :| 0 <= j < |first| && first[j] == g;
    assert order[j] == g;
    if i :| 0 <= i < |order| && EntersAt(b, order[i], c) && forall j :: 0 <= j < i ==> !Reaches(b, order[j], c) {
      assert i <= j && order[i] == first[i] && first[i] in first;
      EntryOfRingMember(b, order[i], c);
    }
  }

  lemma SafeOrderAvoids(b: Battle, z: Id)
    requires Valid(b) && z in Movers(b) && Fragile(b, z)
    ensures !Entered(b, SafeOrder(b), Dep(b, z).value)
  {
    var g := SafeEntryExists(b, z);
    FragileEntryIsNotSafe(b, z);
    EnteredElsewhere(b, Ascending(SafeEntries(b)), Ascending(Movers(b)), g, Dep(b, z).value);
  }

  /** From any member of a ring one comes to the region just past any other. */
  lemma SafeEntryReaches(b: Battle, z: Id, m: Id)
    requires OnRing(b, z) && Reaches(b, z, m) && OnRing(b, m)
    ensures Dep(b, z).Some? && Dep(b, m).Some? && Moves(b, Dep(b, m).value)
    ensures Reaches(b, Dep(b, m).value, Dep(b, z).value)
  {
    RingGoesOn(b, z);
    RingGoesOn(b, m);
    RingReachesBack(b, z, m);
    var g, c := Dep(b, m).value, Dep(b, z).value;
    var i: nat :| Chain(b, g, i) == Some(m);
    var j: nat :| Chain(b, m, j) == Some(z);
    ChainSplits(b, g, i, j);
    ChainOne(b, z);
    ChainSplits(b, g, i + j, 1);
  }

  /** There is always an order in which the search is right. */
  lemma SafeOrderIsRight(b: Battle)
    requires Valid(b)
    ensures Visit(b, SafeOrder(b)) == Verdicts(b)
  {
    SearchIsRightExactly(b, SafeOrder(b));
    forall z | z in Movers(b) && Fragile(b, z) ensures !Entered(b, SafeOrder(b), Dep(b, z).value) {
      SafeOrderAvoids(b, z);
    }
  }

  /** All visiting orders give one outcome exactly when no move is fragile. */
  lemma OrdersAgreeExactly(b: Battle)
    requires Valid(b)
    ensures (forall x, y :: Covers(b, x) && Covers(b, y) ==> Visit(b, x) == Visit(b, y)) <==>
            forall z :: z in Movers(b) ==> !Fragile(b, z)
  {
    SafeOrderIsRight(b);
    RightInEveryOrderExactly(b);
    if z :| z in Movers(b) && Fragile(b, z) {
      var order := MisleadingOrder(b, z);
      assert Covers(b, order) && Covers(b, SafeOrder(b));
    }
  }
}
