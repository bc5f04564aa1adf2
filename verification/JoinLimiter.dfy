/** The join limiter over whole sequences of attempts: its pruned log decides as the full history would. */
module JoinLimiter {
  import opened Ordering
  import opened Match

  datatype Try = Try(player: Id, now: real)

  /** The limiter's memory after the given attempts, none of which was followed by a restart. */
  function Log(tries: seq<Try>): map<Id, seq<real>> {
    if tries == [] then map[] else
      var last := tries[|tries| - 1];
      Attempted(Log(tries[..|tries| - 1]), last.player, last.now)
  }

  /** The times at which an attempt of the player's was let through. */
  function Processed(tries: seq<Try>, player: Id): seq<real> {
    if tries == [] then [] else
      var front, last := tries[..|tries| - 1], tries[|tries| - 1];
      if last.player == player && Admitted(Log(front), player, last.now)
      then Processed(front, player) + [last.now] else Processed(front, player)
  }

  /** The clock never runs backwards. */
  ghost predicate InOrder(tries: seq<Try>) {
    forall i, j :: 0 <= i < j < |tries| ==> tries[i].now <= tries[j].now
  }

  // ---------------------------------------------------------------- pruning

  ghost predicate Ascends(times: seq<real>) {
    forall i, j :: 0 <= i < j < |times| ==> times[i] <= times[j]
  }

  /** The first `k` times have left the window. */
  ghost predicate Old(times: seq<real>, k: nat, now: real) {
    k <= |times| && forall i :: 0 <= i < k ==> now - times[i] >= JOIN_WINDOW
  }

  ghost predicate AllRecent(times: seq<real>, now: real) {
    forall i :: 0 <= i < |times| ==> now - times[i] < JOIN_WINDOW
  }

  lemma {:induction false} RecentKeepsAll(times: seq<real>, now: real)
    requires AllRecent(times, now)
    ensures Recent(times, now) == times
  {
    if times != [] {
      RecentKeepsAll(times[1..], now);
      assert times == [times[0]] + times[1..];
    }
  }

  lemma {:induction false} OldOnesDoNotMatter(times: seq<real>, k: nat, now: real)
    requires Old(times, k, now)
    ensures Recent(times, now) == Recent(times[k..], now)
    decreases k
  {
    if k > 0 {
      OldOnesDoNotMatter(times[1..], k - 1, now);
      assert times[1..][k - 1..] == times[k..];
    } else {
      assert times[0..] == times;
    }
  }

  /** On an ascending log, pruning drops exactly a prefix. */
  lemma {:induction false} RecentIsSuffix(times: seq<real>, now: real) returns (k: nat)
    requires Ascends(times)
    ensures Old(times, k, now) && Recent(times, now) == times[k..] && AllRecent(times[k..], now)
  {
    if times == [] || now - times[0] < JOIN_WINDOW {
      k := 0;
      assert times[0..] == times;
      RecentKeepsAll(times, now);
    } else {
      k := RecentIsSuffix(times[1..], now);
      assert times[1..][k..] == times[k + 1..];
      k := k + 1;
    }
  }

  // ---------------------------------------------------------------- spacing

  /** Five places apart is a window apart. */
  ghost predicate Spaced(times: seq<real>) {
    forall i, j :: 0 <= i && i + JOIN_LIMIT <= j < |times| ==> times[j] - times[i] >= JOIN_WINDOW
  }

  ghost predicate NotAfter(times: seq<real>, now: real) {
    forall i :: 0 <= i < |times| ==> times[i] <= now
  }

  lemma LettingThroughKeepsSpacing(times: seq<real>, k: nat, now: real)
    requires Ascends(times) && Spaced(times) && NotAfter(times, now)
    requires Old(times, k, now) && |times| - k < JOIN_LIMIT
    ensures Ascends(times + [now]) && Spaced(times + [now]) && NotAfter(times + [now], now)
  {
  }

  // ---------------------------------------------------------------- the limiter

  /** The log is a suffix of what was let through, and what it lost is out of the window for good. */
  ghost predicate Remembers(times: seq<real>, log: seq<real>, k: nat, now: real) {
    Old(times, k, now) && log == times[k..]
  }

  ghost predicate Orderly(times: seq<real>, now: real) {
    Ascends(times) && Spaced(times) && NotAfter(times, now)
  }

  /** The pruned log and the full history have the same recent attempts. */
  lemma PrunedLogIsExact(times: seq<real>, log: seq<real>, k: nat, now: real) returns (m: nat)
    requires Remembers(times, log, k, now) && Ascends(times)
    ensures Old(times, m, now) && Recent(log, now) == Recent(times, now) == times[m..] && AllRecent(times[m..], now)
  {
    OldOnesDoNotMatter(times, k, now);
    m := RecentIsSuffix(times, now);
  }

  lemma Later(times: seq<real>, log: seq<real>, k: nat, before: real, now: real)
    requires Remembers(times, log, k, before) && Orderly(times, before) && before <= now
    ensures Remembers(times, log, k, now) && Orderly(times, now)
  {
  }

  ghost function Clock(tries: seq<Try>): real {
    if tries == [] then 0.0 else tries[|tries| - 1].now
  }

  lemma DropOfAppend(times: seq<real>, k: nat, now: real)
    requires k <= |times|
    ensures (times + [now])[k..] == times[k..] + [now]
  {
  }

  lemma OneMoreTry(front: seq<Try>, last: Try, player: Id)
    requires last.player == player
    ensures var log := AttemptsOf(Log(front), player);
            var recent := Recent(log, last.now);
            && AttemptsOf(Log(front + [last]), player) == (if |recent| < JOIN_LIMIT then recent + [last.now] else recent)
            && Processed(front + [last], player) ==
               if |recent| < JOIN_LIMIT then Processed(front, player) + [last.now] else Processed(front, player)
  {
    assert (front + [last])[..|front|] == front;
  }

  lemma SomeoneElsesTry(front: seq<Try>, last: Try, player: Id)
    requires last.player != player
    ensures AttemptsOf(Log(front + [last]), player) == AttemptsOf(Log(front), player)
    ensures Processed(front + [last], player) == Processed(front, player)
  {
    assert (front + [last])[..|front|] == front;
  }

  lemma LimiterStep(front: seq<Try>, last: Try, player: Id, k: nat) returns (m: nat)
    requires Remembers(Processed(front, player), AttemptsOf(Log(front), player), k, last.now)
    requires Orderly(Processed(front, player), last.now)
    ensures Remembers(Processed(front + [last], player), AttemptsOf(Log(front + [last]), player), m, last.now)
    ensures Orderly(Processed(front + [last], player), last.now)
  {
    m := k;
    if last.player == player {
      var times := Processed(front, player);
      m := PrunedLogIsExact(times, AttemptsOf(Log(front), player), k, last.now);
      OneMoreTry(front, last, player);
      if |times[m..]| < JOIN_LIMIT {
        LettingThroughKeepsSpacing(times, m, last.now);
        DropOfAppend(times, m, last.now);
      }
    } else {
      SomeoneElsesTry(front, last, player);
    }
  }

  lemma {:induction false} LimiterInvariant(tries: seq<Try>, player: Id) returns (k: nat)
    requires InOrder(tries)
    ensures Remembers(Processed(tries, player), AttemptsOf(Log(tries), player), k, Clock(tries))
    ensures Orderly(Processed(tries, player), Clock(tries))
    decreases |tries|
  {
    if tries == [] {
      k := 0;
    } else {
      var front, last := tries[..|tries| - 1], tries[|tries| - 1];
      k := LimiterInvariant(front, player);
      if front == [] {
        assert Processed(front, player) == [];
      } else {
        Later(Processed(front, player), AttemptsOf(Log(front), player), k, Clock(front), last.now);
      }
      assert tries == front + [last];
      k := LimiterStep(front, last, player, k);
    }
  }

  /** The places of the times less than sixty seconds old. */
  function LastMinute(times: seq<real>, now: real): set<int> {
    set i | 0 <= i < |times| && now - times[i] < 60.0
  }

  function Places(k: int, n: int): (s: set<int>)
    requires k <= n
    ensures |s| == n - k && forall i :: i in s <==> k <= i < n
    decreases n - k
  {
    if k == n then {} else Places(k, n - 1) + {n - 1}
  }

  lemma LastMinuteIsSuffix(times: seq<real>, k: nat, now: real)
    requires Old(times, k, now) && AllRecent(times[k..], now)
    ensures |LastMinute(times, now)| == |times[k..]|
  {
    forall i | k <= i < |times| ensures now - times[i] < 60.0 {
      assert times[k..][i - k] == times[i];
    }
    assert LastMinute(times, now) == Places(k, |times|);
  }

  /** An attempt is let through exactly when fewer than five of all those let through so far are less
      than sixty seconds old, although the limiter has forgotten the older ones. */
  lemma AdmittedExactly(tries: seq<Try>, player: Id, now: real)
    requires InOrder(tries) && (tries != [] ==> Clock(tries) <= now)
    ensures Admitted(Log(tries), player, now) <==> |LastMinute(Processed(tries, player), now)| < 5
  {
    if tries != [] {
      var times := Processed(tries, player);
      var k := LimiterInvariant(tries, player);
      Later(times, AttemptsOf(Log(tries), player), k, Clock(tries), now);
      k := PrunedLogIsExact(times, AttemptsOf(Log(tries), player), k, now);
      LastMinuteIsSuffix(times, k, now);
    }
  }

  function Within(times: seq<real>, from: real): set<int> {
    set i | 0 <= i < |times| && from <= times[i] < from + 60.0
  }

  lemma SpacedTimesAreFew(times: seq<real>, from: real)
    requires Spaced(times)
    ensures |Within(times, from)| <= 5
  {
    var inside := Within(times, from);
    if i :| i in inside {
      var m := Greatest(inside, i);
      assert inside <= {m - 4, m - 3, m - 2, m - 1, m};
      SubsetSize(inside, {m - 4, m - 3, m - 2, m - 1, m});
    }
  }

  /** However attempts arrive, at most five of one player's are let through in any half-open window of
      sixty seconds. */
  lemma AtMostFivePerWindow(tries: seq<Try>, player: Id, from: real)
    requires InOrder(tries)
    ensures |Within(Processed(tries, player), from)| <= 5
  {
    var k := LimiterInvariant(tries, player);
    SpacedTimesAreFew(Processed(tries, player), from);
  }

  // ---------------------------------------------------------------- over runs

  /** The join requests of a run since its last restart. */
  function TriesSince(events: seq<Event>): seq<Try> {
    if events == [] then [] else
      var before := TriesSince(events[..|events| - 1]);
      match events[|events| - 1]
      case Joining(player, _, now) => before + [Try(player, now)]
      case Restarting => []
      case _ => before
  }

  /** The times at which the run let a join request of the player's through, since its last restart. */
  ghost function LetThrough(setup: Setup, events: seq<Event>, p: Id): seq<real> {
    if events == [] then [] else
      var front := events[..|events| - 1];
      match events[|events| - 1]
      case Joining(player, _, now) =>
        if player == p && Admitted(Run(setup, NEW_MATCH, front).attempts, p, now)
        then LetThrough(setup, front, p) + [now] else LetThrough(setup, front, p)
      case Restarting => []
      case _ => LetThrough(setup, front, p)
  }

  lemma OnlyJoinsAreLogged(setup: Setup, w: World, e: Event)
    requires !e.Joining? && !e.Restarting?
    ensures Step(setup, w, e).attempts == w.attempts
  {
    if !e.Submitting? && !e.Cancelling? { OthersLeaveDesk(setup, w, e); }
  }

  lemma LogGrows(tries: seq<Try>, t: Try, p: Id)
    ensures Log(tries + [t]) == Attempted(Log(tries), t.player, t.now)
    ensures Processed(tries + [t], p) ==
            if t.player == p && Admitted(Log(tries), p, t.now) then Processed(tries, p) + [t.now] else Processed(tries, p)
  {
    assert (tries + [t])[..|tries|] == tries;
  }

  /** In every run the limiter's memory is the log of the join requests since the last restart. */
  lemma {:induction false} RunsKeepTheLog(setup: Setup, events: seq<Event>, p: Id)
    ensures Run(setup, NEW_MATCH, events).attempts == Log(TriesSince(events))
    ensures LetThrough(setup, events, p) == Processed(TriesSince(events), p)
    decreases |events|
  {
    if events != [] {
      var front, e := events[..|events| - 1], events[|events| - 1];
      RunsKeepTheLog(setup, front, p);
      if e.Joining? {
        LogGrows(TriesSince(front), Try(e.player, e.now), p);
      } else if !e.Restarting? {
        OnlyJoinsAreLogged(setup, Run(setup, NEW_MATCH, front), e);
      }
    }
  }

  /** In every run whose clock does not run backwards, whatever else happens in it: since its last restart
      at most five join requests of one key were let through in any half-open window of sixty seconds. */
  lemma AtMostFiveInEveryRun(setup: Setup, events: seq<Event>, p: Id, from: real)
    requires InOrder(TriesSince(events))
    ensures |Within(LetThrough(setup, events, p), from)| <= 5
  {
    RunsKeepTheLog(setup, events, p);
    AtMostFivePerWindow(TriesSince(events), p, from);
  }

  /** In every run whose clock does not run backwards a join request is let through exactly when fewer than
      five of its key's were let through within the last sixty seconds since the last restart. */
  lemma AdmittedInRun(setup: Setup, events: seq<Event>, p: Id, draw: nat, now: real)
    requires InOrder(TriesSince(events + [Joining(p, draw, now)]))
    ensures Admitted(Run(setup, NEW_MATCH, events).attempts, p, now) <==> |LastMinute(LetThrough(setup, events, p), now)| < 5
  {
    var more, tries := events + [Joining(p, draw, now)], TriesSince(events);
    assert more[..|more| - 1] == events;
    assert TriesSince(more) == tries + [Try(p, now)];
    assert InOrder(tries) by {
      assert forall i :: 0 <= i < |tries| ==> tries[i] == TriesSince(more)[i];
    }
    if tries != [] { assert TriesSince(more)[|tries| - 1].now <= TriesSince(more)[|tries|].now; }
    RunsKeepTheLog(setup, events, p);
    AdmittedExactly(tries, p, now);
  }
}
