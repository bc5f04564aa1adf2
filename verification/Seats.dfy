/** Who gets a seat at the table, in any run. */
module Seats {
  import opened Ordering
  import opened Phases
  import opened Store
  import opened Match
  import opened Steps
  import opened Runs
  import opened Counterexamples
  import opened JoinLimiter

  /** Somebody plays `f`. */
  ghost predicate Played(players: seq<PlayerRow>, f: Id) {
    exists i :: 0 <= i < |players| && players[i].factionId == f
  }

  /** Somebody joined with this key. */
  ghost predicate Joined(players: seq<PlayerRow>, key: Id) {
    exists i :: 0 <= i < |players| && players[i].publicKey == key
  }

  ghost predicate SomeFree(setup: Setup, players: seq<PlayerRow>) {
    exists f :: f in setup.initial.factions && !Played(players, f)
  }

  /** A new player gets a seat, with a faction of the board nobody plays yet, and everyone else keeps theirs. */
  ghost predicate Seats(setup: Setup, before: seq<PlayerRow>, after: seq<PlayerRow>, key: Id) {
    && |after| == |before| + 1 && after[..|before|] == before
    && after[|before|].publicKey == key
    && after[|before|].factionId in setup.initial.factions && !Played(before, after[|before|].factionId)
  }

  lemma TakenExactly(players: seq<PlayerRow>, f: Id)
    ensures f in Taken(players) <==> Played(players, f)
  {
    if i :| 0 <= i < |players| && players[i].factionId == f {
      assert players[i] in players;
    }
  }

  lemma SeatsLeft(setup: Setup, rows: Rows)
    ensures Available(setup, rows) != [] <==> SomeFree(setup, rows.players)
    ensures forall f :: f in Available(setup, rows) <==> f in setup.initial.factions && !Played(rows.players, f)
  {
    var available := Available(setup, rows);
    forall f ensures f in available <==> f in setup.initial.factions && !Played(rows.players, f) {
      TakenExactly(rows.players, f);
    }
    if available != [] { assert available[0] in available; }
  }

  lemma JoinedExactly(rows: Rows, key: Id)
    ensures FactionOf(rows, key).Some? <==> Joined(rows.players, key)
  {
    FactionFound(rows.players, key);
  }

  lemma AfterJoinExactly(setup: Setup, rows: Rows, key: Id, draw: nat)
    ensures var after := AfterJoin(setup, rows, key, draw);
            && after == rows.(players := after.players)
            && if rows.state.status == Lobby && !Joined(rows.players, key) && |rows.players| < 7 && SomeFree(setup, rows.players)
               then Seats(setup, rows.players, after.players, key) else after.players == rows.players
  {
    JoinedExactly(rows, key);
    SeatsLeft(setup, rows);
  }

  /** In every run whose clock does not run backwards: a join request seats its sender exactly when the
      match is in its lobby, the sender has no seat, one of the seven is left with a faction to play, and
      fewer than five of its requests were let through within the last minute since the last restart. A
      request changes nothing else on record. */
  lemma JoinExactly(setup: Setup, events: seq<Event>, key: Id, draw: nat, now: real)
    requires InOrder(TriesSince(events + [Joining(key, draw, now)]))
    ensures var rows, after := Reached(setup, events).rows, Reached(setup, events + [Joining(key, draw, now)]).rows;
            && after == rows.(players := after.players)
            && if rows.state.status == Lobby && !Joined(rows.players, key) && |rows.players| < 7 && SomeFree(setup, rows.players)
                  && |LastMinute(LetThrough(setup, events, key), now)| < 5
               then Seats(setup, rows.players, after.players, key) else after.players == rows.players
  {
    var w := Reached(setup, events);
    OneMore(setup, events, Joining(key, draw, now));
    AdmittedInRun(setup, events, key, draw, now);
    AfterJoinExactly(setup, w.rows, key, draw);
  }

  lemma SmallRemainder(k: nat, n: nat)
    requires k < n
    ensures k % n == k
  {
  }

  /** The draw may give a newcomer any faction that is left. */
  lemma AnyFreeFactionMayBeDrawn(setup: Setup, rows: Rows, key: Id, f: Id) returns (draw: nat)
    requires rows.state.status == Lobby && !Joined(rows.players, key) && |rows.players| < 7
    requires f in setup.initial.factions && !Played(rows.players, f)
    ensures AfterJoin(setup, rows, key, draw).players == rows.players + [PlayerRow(key, f)]
  {
    JoinedExactly(rows, key);
    SeatsLeft(setup, rows);
    var available := Available(setup, rows);
    assert f in available;
    var i: nat :| i < |available| && available[i] == f;
    SmallRemainder(i, |available|);
    draw := i;
  }
}
