/** The phase clock against an independent stopwatch: pausing and resuming lose no running time. */
module Clock {
  import opened Ordering
  import opened Board
  import opened Phases
  import opened Store
  import opened Match
  import opened Invariant
  import opened Steps

  /** Time run so far, up to the last start when running. */
  datatype Stopwatch = Stopwatch(running: bool, since: real, ran: real)

  function Elapsed(c: Stopwatch, now: real): real {
    if c.running then c.ran + (now - c.since) else c.ran
  }

  function Started(now: real): Stopwatch {
    Stopwatch(true, now, 0.0)
  }

  function Tick(c: Stopwatch, e: Event): Stopwatch {
    match e
    case Pausing(now) => if c.running then Stopwatch(false, now, c.ran + (now - c.since)) else c
    case Resuming(now) => if c.running then c else Stopwatch(true, now, c.ran)
    case _ => c
  }

  function Watch(began: real, events: seq<Event>): Stopwatch {
    if events == [] then Started(began) else Tick(Watch(began, events[..|events| - 1]), events[|events| - 1])
  }

  /** The time of the last event that carries one. */
  function LastTime(began: real, events: seq<Event>): real {
    if events == [] then began else
      var before := LastTime(began, events[..|events| - 1]);
      match events[|events| - 1]
      case Pausing(now) => now
      case Resuming(now) => now
      case Joining(_, _, now) => now
      case Starting(now) => now
      case Polling(now) => now
      case Advancing(now) => now
      case _ => before
  }

  ghost predicate TimesAscend(began: real, events: seq<Event>) {
    events != [] ==>
      && TimesAscend(began, events[..|events| - 1])
      && LastTime(began, events[..|events| - 1]) <= LastTime(began, events)
  }

  /** No event leaves the phase: nobody advances it, and every poll comes before the deadline. */
  ghost predicate StaysInPhase(setup: Setup, w: World, events: seq<Event>) {
    events != [] ==>
      && StaysInPhase(setup, w, events[..|events| - 1])
      && !events[|events| - 1].Advancing?
      && (events[|events| - 1].Polling? ==> !Expired(Run(setup, w, events[..|events| - 1]).rows, events[|events| - 1].now))
  }

  /** The stored deadline, or the stored remainder, is what the stopwatch says is left of `duration`. */
  ghost predicate Keeps(rows: Rows, c: Stopwatch, duration: real) {
    if c.running then
      && rows.deadline.Some? && rows.paused.None?
      && (rows.deadline.value == c.since + (duration - c.ran) || (duration <= c.ran && rows.deadline.value <= c.since))
    else
      && rows.deadline.None?
      && rows.paused == Some(if duration - c.ran > 0.0 then duration - c.ran else 0.0)
  }

  lemma TickKeeps(setup: Setup, w: World, c: Stopwatch, e: Event, duration: real, last: real)
    requires w.rows.state.status != Lobby && Keeps(w.rows, c, duration) && c.since <= last
    requires !e.Advancing? && (e.Polling? ==> !Expired(w.rows, e.now))
    requires (e.Pausing? || e.Resuming?) ==> last <= e.now
    ensures Step(setup, w, e).rows.state.status != Lobby
    ensures Keeps(Step(setup, w, e).rows, Tick(c, e), duration)
    ensures Tick(c, e).since <= if e.Pausing? || e.Resuming? then e.now else last
  {
  }

  lemma {:induction false} ClockKeeps(setup: Setup, w: World, events: seq<Event>, began: real, duration: real)
    requires w.rows.state.status != Lobby && w.rows.deadline == Some(began + duration) && w.rows.paused.None?
    requires TimesAscend(began, events) && StaysInPhase(setup, w, events)
    ensures Run(setup, w, events).rows.state.status != Lobby
    ensures Keeps(Run(setup, w, events).rows, Watch(began, events), duration)
    ensures Watch(began, events).since <= LastTime(began, events)
    decreases |events|
  {
    if events != [] {
      var front, e := events[..|events| - 1], events[|events| - 1];
      ClockKeeps(setup, w, front, began, duration);
      TickKeeps(setup, Run(setup, w, front), Watch(began, front), e, duration, LastTime(began, front));
    }
  }

  /** In a phase entered unpaused at `began`, whatever else happens, exactly one of the deadline and the
      paused remainder is set; and the deadline has expired exactly when the clock is running and has run
      for the phase's duration in all. */
  lemma DeadlineIsExact(setup: Setup, w: World, events: seq<Event>, began: real, duration: real, now: real)
    requires w.rows.state.status != Lobby && w.rows.deadline == Some(began + duration) && w.rows.paused.None?
    requires TimesAscend(began, events) && StaysInPhase(setup, w, events) && LastTime(began, events) <= now
    ensures var rows, c := Run(setup, w, events).rows, Watch(began, events);
            && (rows.deadline.Some? <==> rows.paused.None?)
            && (rows.deadline.Some? <==> c.running)
            && (Expired(rows, now) <==> c.running && Elapsed(c, now) >= duration)
            && (!c.running ==> rows.paused.value == if duration > c.ran then duration - c.ran else 0.0)
  {
    ClockKeeps(setup, w, events, began, duration);
  }

  lemma EntryTimes(setup: Setup, w: World, s: MatchState, board: GameState, now: real)
    requires EnterPhase(setup, w, s, board, now).1 == Done
    ensures var rows := EnterPhase(setup, w, s, board, now).0.rows;
            rows.state == s && rows.deadline == Some(now + Duration(setup, s.phase)) && rows.paused == w.rows.paused
  {
  }

  lemma DoneEntersAPhase(setup: Setup, w: World, now: real)
    requires AdvancePhase(setup, w, now).1 == Done
    ensures Resolve(setup, w.rows).Some?
    ensures var (s, board) := Resolve(setup, w.rows).value; AdvancePhase(setup, w, now) == EnterPhase(setup, w, s, board, now)
  {
  }

  lemma ResumptionTakesRemainder(w: World, now: real)
    requires w.rows.paused.Some?
    ensures ResumeMatch(w, now).rows.deadline == Some(now + w.rows.paused.value)
  {
  }

  /** A new phase always gets its full duration, and is entered with a stale remainder as well exactly
      when the old one was paused; resuming then gives it that remainder in place of its own duration. */
  lemma AdvancingWhilePaused(setup: Setup, w: World, now: real, later: real)
    requires AdvancePhase(setup, w, now).1 == Done
    ensures var v := AdvancePhase(setup, w, now).0;
            && v.rows.deadline == Some(now + Duration(setup, v.rows.state.phase))
            && ((v.rows.deadline.Some? && v.rows.paused.Some?) <==> w.rows.paused.Some?)
            && (w.rows.paused.Some? ==> ResumeMatch(v, later).rows.deadline == Some(later + w.rows.paused.value))
  {
    DoneEntersAPhase(setup, w, now);
    var (s, board) := Resolve(setup, w.rows).value;
    EntryTimes(setup, w, s, board, now);
    if w.rows.paused.Some? {
      ResumptionTakesRemainder(AdvancePhase(setup, w, now).0, later);
    }
  }

  // ---------------------------------------------------------------- over whole runs

  /** Before the start neither is set, and from then on at least one of them always is. */
  ghost predicate Timed(rows: Rows) {
    if rows.state.status == Lobby then rows.deadline.None? && rows.paused.None?
    else rows.deadline.Some? || rows.paused.Some?
  }

  ghost predicate BothSet(rows: Rows) {
    rows.deadline.Some? && rows.paused.Some?
  }

  lemma AdvanceTimes(setup: Setup, w: World, now: real)
    requires Timed(w.rows)
    requires AdvancePhase(setup, w, now).1 == if w.rows.state.status == Active then Done else Refused
    ensures var rows := AdvancePhase(setup, w, now).0.rows;
            Timed(rows) && (BothSet(rows) <==> if w.rows.state.status == Active then w.rows.paused.Some? else BothSet(w.rows))
  {
  }

  lemma StartTimes(setup: Setup, w: World, now: real)
    requires Timed(w.rows) && StartMatch(setup, w, now).1 != Clash
    ensures Timed(StartMatch(setup, w, now).0.rows)
    ensures BothSet(StartMatch(setup, w, now).0.rows) <==> BothSet(w.rows)
  {
  }

  lemma AsideTimes(setup: Setup, w: World, e: Event)
    requires Timed(w.rows) && !e.Advancing? && !e.Starting? && !e.Polling?
    ensures Timed(Step(setup, w, e).rows)
    ensures BothSet(Step(setup, w, e).rows) <==> BothSet(w.rows) && !e.Pausing? && !e.Resuming?
  {
  }

  lemma AdvanceTimesExactly(setup: Setup, w: World, now: real)
    requires FairSetup(setup) && Inv(setup, w) && Timed(w.rows)
    ensures var rows := AdvancePhase(setup, w, now).0.rows;
            Timed(rows) && (BothSet(rows) <==> if w.rows.state.status == Active then w.rows.paused.Some? else BothSet(w.rows))
  {
    AdvanceKeeps(setup, w, now);
    AdvanceTimes(setup, w, now);
  }

  lemma PollTimes(setup: Setup, w: World, now: real)
    requires FairSetup(setup) && Inv(setup, w) && Timed(w.rows)
    ensures Timed(CheckDeadline(setup, w, now).rows)
    ensures BothSet(CheckDeadline(setup, w, now).rows) <==> BothSet(w.rows)
  {
    if w.rows.state.status == Active && Expired(w.rows, now) {
      AdvanceTimesExactly(setup, w, now);
    }
  }

  lemma StartTimesExactly(setup: Setup, w: World, now: real)
    requires FairSetup(setup) && Inv(setup, w) && Timed(w.rows)
    ensures Timed(StartMatch(setup, w, now).0.rows)
    ensures BothSet(StartMatch(setup, w, now).0.rows) <==> BothSet(w.rows)
  {
    StartKeeps(setup, w, now);
    StartTimes(setup, w, now);
  }

  /** Both are set exactly from an advance made while paused until the next pause or resumption. */
  lemma BothSetExactly(setup: Setup, w: World, e: Event)
    requires FairSetup(setup) && Inv(setup, w) && Timed(w.rows)
    ensures Timed(Step(setup, w, e).rows)
    ensures BothSet(Step(setup, w, e).rows) <==>
            || (e.Advancing? && w.rows.state.status == Active && w.rows.paused.Some?)
            || (BothSet(w.rows) && !e.Pausing? && !e.Resuming?)
  {
    match e
    case Starting(now) => StartTimesExactly(setup, w, now);
    case Advancing(now) => AdvanceTimesExactly(setup, w, now);
    case Polling(now) => PollTimes(setup, w, now);
    case _ => AsideTimes(setup, w, e);
  }

  lemma {:induction false} EveryRunIsTimed(setup: Setup, events: seq<Event>)
    requires FairSetup(setup)
    ensures Timed(Run(setup, NEW_MATCH, events).rows)
    decreases |events|
  {
    if events != [] {
      var front := events[..|events| - 1];
      EveryRunIsTimed(setup, front);
      RunsKeepInvariant(setup, front);
      BothSetExactly(setup, Run(setup, NEW_MATCH, front), events[|events| - 1]);
    }
  }
}
