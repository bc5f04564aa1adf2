/** One match as a state machine: what each operation of the coordinator does, as a function. */
module Match {
  import opened Ordering
  import opened Board
  import opened Canonical
  import opened Verification
  import opened Phases
  import opened Store
  import opened OrderDesk
  import opened Engine

  datatype Setup = Setup(
    engine: Engine, initial: GameState, key: string,
    movementSeconds: real, retreatSeconds: real, adjustmentSeconds: real)

  const MAX_PLAYERS := 7
  const JOIN_WINDOW := 60.0
  const JOIN_LIMIT := 5
  const WARNING_LEAD := 3600.0

  datatype Notice =
    | PhaseStart(phase: Phase, turn: int, year: int, deadline: real)
    | DeadlineWarning(phase: Phase, remaining: real)
    | MatchEnd(finalHash: Option<Hash>)

  /** The rows, what has been broadcast so far, and what is only in memory. */
  datatype World = World(
    rows: Rows,
    start: Option<MatchStart>,
    results: seq<PhaseResult>,
    notices: seq<Notice>,
    attempts: map<Id, seq<real>>,
    warned: bool)

  const NEW_MATCH := World(EMPTY, None, [], [], map[], false)

  /** `Refused` is an invalid transition or a missing state: nothing was written. `Clash` is an
      integrity error of the result table, raised after the match state was saved. */
  datatype Outcome = Done | Refused | Clash

  // ---------------------------------------------------------------- joining

  function Recent(times: seq<real>, now: real): seq<real> {
    if times == [] then [] else
      (if now - times[0] < JOIN_WINDOW then [times[0]] else []) + Recent(times[1..], now)
  }

  function AttemptsOf(attempts: map<Id, seq<real>>, player: Id): seq<real> {
    if player in attempts then attempts[player] else []
  }

  function Admitted(attempts: map<Id, seq<real>>, player: Id, now: real): bool {
    |Recent(AttemptsOf(attempts, player), now)| < JOIN_LIMIT
  }

  function Attempted(attempts: map<Id, seq<real>>, player: Id, now: real): map<Id, seq<real>> {
    var recent := Recent(AttemptsOf(attempts, player), now);
    attempts[player := if |recent| < JOIN_LIMIT then recent + [now] else recent]
  }

  function Taken(players: seq<PlayerRow>): set<Id> {
    set p | p in players :: p.factionId
  }

  function Available(setup: Setup, rows: Rows): seq<Id> {
    Ascending(setup.initial.factions.Keys - Taken(rows.players))
  }

  /** `draw` stands for the random choice among the factions that are left. */
  function AfterJoin(setup: Setup, rows: Rows, player: Id, draw: nat): Rows {
    var available := Available(setup, rows);
    if rows.state.status != Lobby || FactionOf(rows, player).Some? then rows
    else if |rows.players| >= MAX_PLAYERS || available == [] then rows
    else rows.(players := rows.players + [PlayerRow(player, available[draw % |available|])])
  }

  function Join(setup: Setup, w: World, player: Id, draw: nat, now: real): World {
    var rows := if Admitted(w.attempts, player, now) then AfterJoin(setup, w.rows, player, draw) else w.rows;
    w.(attempts := Attempted(w.attempts, player, now), rows := rows)
  }

  // ---------------------------------------------------------------- results

  function NewRow(setup: Setup, results: seq<PhaseRow>, turn: int, phase: Phase, board: GameState): PhaseRow {
    var previous := if results == [] then None else Some(results[|results| - 1].stateHash);
    var hash := HashState(board, previous);
    PhaseRow(turn, phase, Canonicalize(board), hash, previous, Signed(setup.key, hash))
  }

  function GenesisRow(setup: Setup, s: MatchState): PhaseRow {
    var hash := HashState(setup.initial, None);
    PhaseRow(s.turn, s.phase, Canonicalize(setup.initial), hash, None, Signed(setup.key, hash))
  }

  function MessageOf(row: PhaseRow, year: int): PhaseResult {
    PhaseResult(row.phase, row.turn, year, Packed(row.canon), row.stateHash, row.previous, row.signature)
  }

  function StartOf(row: PhaseRow): MatchStart {
    MatchStart(Packed(row.canon), row.stateHash, row.signature)
  }

  /** Saves the match state, then inserts the row unless its place is taken. */
  function Persist(rows: Rows, s: MatchState, row: PhaseRow): (Rows, bool) {
    if FindRow(rows.results, row.turn, row.phase).None?
    then (rows.(state := s, results := rows.results + [row]), true)
    else (rows.(state := s), false)
  }

  function Duration(setup: Setup, phase: Phase): real {
    match phase
    case Retreat => setup.retreatSeconds
    case Build => setup.adjustmentSeconds
    case _ => setup.movementSeconds
  }

  /** The announcement of an entered phase: its result, its start, and the new deadline. */
  function Announce(setup: Setup, w: World, rows: Rows, row: PhaseRow, s: MatchState, now: real): World {
    var deadline := now + Duration(setup, s.phase);
    w.(rows := rows.(deadline := Some(deadline)),
       results := w.results + [MessageOf(row, s.year)],
       notices := w.notices + [PhaseStart(s.phase, s.turn, s.year, deadline)],
       warned := false)
  }

  // ---------------------------------------------------------------- the life cycle

  /** The genesis row and its announcement. */
  function SeedMatch(setup: Setup, w: World, s: MatchState, now: real): (World, Outcome) {
    var genesis := GenesisRow(setup, s);
    var (rows, ok) := Persist(w.rows, s, genesis);
    if ok
    then (w.(rows := rows.(deadline := Some(now + setup.movementSeconds)), start := Some(StartOf(genesis))), Done)
    else (w.(rows := rows), Clash)
  }

  /** Entering phase `s` with a board: state and row are saved, and the phase announced. */
  function EnterPhase(setup: Setup, w: World, s: MatchState, board: GameState, now: real): (World, Outcome) {
    var row := NewRow(setup, w.rows.results, s.turn, s.phase, board);
    var (rows, ok) := Persist(w.rows, s, row);
    if ok then (Announce(setup, w, rows, row, s, now), Done) else (w.(rows := rows), Clash)
  }

  function StartMatch(setup: Setup, w: World, now: real): (World, Outcome) {
    if |w.rows.players| != MAX_PLAYERS || Start(w.rows.state).None? then (w, Refused) else
      var s := Start(w.rows.state).value;
      var (seeded, outcome) := SeedMatch(setup, w, s, now);
      if outcome == Clash then (seeded, Clash)
      else EnterPhase(setup, seeded, Advance(s, false, false).value, setup.initial, now)
  }

  function TurnStart(rows: Rows, turn: int): Option<GameState> {
    var row := FindRow(rows.results, turn, Phase.Orders);
    if row.Some? then Some(Decode(row.value.canon)) else None
  }

  /** The board the coordinator loads: the row of the current phase, or failing that the newest one. */
  function CurrentBoard(rows: Rows): Option<GameState> {
    var row := FindRow(rows.results, rows.state.turn, rows.state.phase);
    var latest := if row.Some? then row else LatestRow(rows.results);
    if latest.Some? then Some(Decode(latest.value.canon)) else None
  }

  /** Diplomacy is passed through on the way to the next turn's orders. */
  function SkipDiplomacy(s: MatchState): MatchState {
    if s.phase == Phase.Diplomacy && s.status == Active then Advance(s, false, false).value else s
  }

  function LeaveOrders(setup: Setup, rows: Rows): Option<(MatchState, GameState)> {
    var s, pre := rows.state, TurnStart(rows, rows.state.turn);
    if s.status != Active || pre.None? then None else
      var orders := EffectiveOrders(rows.orders, s.turn);
      var board := setup.engine.afterOrders(pre.value, orders);
      var dislodged := setup.engine.dislodges(pre.value, orders);
      var adjust := !dislodged && setup.engine.unbalanced(board);
      Some((SkipDiplomacy(Advance(s.(phase := Phase.Resolution), dislodged, adjust).value), board))
  }

  function LeaveRetreat(setup: Setup, rows: Rows): Option<(MatchState, GameState)> {
    var s, pre := rows.state, TurnStart(rows, rows.state.turn);
    if s.status != Active || pre.None? then None else
      var board := setup.engine.afterRetreat(pre.value, EffectiveOrders(rows.orders, s.turn));
      Some((SkipDiplomacy(Advance(s, false, setup.engine.unbalanced(board)).value), board))
  }

  function LeaveBuild(setup: Setup, rows: Rows): Option<(MatchState, GameState)> {
    var s, pre := rows.state, CurrentBoard(rows);
    if s.status != Active || pre.None? then None else
      Some((SkipDiplomacy(Advance(s, false, false).value), setup.engine.afterBuild(pre.value)))
  }

  /** Where the match goes from here, and with which board. */
  function Resolve(setup: Setup, rows: Rows): Option<(MatchState, GameState)> {
    match rows.state.phase
    case Orders => LeaveOrders(setup, rows)
    case Retreat => LeaveRetreat(setup, rows)
    case Build => LeaveBuild(setup, rows)
    case _ => None
  }

  function AdvancePhase(setup: Setup, w: World, now: real): (World, Outcome) {
    match Resolve(setup, w.rows)
    case None => (w, Refused)
    case Some((s, board)) => EnterPhase(setup, w, s, board, now)
  }

  function FinalHash(rows: Rows): Option<Hash> {
    if rows.results == [] then None else Some(rows.results[|rows.results| - 1].stateHash)
  }

  /** Ended by the operator, or by an accepted draw. */
  function EndMatch(w: World): (World, Outcome) {
    match End(w.rows.state)
    case None => (w, Refused)
    case Some(s) => (w.(rows := w.rows.(state := s), notices := w.notices + [MatchEnd(FinalHash(w.rows))]), Done)
  }

  // ---------------------------------------------------------------- the clock

  function Remaining(deadline: real, now: real): real {
    deadline - now
  }

  function PauseMatch(w: World, now: real): World {
    if w.rows.deadline.None? then w else
      var left := Remaining(w.rows.deadline.value, now);
      w.(rows := w.rows.(paused := Some(if left > 0.0 then left else 0.0), deadline := None))
  }

  function ResumeMatch(w: World, now: real): World {
    if w.rows.paused.None? then w else
      w.(rows := w.rows.(deadline := Some(now + w.rows.paused.value), paused := None), warned := false)
  }

  predicate Expired(rows: Rows, now: real) {
    rows.deadline.Some? && Remaining(rows.deadline.value, now) <= 0.0
  }

  /** One poll of the deadline, which only an active match makes. */
  function CheckDeadline(setup: Setup, w: World, now: real): World {
    if w.rows.state.status != Active || w.rows.deadline.None? then w
    else if Expired(w.rows, now) then AdvancePhase(setup, w, now).0
    else
      var left := Remaining(w.rows.deadline.value, now);
      if left <= WARNING_LEAD && !w.warned
      then w.(warned := true, notices := w.notices + [DeadlineWarning(w.rows.state.phase, left)])
      else w
  }

  // ---------------------------------------------------------------- orders

  ghost predicate SubmissionValid(rows: Rows, player: Id, orders: seq<Order>) {
    && CurrentBoard(rows).Some? && FactionOf(rows, player).Some?
    && ValidOrders(CurrentBoard(rows).value, FactionOf(rows, player).value, orders)
  }

  ghost function Submit(w: World, player: Id, revision: int, orders: seq<Order>): World {
    if CurrentBoard(w.rows).None? then w else
      w.(rows := AfterSubmit(w.rows, player, revision, orders, SubmissionValid(w.rows, player, orders)))
  }

  function Cancel(w: World, player: Id, revision: int): World {
    w.(rows := AfterCancel(w.rows, player, revision))
  }

  /** A restart keeps the rows and what was sent, and forgets the rest. */
  function Restart(w: World): World {
    w.(attempts := map[], warned := false)
  }

  // ---------------------------------------------------------------- runs

  datatype Event =
    | Joining(player: Id, draw: nat, now: real)
    | Starting(now: real)
    | Submitting(player: Id, revision: int, orders: seq<Order>)
    | Cancelling(player: Id, revision: int)
    | Advancing(now: real)
    | Polling(now: real)
    | Pausing(now: real)
    | Resuming(now: real)
    | Ending
    | Restarting

  ghost function Step(setup: Setup, w: World, e: Event): World {
    match e
    case Joining(player, draw, now) => Join(setup, w, player, draw, now)
    case Starting(now) => StartMatch(setup, w, now).0
    case Submitting(player, revision, orders) => Submit(w, player, revision, orders)
    case Cancelling(player, revision) => Cancel(w, player, revision)
    case Advancing(now) => AdvancePhase(setup, w, now).0
    case Polling(now) => CheckDeadline(setup, w, now)
    case Pausing(now) => PauseMatch(w, now)
    case Resuming(now) => ResumeMatch(w, now)
    case Ending => EndMatch(w).0
    case Restarting => Restart(w)
  }

  ghost function Run(setup: Setup, w: World, events: seq<Event>): World {
    if events == [] then w else Step(setup, Run(setup, w, events[..|events| - 1]), events[|events| - 1])
  }

  // ---------------------------------------------------------------- what each operation leaves alone

  /** Neither orders nor the limiter's memory are touched. */
  ghost predicate LeavesDesk(w: World, v: World) {
    v.rows.orders == w.rows.orders && v.attempts == w.attempts
  }

  lemma SeedLeavesDesk(setup: Setup, w: World, s: MatchState, now: real)
    ensures LeavesDesk(w, SeedMatch(setup, w, s, now).0)
  {
  }

  lemma EntryLeavesDesk(setup: Setup, w: World, s: MatchState, board: GameState, now: real)
    ensures LeavesDesk(w, EnterPhase(setup, w, s, board, now).0)
  {
  }

  lemma StartLeavesDesk(setup: Setup, w: World, now: real)
    ensures LeavesDesk(w, StartMatch(setup, w, now).0)
  {
    if Start(w.rows.state).Some? {
      var s := Start(w.rows.state).value;
      SeedLeavesDesk(setup, w, s, now);
      EntryLeavesDesk(setup, SeedMatch(setup, w, s, now).0, Advance(s, false, false).value, setup.initial, now);
    }
  }

  lemma AdvanceLeavesDesk(setup: Setup, w: World, now: real)
    ensures LeavesDesk(w, AdvancePhase(setup, w, now).0)
  {
    match Resolve(setup, w.rows)
    case None =>
    case Some((s, board)) => EntryLeavesDesk(setup, w, s, board, now);
  }

  lemma PollLeavesDesk(setup: Setup, w: World, now: real)
    ensures LeavesDesk(w, CheckDeadline(setup, w, now))
  {
    if w.rows.state.status == Active && Expired(w.rows, now) { AdvanceLeavesDesk(setup, w, now); }
  }

  lemma ClockLeavesDesk(w: World, now: real)
    ensures LeavesDesk(w, PauseMatch(w, now)) && LeavesDesk(w, ResumeMatch(w, now)) && LeavesDesk(w, EndMatch(w).0)
  {
  }

  lemma OthersLeaveDesk(setup: Setup, w: World, e: Event)
    requires !e.Joining? && !e.Submitting? && !e.Cancelling? && !e.Restarting?
    ensures LeavesDesk(w, Step(setup, w, e))
  {
    match e
    case Starting(now) => StartLeavesDesk(setup, w, now);
    case Advancing(now) => AdvanceLeavesDesk(setup, w, now);
    case Polling(now) => PollLeavesDesk(setup, w, now);
    case Pausing(now) => ClockLeavesDesk(w, now);
    case Resuming(now) => ClockLeavesDesk(w, now);
    case Ending => ClockLeavesDesk(w, 0.0);
  }
}
