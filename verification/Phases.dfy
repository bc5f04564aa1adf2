/** The match life cycle: lobby, active, completed, and the phases of a turn. */
module Phases {
  import opened Ordering
  import opened Board

  datatype MatchStatus = Lobby | Active | Completed

  datatype MatchState = MatchState(status: MatchStatus, phase: Phase, turn: int, year: int)

  const FRESH := MatchState(Lobby, Phase.Diplomacy, 1, 1)

  /** `None` stands for the invalid-transition error. */
  function Start(s: MatchState): Option<MatchState> {
    if s.status != Lobby then None else Some(MatchState(Active, Phase.Diplomacy, 1, 1))
  }

  function End(s: MatchState): Option<MatchState> {
    if s.status != Active then None else Some(s.(status := Completed))
  }

  function NextTurn(s: MatchState): MatchState {
    s.(phase := Phase.Diplomacy, turn := s.turn + 1, year := s.year + 1)
  }

  function Advance(s: MatchState, dislodgements: bool, adjustment: bool): Option<MatchState> {
    if s.status != Active then None else
      match s.phase
      case Diplomacy => Some(s.(phase := Phase.Orders))
      case Orders => Some(s.(phase := Phase.Resolution))
      case Resolution =>
        if dislodgements then Some(s.(phase := Phase.Retreat))
        else if adjustment then Some(s.(phase := Phase.Build))
        else Some(NextTurn(s))
      case Retreat => if adjustment then Some(s.(phase := Phase.Build)) else Some(NextTurn(s))
      case Build => Some(NextTurn(s))
  }

  function Rank(p: Phase): nat {
    match p
    case Diplomacy => 0
    case Orders => 1
    case Resolution => 2
    case Retreat => 3
    case Build => 4
  }

  /** The order in which (turn, phase) positions are reached. */
  function Position(turn: int, phase: Phase): int {
    5 * turn + Rank(phase)
  }

  lemma PositionsDiffer(t: int, p: Phase, u: int, q: Phase)
    ensures Position(t, p) == Position(u, q) <==> t == u && p == q
  {
  }

  /** Every transition of an active match moves strictly forward; dislodged units get their retreats first,
      and adjustments come when they are due and nobody is left to retreat. */
  lemma AdvanceMovesForward(s: MatchState, dislodgements: bool, adjustment: bool)
    requires s.status == Active
    ensures var next := Advance(s, dislodgements, adjustment);
            next.Some? && next.value.status == Active &&
            Position(next.value.turn, next.value.phase) > Position(s.turn, s.phase) &&
            next.value.year - next.value.turn == s.year - s.turn &&
            (next.value.phase == Phase.Retreat <==> s.phase == Phase.Resolution && dislodgements) &&
            (next.value.phase == Phase.Build <==>
               adjustment && (s.phase == Phase.Retreat || (s.phase == Phase.Resolution && !dislodgements)))
  {
  }
}
