# A verified model of the match engine, its coordinator and its verifying client

The system plays a Diplomacy-like board game between seven players who do not have to trust the
server. A deterministic engine adjudicates orders, retreats and adjustments; a coordinator collects
orders, drives the phases, keeps everything in a small database, and signs and hash-chains every
result it broadcasts; a client checks what it received and can re-adjudicate it. This project models
those three parts in Dafny and proves what they promise, for any map, any legal starting board, any
orders and any sequence of messages, phase changes, pauses and restarts.

## How it is laid out

| files | what they hold |
|---|---|
| `Ordering`, `Board` | string order, stable sorting, the board and its queries, validation of order sets |
| `Movement` | normalised orders, cut supports, strengths, and the success equation with its declarative solution |
| `MoveSearch`, `RingEntry`, `RingOutcome` | the memoised search as a function, exactly how it relates to the equation, and what it decides in closed form |
| `Adjudication` | the engine's movement phase step by step: loops, the recursive resolver with its mutable tables |
| `MovementTheorems`, `Dislodgement`, `Supports` | what every movement result guarantees, and exactly who is dislodged and by whom |
| `Rulebook` | the movement rules read off the orders: which orders stand, which supports count, when a move succeeds, what a report says |
| `OpposedRing`, `WrittenBoards` | boards on which an opposed ring, or two units of one faction face to face, dislodge an own unit, and one on which an attacked supporter still supports |
| `Retreats`, `Adjustment`, `AdjustmentTheorems`, `AdjustmentAnswers`, `Rounds` | retreats, ownership, builds and disbands, whole rounds |
| `Canonical`, `Verification` | the canonical form and its inverse, the order codec, the chain, the client |
| `Phases`, `Store`, `OrderDesk`, `Engine`, `Match` | the life cycle, the database rows and their class, order intake, and each coordinator operation as a step |
| `Coordinator` | the coordinator as a class over the store, each method proved to make exactly its step |
| `Invariant`, `Steps`, `Runs`, `Slots`, `Balance` | what every step keeps, and what therefore holds of every run |
| `Records`, `Progress`, `Seats` | what every run writes and sends, where each phase leads and when, and who gets a seat, in terms of boards, orders and times |
| `Counterexamples` | runs in which a documented promise fails, and exactly when it does |
| `Clock`, `JoinLimiter` | the pausable deadline against a stopwatch, the join limiter over any sequence of attempts |

Code that works by changing things is a method or a class here: the resolver, the loops of the three
resolution phases, the store, order intake, the client's history check, and the coordinator. Each is
proved against a function, and the theorems are about that function.

Some results are about what the code does *not* guarantee.

- The search may guess wrongly on a ring of moves. `RingEntry.EquationFailsExactly` gives the exact
  condition, move by move, from the orders and the visiting order alone;
  `RingOutcome.SearchDecidesExactly` says in closed form what is decided instead, and
  `RingOutcome.OrdersAgreeExactly` when the visiting order does not matter.
- The plan lists prevention of self-dislodgement (`docs/PLAN.md:39`). It holds for a stationary unit, and
  fails in two cases: a stronger move drives out a unit of its own faction that it meets head to head,
  since that branch never compares factions, and so does a fragile move whose ring the engine enters just
  past it. `Dislodgement.OwnDislodgementExactly` proves that these are all; `WrittenBoards.SwapHurtsItsOwn`
  and `OpposedRing.RingBoardHurtsItsOwn` give a legal board for each.
- The order desk's documentation says that a rejected submission never supersedes the last accepted one.
  `Counterexamples.RejectionHidesExactly` says exactly when, in any run, it does, and
  `Counterexamples.RejectionHappens` gives runs in which an order that counts is lost.
- Advancing the phase while paused leaves a deadline and a paused remainder both set.
  `Clock.BothSetExactly` says exactly when, and `Counterexamples.BothSetHappens` gives such runs.
- The phase, turn and year that a broadcast result is labelled with are neither hashed nor signed:
  `Verification.LabelsAreUnprotected`.

The comment at `engine/adjudicator.py:179` says that hold support counts only for units whose order is
literally a hold. The code counts it for units that support as well, as `WrittenBoards.SupportingUnitIsSupported` shows on a
board; the model follows the code.

## Model

| member | source | states |
|---|---|---|
| `Board.ValidateOrders` | engine/state.py:64-81 | no errors exactly when every order names a unit of the faction and no unit twice; every reported error is real and every foreign or repeated unit is reported |
| `Movement.BattleIsValid` | engine/adjudicator.py:123-130 | after normalisation every unit has one order, for its own region, and every remaining move is one the unit can make |
| `Rulebook.OrdersByTheBook` | engine/adjudicator.py:70-130 | a unit does what it was ordered exactly when the order is its own and possible (the region moved to or supported into is a neighbour fit for the unit, and somebody stands where it supports), and holds otherwise |
| `Rulebook.AttackSupportsByTheBook` | engine/adjudicator.py:146-178 | the supports that count for a move are exactly those given for just that move by units on whom nobody moves except from the region under attack; the attack strength is one more than their number |
| `Rulebook.HoldSupportsByTheBook` | engine/adjudicator.py:146-192 | a hold support counts exactly when nobody at all moves on the supporter; the hold strength is one more than their number |
| `Movement.PrevailersKeepApart` | engine/adjudicator.py:231-244 | two moves that beat all static opposition neither share a destination nor face each other |
| `Movement.SucceedsUnfolds` | engine/adjudicator.py:217-244 | the declarative verdict, defined along the whole chain of moves, satisfies the one-step rule by which the engine decides a move |
| `Movement.VerdictsSolve` | engine/adjudicator.py:207-248 | the declarative verdicts solve the success equation for every order set, rings included |
| `Movement.VerdictsAreGreatest` | engine/adjudicator.py:207-248 | any solution of the equation that lets a move succeed is matched by the verdicts |
| `Movement.SolutionIsUnique` | engine/adjudicator.py:207-248 | with no ring of moves the equation has exactly one solution |
| `Movement.RingsAreLong` | engine/adjudicator.py:219-226 | dependency rings have three moves or more: head-to-head pairs are cut out |
| `MoveSearch.SearchNeverUnder` | engine/adjudicator.py:197-248 | from a table that denies no deserved success, one call of the resolver never denies one either |
| `MoveSearch.OneCloserPerRing` | engine/adjudicator.py:200-204 | at most one move of a ring is decided by the guess |
| `MoveSearch.SearchIsRightWhereItSolves` | engine/adjudicator.py:194-252 | the search grants every success the verdicts grant, and equals the verdicts exactly when the equation holds everywhere |
| `MoveSearch.SearchIsRightWithoutRings` | engine/adjudicator.py:194-252 | with no ring the search computes the verdicts, whatever order the moves are visited in |
| `MoveSearch.UnopposedRingRotates` | engine/adjudicator.py:200-204 | a ring whose moves all prevail succeeds whole, wherever it is entered |
| `RingEntry.ClosersPrecedeEntries` | engine/adjudicator.py:200-204 | the guess is made at a ring move exactly when the outer loop first reaches the ring at the region that move enters |
| `RingEntry.EquationFailsExactly` | engine/adjudicator.py:194-252 | in any visiting order the equation fails at a move exactly when the move is fragile (it is on a ring, prevails, and needs out of its way a ring move that must fail) and the outer loop first reaches the ring at the region it enters |
| `RingEntry.SearchIsRightExactly` | engine/adjudicator.py:197-252 | for a given visiting order the search equals the verdicts exactly when no ring is entered just past a fragile move |
| `RingEntry.RightInEveryOrderExactly` | engine/adjudicator.py:197-252 | the search is right in every visiting order exactly when no move is fragile |
| `RingEntry.MisleadingOrder` | engine/adjudicator.py:200-204 | for every fragile move there is a visiting order in which the search is wrong |
| `RingOutcome.SearchDecidesExactly` | engine/adjudicator.py:194-252 | rings included and in any visiting order, a move succeeds exactly when it and every move it needs out of its way, up to the first fragile one entered just past, prevail |
| `RingOutcome.SafeOrderIsRight` | engine/adjudicator.py:250-252 | every order set has a visiting order in which the search is right on all moves |
| `RingOutcome.OrdersAgreeExactly` | engine/adjudicator.py:250-252 | all visiting orders give one outcome exactly when no move is fragile |
| `Rulebook.MovesByTheBook` | engine/adjudicator.py:194-252 | a move succeeds exactly when the way is open and every other move there is weaker, in terms of orders, factions and counted supports; the one exception is a fragile move whose ring the engine enters just past it |
| `OpposedRing.EnteredAtTheContestedMove` | engine/adjudicator.py:200-204 | an opposed ring of three entered at the contested move lets the two others through |
| `OpposedRing.EnteredPastTheContestedMove` | engine/adjudicator.py:200-204 | the same ring entered one step later holds all three in place |
| `OpposedRing.OpposedRingDislodgesUnsupported` | engine/adjudicator.py:250-278 | when the engine's own region order enters it at the contested move, that unit's report has it dislodged by an attack of strength one, against the equation, whether or not its order was normalised |
| `OpposedRing.OpposedRingOnBoard` | engine/adjudicator.py:116-302 | for any map, board and orders with four units making an opposed ring, in that order of regions, the first movement report is that of the contested unit, dislodged by the unsupported one |
| `OpposedRing.RingBoardHurtsItsOwn` | engine/adjudicator.py:116-302 | a legal board on a symmetric map, with orders, on which the contested unit is dislodged by an unsupported unit of its own faction |
| `Adjudication.NormalizeOrders` | engine/adjudicator.py:125-130 | the loop gives every unit its effective order and flag |
| `Adjudication.CutSupports` | engine/adjudicator.py:146-163 | a support is recorded as cut exactly when some other unit moves on the supporter from anywhere but the region the support is aimed at, in terms of the orders themselves |
| `Rulebook.SupportCutByTheBook` | engine/adjudicator.py:146-163 | every report says of a support whether it was cut, as the orders of the battle have it |
| `WrittenBoards.StrikeGoesThrough` | engine/adjudicator.py:157-161 | a board on which the unit under attack moves on the supporter of that attack: the support stands, the attack succeeds with strength two, and the unit is dislodged |
| `Adjudication.Strengths` | engine/adjudicator.py:166-192 | attack and hold strengths are one plus the uncut supports |
| `Adjudication.DecideByComparisons` | engine/adjudicator.py:237-244 | the engine's three comparisons amount to the one-step rule |
| `Adjudication.MoveResolver.Judge` | engine/adjudicator.py:231-244 | the comparisons give the rule's answer |
| `Adjudication.MoveResolver.ResolveMove` | engine/adjudicator.py:197-248 | the recursive call leaves exactly the table of the search, restores the in-progress set, and decides no move twice |
| `Adjudication.ResolveAll` | engine/adjudicator.py:250-252 | the outer loop leaves the table of the search over the moves in the order given |
| `Adjudication.FindWinners` | engine/adjudicator.py:254-258 | the loop finds the winner of each region |
| `Adjudication.AssembleResults` | engine/adjudicator.py:265-297 | one result for each unit, as its order, the table and the winners say |
| `Adjudication.ResolveMovement` | engine/adjudicator.py:116-302 | the whole imperative phase equals its specification |
| `MovementTheorems.NormalizedExactly` | engine/adjudicator.py:70-101 | a unit's order is flagged exactly when it is not the one submitted, and is then a hold |
| `MovementTheorems.WinnersExact` | engine/adjudicator.py:254-258 | a region has a winner exactly when some move succeeded into it, and the winner is such a move |
| `MovementTheorems.OutcomesPrevail` | engine/adjudicator.py:237-252 | every move has an outcome and only moves that beat all static opposition succeed, rings or not |
| `MovementTheorems.MovesDoNotCollide` | engine/adjudicator.py:237-252 | each destination has at most one successful mover and no two units swap places, opposed rings included |
| `MovementTheorems.ResultAt` | engine/adjudicator.py:265-302 | results come one for each unit in order of region and say truly whether it moved, was normalised, was cut, or was dislodged and by whom |
| `Rulebook.ReportsByTheBook` | engine/adjudicator.py:265-297 | every report has the unit, its order, where it ends, and whether and from where somebody moved in on it while it stayed |
| `MovementTheorems.SurvivorsApart` | engine/adjudicator.py:265-302 | no two surviving units end in one region |
| `MovementTheorems.MovementKeepsBoard` | engine/adjudicator.py:305-313 | movement takes a legal board to a legal board for every order set |
| `MovementTheorems.UnitsAreConserved` | engine/adjudicator.py:265-313 | the units before are exactly the survivors and the dislodged, types and factions unchanged |
| `MovementTheorems.UnitsAfterMovement` | engine/adjudicator.py:305-313 | after movement stand exactly the units not dislodged, each where its report says |
| `MovementTheorems.MovementTouchesOnlyUnits` | engine/adjudicator.py:305-313 | the new state differs from the old in its units only, and they are listed by region |
| `MovementTheorems.DislodgementIsJustified` | engine/adjudicator.py:213-278 | a stationary unit falls only to another faction's attack above its hold strength, a head-to-head loser only to a stronger attack, and any other failed mover to another faction's supported attack exactly when the attacker's move is not a fragile one whose ring the engine enters at that region |
| `MovementTheorems.DislodgementWithoutRings` | engine/adjudicator.py:213-278 | with no ring the last case always means another faction with strength two or more |
| `Dislodgement.DislodgedExactly` | engine/adjudicator.py:194-278 | a unit is reported dislodged by a given attacker exactly when the closed form grants that attacker's move into its region and does not grant the unit's own move |
| `Dislodgement.OwnDislodgementExactly` | engine/adjudicator.py:219-244 | for every board and order set a unit is dislodged by its own faction exactly when a prevailing move of its faction enters its region and either the two face each other or that move is fragile and the engine enters its ring there |
| `WrittenBoards.FacingOnBoard` | engine/adjudicator.py:221-242 | on any map, of two units of one faction that change places the supported one dislodges the other |
| `WrittenBoards.SwapHurtsItsOwn` | engine/adjudicator.py:221-242 | a legal board on a symmetric map, with orders, on which that happens |
| `WrittenBoards.SupportingUnitIsSupported` | engine/adjudicator.py:179-192 | on a board written out, a unit that supports another defends with strength two by a hold support of its own |
| `Supports.SupportIsMonotone` | engine/adjudicator.py:143-248 | turning a holding unit's order into support of a move keeps the move's verdict of success, rings included |
| `Supports.SupportKeepsOutcomes` | engine/adjudicator.py:194-252 | supporting a move the search lets succeed leaves every move it lets succeed successful, rings included |
| `Supports.SupportNeverHurts` | engine/adjudicator.py:143-248 | for every board and order set, rings included: a legal support added by a holding unit for a successful move leaves that move, and every other successful move, successful |
| `Retreats.GetRetreatOptions` | engine/adjudicator.py:335-360 | the loop collects the options of each dislodged unit's region, a repeated region replacing its earlier entry |
| `Retreats.ChooseRetreats` | engine/adjudicator.py:377-386 | the loop records each dislodged unit's legal choice, or none |
| `Retreats.RetreatUnlessColliding` | engine/adjudicator.py:388-404 | retreats to one region all fail |
| `Retreats.ResolveRetreats` | engine/adjudicator.py:363-404 | the imperative phase equals its specification |
| `Retreats.DislodgedReports` | engine/adjudicator.py:374-378 | movement hands over each dislodged unit once |
| `Retreats.RetreatExactly` | engine/adjudicator.py:335-404 | a dislodged unit ends in a region exactly when it asked for it, can reach it, nobody stands there, nobody disputed it, its attacker did not come from there, and no other such unit may have it; otherwise it is destroyed |
| `Retreats.UnitsAfterRetreats` | engine/adjudicator.py:407-418 | afterwards stand exactly the units left by movement and those that found a place |
| `Retreats.RetreatsTouchOnlyUnits` | engine/adjudicator.py:407-418 | the new state differs from the old in its units only, and they are listed by region |
| `Retreats.RetreatKeepsBoard` | engine/adjudicator.py:305-418 | movement and retreat take a legal board to a legal board for all orders |
| `Retreats.NoRetreatOrders` | engine/adjudicator.py:363-418 | with no retreat orders every dislodged unit is destroyed and the board is unchanged |
| `Retreats.UpdateSupplyCenterOwnership` | engine/adjudicator.py:426-433 | the loop computes the new owners and changes nothing else |
| `Retreats.OwnershipFollowsOccupation` | engine/adjudicator.py:426-433 | an occupied centre passes to its occupier and every other keeps its owner |
| `Retreats.OwnershipTouchesOnlyOwners` | engine/adjudicator.py:426-433 | the new state differs from the old in its owners only: no unit, region or faction changes |
| `Adjustment.ResolveFactionBuilds` | engine/adjudicator.py:504-533 | the loop with its early rejections equals the specification of one faction's builds |
| `Adjustment.ChooseDisbands` | engine/adjudicator.py:545-550 | the loop takes valid named disbands, once each, up to the number required |
| `Adjustment.FillDisbands` | engine/adjudicator.py:551-556 | the shortfall is filled from the remaining regions, last first |
| `Adjustment.ResolveAdjustments` | engine/adjudicator.py:478-560 | the imperative phase equals its specification |
| `AdjustmentAnswers.CountsExactly` | engine/adjudicator.py:470-475 | units and centres of a faction counted as sets of regions |
| `AdjustmentAnswers.BuildsOfExactly` | engine/adjudicator.py:499-503 | the builds considered for a faction are exactly its own of the full list, in order |
| `AdjustmentAnswers.DisbandsOfExactly` | engine/adjudicator.py:541-546 | the same for the disbands it named |
| `AdjustmentAnswers.AnswerExactly` | engine/adjudicator.py:504-533 | each build is answered with the first check it fails, in the order of the checks, or accepted when it fails none |
| `AdjustmentAnswers.BuildResultsAreFactions` | engine/adjudicator.py:499-533 | the results reported for a faction answer its own orders one by one, factions in ascending order |
| `AdjustmentAnswers.DisbandResultsAreFactions` | engine/adjudicator.py:536-560 | the disbands reported for a faction are those decided for it |
| `AdjustmentTheorems.BuildExactly` | engine/adjudicator.py:507-533 | a build is accepted exactly when its region is the faction's own unoccupied home centre on fit terrain, was not built on before, and the allowance was not used up |
| `AdjustmentTheorems.NewUnits` | engine/adjudicator.py:502-533 | accepted builds of all factions stand apart from each other and from every unit, although the engine only tracks regions used by one faction |
| `AdjustmentTheorems.FactionDisbandsFacts` | engine/adjudicator.py:541-558 | a faction loses exactly as many distinct units as required, named ones before any default, defaults by descending region |
| `AdjustmentTheorems.FirstNamedGoFirst` | engine/adjudicator.py:545-550 | when more units are named than required, the first named go |
| `AdjustmentTheorems.UnitsAfterAdjustment` | engine/adjudicator.py:563-571 | afterwards stand exactly the units not disbanded and the accepted builds |
| `AdjustmentTheorems.AdjustmentKeepsBoard` | engine/adjudicator.py:563-571 | adjustment takes a legal board to a legal board for all orders |
| `AdjustmentTheorems.UnitsMatchCenters` | engine/adjudicator.py:470-571 | no faction has more units than centres, exactly as many if it owed disbands, and builds stay within the allowance |
| `AdjustmentTheorems.AdjustmentTouchesOnlyUnits` | engine/adjudicator.py:563-571 | the new state differs from the old in its units only, and they are listed by region |
| `AdjustmentTheorems.DefaultDisbands` | engine/adjudicator.py:536-571 | with nothing ordered no unit is new, every faction keeps the smaller of its units and its centres, and no unit goes while one of its faction in a later region stays |
| `Rounds.RoundKeepsBoard` | engine/adjudicator.py:305-571 | movement, retreat, ownership and adjustment together keep the board legal, the map fixed, and units within centres |
| `Rounds.RoundsKeepBoard` | engine/adjudicator.py:305-571 | so does any number of rounds with any orders |
| `Canonical.EntriesRoundTrip` | engine/hashing.py:67-68 | a dictionary survives being listed in key order and read back |
| `Canonical.CanonicalExactly` | engine/hashing.py:25-75 | two states have one canonical form exactly when they are equal with units read as a multiset |
| `Canonical.CanonicalFormListed` | engine/hashing.py:25-75 | the canonical form lists every entry of every dictionary once by strictly ascending key, and all units by region, then faction, then army before fleet |
| `Canonical.DecodeCanonical` | engine/hashing.py:83-111 | decoding a canonical form gives back the board |
| `Canonical.FromEntriesExactly` | engine/hashing.py:83-111 | a dictionary read from entries has under each key the value of its last entry |
| `Canonical.CanonicalRoundTrip` | engine/hashing.py:83-116 | decoding and encoding again is the identity on canonical forms |
| `Canonical.MovementIgnoresListing` | engine/adjudicator.py:123-123 | movement on a legal board does not depend on the listing of its units, so adjudicating the stored form changes nothing |
| `Canonical.OrderRoundTrip` | engine/orders.py:69-79 | every order is rebuilt from its dictionary |
| `Canonical.OrderFields` | engine/orders.py:69-79 | the dictionaries read as a given order are exactly those with its type and its parameters and nothing else |
| `Canonical.OrdersFields` | coordinator/orders.py:41-48 | a stored list is read as orders exactly when each of its dictionaries is |
| `Canonical.OrdersRoundTrip` | coordinator/orders.py:41-48 | order sets survive storage |
| `Verification.VerifyStart` | client/verification.py:98-106 | the anchor's issues |
| `Verification.VerifyLink` | client/verification.py:110-127 | one link's issues, each reason exactly when its check fails, or the error raised for a previous hash that is not hexadecimal |
| `Verification.VerifyHistory` | client/verification.py:72-131 | the loop raises exactly when some link does, and otherwise reports every failure of every link in order, ok exactly when there is none, and one check for each link |
| `Verification.IssuesExactly` | client/verification.py:72-131 | a link has an issue of bad signature, bad hash or broken chain exactly when that check fails on it, with its index, turn and phase; index 0 has exactly the anchor's two; and there are no others |
| `Verification.HexadecimalExactly` | client/verification.py:63-69 | a previous hash is readable exactly when it is made up of pairs of hexadecimal digits and spaces between them |
| `Verification.RaisesExactly` | client/verification.py:63-69 | checking a link raises exactly when its payload decodes and its previous hash is a non-empty text that is not so made up |
| `Verification.ChainedExactly` | client/verification.py:67-68 | a previous hash counts as none exactly when there is none or it consists of spaces |
| `Verification.CleanExactlyWhenGood` | client/verification.py:72-131 | there are no issues exactly when every link is signed, hashes to its claim and follows its predecessor |
| `Verification.GoodNeverRaises` | client/verification.py:63-69 | checking such a history raises no error and reports no issue |
| `Verification.SegmentIsGood` | client/verification.py:80-92 | any contiguous part of a good history is good without its anchor |
| `Verification.HistoriesWithOneEnd` | client/verification.py:54-131 | two good anchored histories with one last hash agree in length and in the board at every index |
| `Verification.TamperEvidence` | client/verification.py:54-131 | the same in terms of two clean client reports |
| `Verification.LabelsAreUnprotected` | client/verification.py:49-69 | changing the phase, turn and year labels of any link leaves a history exactly as good as it was, with the same boards and hashes |
| `Verification.VerifyChain` | engine/hashing.py:136-149 | true exactly when the lists match in length and every hash is its state's, chained to the one before |
| `Verification.ReproduceAndCompare` | client/verification.py:134-147 | the local result is the re-adjudicated board and the flag compares unchained hashes |
| `Verification.ReproductionIsExact` | client/verification.py:147-147 | the comparison accepts exactly the claims that are that board |
| `Phases.AdvanceMovesForward` | coordinator/phases.py:50-88 | every transition of an active match moves strictly forward and keeps year in step with turn; retreat is entered exactly from a resolution with dislodgements, build exactly when adjustment is needed after a retreat or a resolution without any |
| `Progress.LeavesOrdersExactly` | coordinator/match.py:461-496 | in every run: from orders the match goes to retreat of the same turn exactly when some report of the movement on the recorded board is dislodged; otherwise to build exactly when some faction's unit and centre counts differ on the new board; otherwise to orders of the next turn |
| `Progress.LeavesRetreatExactly` | coordinator/match.py:477-496 | in every run: from retreat it goes to build exactly when some such counts differ, otherwise to the next turn's orders, and the board stays |
| `Progress.LeavesBuildExactly` | coordinator/match.py:487-496 | in every run: from build it always goes to the next turn's orders, each faction cut back to its centres by losing its last regions, and nothing else changed |
| `Progress.AdvancesEnter` | coordinator/match.py:498-542 | in every run: an advance of an active match appends one row and one broadcast for the phase it lands in, and sets and announces the deadline with the time that very phase is allowed; any other advance changes nothing |
| `Progress.StartExactly` | coordinator/match.py:334-386 | in every run: a match starts exactly from a lobby of seven, with the initial board twice on record and the deadline of an orders phase set and announced; otherwise nothing changes |
| `Progress.EndExactly` | coordinator/match.py:388-404 | in every run: ending an active match completes it in place and announces the newest row's hash; otherwise nothing changes |
| `Progress.PollExactly` | coordinator/match.py:426-446 | in every run: a poll at or past the deadline does what an advance does, one in the last hour before it warns with the time left unless that was done already, and any other does nothing |
| `Progress.AtMostOneWarning` | coordinator/match.py:424-446 | in every run: at most one warning is sent from one phase entry, resumption or restart to the next |
| `Records.OrdersRowsArePlayedOut` | coordinator/match.py:461-500 | in every run: the board recorded after an orders row is that row's board with exactly the units its reports do not dislodge, once each at their final regions, and each occupied centre with its occupier; nothing else is different |
| `Records.RecordsBegin` | coordinator/match.py:334-386 | in every run: a record begins with the initial board at turn 1's diplomacy and again at its orders, and later steps only append to it |
| `Records.EveryRowIsSent` | coordinator/match.py:498-571 | in every run: the start message carries row 0 and each broadcast the next row, with board, hash, previous hash and signature; each row is hashed onto the one before and signed |
| `Progress.NothingIsTakenBack` | coordinator/match.py:100-571 | in every run: no event, a restart included, takes back a row, a player, an order key or anything that was sent |
| `Store.Latest` | coordinator/persistence.py:351-360 | the newest revision of a player for a turn, if there is any |
| `Store.FindRow` | coordinator/persistence.py:413-432 | the row of a turn and phase, if there is one |
| `Store.MatchStore.AddPlayer` | coordinator/persistence.py:281-302 | adds a player unless the key has joined already; nothing else changes |
| `Store.MatchStore.RecordOrderSubmission` | coordinator/persistence.py:321-340 | inserts a revision unless its key is taken; nothing else changes |
| `Store.MatchStore.UpdateOrderStatus` | coordinator/persistence.py:342-349 | changes one row's status, or reports that there is no such row; nothing else changes |
| `Store.MatchStore.RecordPhaseResult` | coordinator/persistence.py:391-411 | appends a row unless its turn and phase are taken; nothing else changes |
| `OrderDesk.HandleOrderSubmit` | coordinator/orders.py:62-114 | the rows after a submission, and a receipt that is accepted exactly for a known player in the orders phase with a revision above all earlier ones and a valid order set |
| `OrderDesk.HandleOrderCancel` | coordinator/orders.py:117-167 | the rows after a cancellation, and its receipt, including the integrity error for a repeated revision |
| `OrderDesk.GetEffectiveOrders` | coordinator/orders.py:200-213 | the loop computes the orders that count |
| `OrderDesk.SubmitWritesRegister` | coordinator/orders.py:81-105 | the revision log acts as one slot a player and turn: an accepted submission fills it, a recorded rejection empties it, anything else leaves all slots alone |
| `OrderDesk.SubmitRows` | coordinator/orders.py:81-105 | row by row: a submission is filed exactly for a player in the orders phase with a revision above all before it; an accepted one supersedes the newest row before it, and no other row changes |
| `OrderDesk.CancelEmptiesRegister` | coordinator/orders.py:133-158 | a cancellation in the orders phase empties the slot whatever its revision, even when refused |
| `OrderDesk.CancelRows` | coordinator/orders.py:133-158 | row by row: a cancellation supersedes the newest row exactly if it is accepted, is filed as an empty row exactly if its key is free, and no other row changes |
| `Slots.LogIsRegister` | coordinator/orders.py:81-158 | in every reached world the log of revisions reads, for every player and turn, as one abstract slot filled and emptied by the run's submissions and cancellations, with validity judged on the turn's starting board |
| `Counterexamples.OpeningStarts` | coordinator/match.py:334-386 | seven joins and a start, in a lobby with seven factions, open the first turn's orders phase |
| `Counterexamples.RejectionHidesExactly` | coordinator/orders.py:76-105 | in any run a submission takes an accepted one out of force exactly when it comes in the orders phase with a higher revision and orders not valid on the turn's starting board, against the documented promise |
| `Counterexamples.RejectionEmptiesSlot` | coordinator/orders.py:76-105 | in any match resting in its orders phase, an accepted submission followed by an invalid one with the next revision leaves the player with no orders |
| `Counterexamples.RejectionLosesOrders` | coordinator/orders.py:76-105 | in any match resting in its orders phase, each order of the accepted submission counts before the invalid one arrives and none does after |
| `Counterexamples.RejectionHappens` | coordinator/orders.py:76-105 | such a run, written out for every match: right after the opening, an order for a unit of the player's faction counts until ordering one region twice takes it out of force |
| `Counterexamples.SomethingToOrder` | coordinator/lobby.py:50-70 | every player of a started match has such an order when each faction starts with a unit |
| `Engine.PlayOrders` | coordinator/match.py:464-472 | leaving orders: the new board and whether anyone was dislodged |
| `Engine.PlayRetreats` | coordinator/match.py:477-484 | leaving retreat: movement again, then retreats without orders |
| `Engine.PlayBuilds` | coordinator/match.py:487-490 | leaving build: adjustment without orders |
| `Engine.RetreatChangesNothing` | coordinator/match.py:477-486 | the board on leaving retreat is the board on leaving orders |
| `Engine.EngineIsDependable` | coordinator/match.py:464-493 | each phase keeps boards legal on the match's own map |
| `Coordinator.MatchCoordinator.constructor` | coordinator/match.py:100-119 | taking up a match from its store is a restart: rows and broadcasts stay, the memory is new |
| `Coordinator.MatchCoordinator.HandleJoinRequest` | coordinator/lobby.py:29-91 | at most one new player, with a faction still free; a player who has one is answered with it again |
| `Coordinator.MatchCoordinator.OnJoinRequest` | coordinator/match.py:201-225 | makes the join step, and ignores the request exactly when the limiter does not admit it |
| `Coordinator.MatchCoordinator.OnOrderSubmit` | coordinator/match.py:227-241 | makes the submit step, validating against the stored board of the current phase |
| `Coordinator.MatchCoordinator.OnOrderCancel` | coordinator/match.py:243-255 | makes the cancel step |
| `Coordinator.MatchCoordinator.PersistPhaseResult` | coordinator/match.py:559-571 | stores a row chained to the newest one and signed |
| `Coordinator.MatchCoordinator.EnterPhase` | coordinator/match.py:498-530 | saves the state, the row and the deadline, the latter with the time the phase is allowed, and announces the phase, or stops at a taken place |
| `Coordinator.MatchCoordinator.Seed` | coordinator/lobby.py:120-153 | stores and sends the genesis link |
| `Coordinator.MatchCoordinator.StartMatch` | coordinator/match.py:334-386 | makes the start step |
| `Coordinator.MatchCoordinator.ResolveOrders` | coordinator/match.py:464-476 | where the match goes from orders, with which board, from stored rows alone |
| `Coordinator.MatchCoordinator.ResolveRetreats` | coordinator/match.py:477-486 | where it goes from retreat |
| `Coordinator.MatchCoordinator.ResolveBuilds` | coordinator/match.py:487-491 | where it goes from build |
| `Coordinator.MatchCoordinator.AdvancePhase` | coordinator/match.py:448-530 | makes the advance step |
| `Coordinator.MatchCoordinator.EndMatch` | coordinator/match.py:388-404 | makes the end step |
| `Coordinator.MatchCoordinator.Pause` | coordinator/match.py:406-414 | makes the pause step |
| `Coordinator.MatchCoordinator.Resume` | coordinator/match.py:416-424 | makes the resume step |
| `Coordinator.MatchCoordinator.CheckDeadline` | coordinator/match.py:426-446 | makes the polling step: advance when expired, warn once when close |
| `Steps.JoinKeepsPlayersDistinct` | coordinator/lobby.py:50-70 | joining keeps players and their factions pairwise distinct |
| `Seats.JoinExactly` | coordinator/match.py:201-225 | in every run with a forward clock: a request seats its sender, with a faction of the board nobody plays, exactly when the match is in its lobby, the sender has no seat, fewer than seven are taken, a faction is left, and fewer than five of its requests were let through within the last minute; and it changes nothing else |
| `Seats.AnyFreeFactionMayBeDrawn` | coordinator/lobby.py:54-60 | the draw may give a newcomer any faction that is left |
| `Steps.ResolutionIsRight` | coordinator/match.py:464-496 | an active match always resolves, to a later resting phase, with a legal board that on leaving orders is the adjudicated one |
| `Steps.AdvanceKeeps` | coordinator/match.py:448-530 | advancing an active match never fails, never meets a taken place, and keeps the invariant |
| `Steps.StartKeeps` | coordinator/match.py:334-386 | starting succeeds exactly for a full lobby, never meets a taken place, and keeps the invariant |
| `Steps.StepKeeps` | coordinator/match.py:201-530 | every operation keeps the invariant |
| `Steps.RunsKeepInvariant` | coordinator/match.py:201-530 | every run from a new match keeps it |
| `Runs.RunsAreOrderly` | coordinator/match.py:334-571 | in every run a started match rests in orders, retreat or build with year equal to turn, rows stand at strictly increasing positions with the newest at the current one, the turn's starting board is on record, all boards are legal, and no write meets a taken place |
| `Runs.CompletedIsFrozen` | coordinator/phases.py:43-64 | a completed match gains no phase row, no broadcast result and no new state, whatever follows |
| `Runs.ClientAcceptsEveryRun` | client/verification.py:72-131 | everything broadcast in any run gives a clean report, and so does any contiguous part without the anchor |
| `Runs.ClientReproducesEveryOrdersPhase` | client/verification.py:134-147 | re-adjudicating any broadcast orders phase with the orders that counted matches the next broadcast |
| `Runs.StepFixesPast` | coordinator/match.py:477-486 | once a turn's orders phase is left, no operation changes that turn's order rows or starting board |
| `Runs.MovementIsRederived` | coordinator/match.py:477-486 | the movement derived again later in the turn is the movement resolved on leaving orders, whatever happens in between |
| `Runs.RetreatRecordsTheSameBoard` | coordinator/match.py:477-500 | the row written on leaving retreat holds the very canonical form of the row written on entering it |
| `Balance.TurnsOpenWithinCenters` | coordinator/match.py:464-500 | in every run, each row that opens a turn after the first holds a board on which no faction has more units than centres |
| `Runs.EffectiveOrdersAreDisjointUnion` | coordinator/orders.py:200-213 | in every run the orders that count are the disjoint union of the players' standing submissions, each for a unit of its own player's faction on the turn's starting board |
| `Clock.DeadlineIsExact` | coordinator/match.py:406-446 | in a phase entered unpaused exactly one of deadline and remainder is set, and the deadline has expired exactly when the clock runs and has run for the phase's duration in all |
| `Clock.AdvancingWhilePaused` | coordinator/match.py:498-504 | a phase entered while paused starts with both set, and resuming gives it the old remainder |
| `Clock.BothSetExactly` | coordinator/match.py:406-504 | both are set exactly from an advance made while paused until the next pause or resumption |
| `Counterexamples.PausedAdvanceSetsBoth` | coordinator/match.py:406-504 | any active match of any run comes, by a pause and an advance, to where both are set |
| `Counterexamples.BothSetHappens` | coordinator/match.py:406-504 | such a run, written out for every match, from its opening |
| `Clock.EveryRunIsTimed` | coordinator/match.py:334-504 | in every run a started match has a deadline or a remainder |
| `JoinLimiter.AdmittedExactly` | coordinator/match.py:201-213 | the pruned log admits an attempt exactly when fewer than five of all attempts let through so far are less than sixty seconds old |
| `JoinLimiter.AtMostFivePerWindow` | coordinator/match.py:83-84 | at most five attempts of one key are let through in any half-open window of sixty seconds |
| `JoinLimiter.RunsKeepTheLog` | coordinator/match.py:201-213 | in every run the limiter's memory is the log of the join requests since the last restart, and what the run let through is what that log did |
| `JoinLimiter.AtMostFiveInEveryRun` | coordinator/match.py:201-213 | in every run with a forward clock, whatever else happens in it, at most five join requests of one key are let through in any such window since the last restart |

## Left out

- Digests and signatures: a digest is a term built from the previous digest and the canonical form, and
  a signature a term built from key and digest, so that collisions and forgeries do not exist by
  construction; SHA-256, Ed25519 and the concatenation of bytes under the digest are not modelled.
- The byte layout of msgpack: packed data are structures, and bytes that do not unpack are one
  constructor.
- Two spellings of one previous hash, by case or by spaces, are different texts here, though the client
  hashes the same bytes for both; what is empty or not hexadecimal is modelled as the client treats it.
- `JoinLimiter.AtMostFiveInEveryRun`: counts from the last restart, since a restart empties the limiter's
  memory in the source too.
- The order of the player list (by time of joining) and display names: players are listed as they joined.
- The random choice of a faction is the parameter `draw`.
- Time is a real number; rounding of floating-point clocks is not modelled.
- One database holds one match here, so match identifiers are dropped.
- Crashes inside one coordinator operation: an operation's several transactions are one step, and
  restarts come between operations.
- Draw proposals and votes: an accepted draw is the step `EndMatch`.
- Message envelopes, sequence numbers, replay protection, wire encoding and wire validation.
- `handle_order_status`, `_on_state_request` and `_on_discover_game`: read-only answers.
- `hash_orders`: receipts carry no order hash.
- The thirty regions of the fixed map: the adjacency, the regions and the home centres are arbitrary.
- Transports, identities, logging, the server loop, the admin queue, the command line and the
  client's negotiation and order helpers.
- `get_legal_moves` and the client's queries for valid options.
