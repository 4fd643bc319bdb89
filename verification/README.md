# Janken round engine in Dafny

A model of the game logic behind the janken (rock-paper-scissors) screen
`JankenBattleView` in `Day2Homework/JankenBattleView.swift`. The screen
animates the computer's hand with a timer, lets the player pick gu (rock),
choki (scissors) or pa (paper), judges the round and keeps a running
win/lose/draw tally that survives "play again".

Modules, one per concept of the source:

- `Optionals` (`optionals.dfy`): `Option`, standing for Swift's `Optional`.
- `Hands` (`hands.dfy`): the `Hand` enum, `allCases`, `FirstIndex` (standing
  for `Collection.firstIndex(of:)` on `allCases`) and `Hand.nextHand(from:)`.
  `Beats` is a reference definition of the outcome rule. It says that a hand
  beats the hand that follows it in the cycle gu, choki, pa.
- `Judge` (`judge.dfy`): `GameResult` and `determineResult`.
- `Round` (`round.dfy`): the view's state (`finish`, `computerHand`,
  `playerHand`, the `GameCount` tally) and its three transitions: the timer
  tick, `playerHandSelected` and `reset`.
- `Session` (`session.dfy`): the screen as the user drives it. It has timer
  events, the three hand buttons (disabled while `finish` holds) and the retry
  button (shown only while `finish` holds). It also replays event sequences,
  recursively (`Run`) and as a loop (`PlaySession`).

Decisions worth knowing:

- `playerHandSelected` itself has no guard in the source. It is modelled as a
  total function. The "select only while not finished" rule comes from the
  buttons' `.disabled(finish)` (line 81), and `Session.Step` models it.
- A selection made before the first tick of a round is counted as a draw
  against no hand. That happens at start-up or right after a retry, when
  `computerHand` is `nil`. This is what the code does (the `default` arm of
  `determineResult`), and `Session.PressBeforeFirstTickIsDraw` states it.
- The scenario lemmas record the code's outcomes: `(.choki, .gu)` is a loss
  (line 116) and `(.pa, .gu)` is a win (line 114).

## Model

| member | source | states |
|---|---|---|
| Hands.FirstIndex | Day2Homework/JankenBattleView.swift:34 | the index found is the first position holding the element, and `None` is returned exactly when the element does not occur |
| Hands.AllCasesListsEveryHandOnce | Day2Homework/JankenBattleView.swift:23-26 | `allCases` has three entries, and each hand's first index in it is its declaration position, so the `firstIndex` guard never falls back |
| Hands.NextHand | Day2Homework/JankenBattleView.swift:32-40 | no hand steps to gu; a present hand steps to a different hand, namely the one it beats |
| Hands.NextHandTable | Day2Homework/JankenBattleView.swift:32-40 | the cycle is gu to choki to pa to gu |
| Hands.NextHandInvertible | Day2Homework/JankenBattleView.swift:38-39 | stepping is a bijection on present hands, with an explicit inverse |
| Hands.NextHandPeriodThree | Day2Homework/JankenBattleView.swift:38-39 | three steps return to the starting hand and two steps do not |
| Hands.NextHandAdvancesIndex | Day2Homework/JankenBattleView.swift:38-39 | the hand at index k of `allCases` steps to the one at index (k + 1) mod 3 |
| Hands.AdvanceByIndex | Day2Homework/JankenBattleView.swift:38-39 | n steps move a hand's `allCases` position forward by n mod 3 |
| Judge.DetermineResult | Day2Homework/JankenBattleView.swift:112-121 | win exactly when both hands are present and the player's beats the computer's; lose exactly for the mirror case; draw exactly when a hand is missing or both are equal |
| Judge.ResultAntisymmetric | Day2Homework/JankenBattleView.swift:114-119 | swapping present hands swaps win and lose and keeps a draw; a hand against itself is a draw |
| Judge.WinAgainstNextHand | Day2Homework/JankenBattleView.swift:114-117 | the player wins exactly against the hand that follows theirs in the animation cycle, and loses exactly against the one before |
| Judge.ResultByRelativePosition | Day2Homework/JankenBattleView.swift:112-121 | among present hands, the opponent's position relative to the player's decides the result: after it means win, before it means lose, same means draw |
| Round.Tick | Day2Homework/JankenBattleView.swift:62-66 | a tick in a finished round changes nothing; otherwise it replaces the computer's hand with a different present one (gu from no hand, or the hand the old one beats) and leaves everything else alone |
| Round.PlayerHandSelected | Day2Homework/JankenBattleView.swift:134-146 | records the player's hand, sets `finish` and keeps the computer's hand; the counter for the round's outcome grows by one, no counter shrinks and the total grows by exactly one |
| Round.SelectionBumpsExactlyOneCounter | Day2Homework/JankenBattleView.swift:138-145 | each counter grows by one if it is the outcome's counter and by zero otherwise |
| Round.Reset | Day2Homework/JankenBattleView.swift:148-152 | clears both hands and `finish` and keeps the tally, giving the initial state with the old tally |
| Round.TransitionsKeepInv | Day2Homework/JankenBattleView.swift:134-152 | the initial state satisfies "finish iff the player has a hand", and tick, select and reset preserve it |
| Round.SelectBeforeTickIsDraw | Day2Homework/JankenBattleView.swift:134-146 | selecting while the computer shows no hand counts a draw and touches no other counter |
| Session.Step | Day2Homework/JankenBattleView.swift:62-92 | a tick changes nothing in a decided round and, in an open round, advances only the computer's hand; an enabled hand press records the hand, closes the round, keeps the computer's hand and adds one to exactly the counter of `determineResult` for that hand against the shown one; a disabled hand button and an absent retry button do nothing; retry gives the initial state with the old tally; no event lowers a counter or adds more than one round |
| Session.StepKeepsInv | Day2Homework/JankenBattleView.swift:62-92 | every user event preserves "finish iff the player has a hand" |
| Session.RunKeepsInv | Day2Homework/JankenBattleView.swift:5-9 | every state reached from a consistent one by any event sequence is consistent |
| Session.RunAppend | Day2Homework/JankenBattleView.swift:62-92 | replaying two event sequences one after the other is replaying their concatenation |
| Session.TallyNeverDecreases | Day2Homework/JankenBattleView.swift:138-145 | over any event sequence every counter is non-decreasing |
| Session.DecidedRoundIsFrozen | Day2Homework/JankenBattleView.swift:62-81 | once a round is decided, ticks and hand presses change nothing until retry |
| Session.TallyCountsEnabledPresses | Day2Homework/JankenBattleView.swift:70-81 | when every press reaches an open round, the total grows by exactly the number of presses |
| Session.TallyBoundedByPresses | Day2Homework/JankenBattleView.swift:70-81 | whatever the user does, the total grows by at most the number of presses |
| Session.RunTimerTicks | Day2Homework/JankenBattleView.swift:62-66 | replaying n timer events is applying the tick n times |
| Session.TicksOnlyMoveOpponent | Day2Homework/JankenBattleView.swift:62-66 | ticks never change `finish`, the player's hand or the tally |
| Session.TicksAdvanceCyclically | Day2Homework/JankenBattleView.swift:62-66 | in an open round, n ticks move the computer's hand n steps along the cycle |
| Session.TicksFromFreshRound | Day2Homework/JankenBattleView.swift:32-40 | from a fresh round, the n-th tick shows `allCases[(n - 1) mod 3]` and the tally is untouched |
| Session.ScenarioScissorsLoseToRock | Day2Homework/JankenBattleView.swift:112-146 | in any fresh round (start-up or after retry), one tick shows gu, and then choki loses: only the lose counter grows, by one (from start-up: 0/1/0) |
| Session.ScenarioRetryThenDraw | Day2Homework/JankenBattleView.swift:134-152 | after a start-up loss of choki against gu, retry and two ticks show choki; choki then draws and the tally becomes 0/1/1 |
| Session.ScenarioPaperBeatsRock | Day2Homework/JankenBattleView.swift:112-146 | in any fresh round (start-up or after retry), one tick shows gu, and then pa wins: only the win counter grows, by one (from start-up: 1/0/0) |
| Session.PressBeforeFirstTickIsDraw | Day2Homework/JankenBattleView.swift:112-146 | a press before a round's first tick keeps the computer's hand absent and counts one draw |
| Session.PlaySession | Day2Homework/JankenBattleView.swift:62-92 | a loop-based replay of the events (SwiftUI dispatches them one at a time to the handlers) computes the same state as the recursive `Run`, keeps the invariant, and counts at most one round per press |

## Left out

- Layout, images and `imageName`, `buttonColor` and the results sheet (`showSheet`) are presentation only.
- `JankenBattleView_Previews` is preview scaffolding.
- `judgementText` maps a result to a Japanese label. It is presentation; the result it labels is `Judge.DetermineResult`.
- `Timer.publish(every: 0.2, ...)` and its run-loop scheduling are real-time plumbing. One timer firing is modelled as the event `TimerTick`, and nothing is said about timing.
- SwiftUI's `@State` storage and re-rendering are not modelled. The state is a value, and each handler is a function from state to state.
- Round.PlayerHandSelected: the counters are unbounded naturals, so Swift's overflow trap on `Int` at `Int.max` is not modelled. No reachable session comes near it.
