/** The round state of the janken screen and its three transitions
    (Day2Homework/JankenBattleView.swift, the `@State` properties, the timer
    handler, `playerHandSelected` and `reset`). */
module Round {
  import opened Optionals
  import opened Hands
  import opened Judge

  /** `GameCount`: the running tally, kept across rounds. */
  datatype GameCount = GameCount(win: nat, lose: nat, draw: nat)

  /** The counter of `g` that records outcome `r`. */
  function Count(g: GameCount, r: GameResult): nat
  {
    match r
    case Win => g.win
    case Lose => g.lose
    case Draw => g.draw
  }

  /** Number of rounds the tally records. */
  function Total(g: GameCount): nat
  {
    g.win + g.lose + g.draw
  }

  /** Every counter of `g` is at most the matching counter of `h`. */
  predicate Le(g: GameCount, h: GameCount)
  {
    g.win <= h.win && g.lose <= h.lose && g.draw <= h.draw
  }

  /** The tally after one more round with outcome `r` (the `switch` at the
      end of `playerHandSelected`). */
  function Record(g: GameCount, r: GameResult): GameCount
  {
    match r
    case Win => g.(win := g.win + 1)
    case Lose => g.(lose := g.lose + 1)
    case Draw => g.(draw := g.draw + 1)
  }

  /** The view's state: whether the round is decided, the opponent's
      (computer's) hand, the player's hand, and the tally. */
  datatype State = State(finish: bool, computerHand: Option<Hand>, playerHand: Option<Hand>, result: GameCount)

  /** The state the view starts in. */
  const Init: State := State(false, None, None, GameCount(0, 0, 0))

  /** A round is decided exactly when the player has chosen a hand. */
  predicate Inv(s: State)
  {
    s.finish <==> s.playerHand.Some?
  }

  /** One timer tick: while the round is open the opponent's hand advances
      one step through the cycle; once it is decided the tick is ignored. */
  function Tick(s: State): (t: State)
    ensures s.finish ==> t == s
    ensures !s.finish ==> t.computerHand.Some? && t.computerHand != s.computerHand
    ensures !s.finish && s.computerHand.None? ==> t.computerHand == Some(Gu)
    ensures !s.finish && s.computerHand.Some? ==> Beats(s.computerHand.value, t.computerHand.value)
    ensures t.finish == s.finish && t.playerHand == s.playerHand && t.result == s.result
  {
    if !s.finish then s.(computerHand := Some(NextHand(s.computerHand))) else s
  }

  /** `playerHandSelected`: record the player's hand, close the round and
      count its outcome against the opponent's current hand. */
  function PlayerHandSelected(s: State, h: Hand): (t: State)
    ensures t.playerHand == Some(h) && t.finish
    ensures t.computerHand == s.computerHand
    ensures Count(t.result, DetermineResult(Some(h), s.computerHand))
         == Count(s.result, DetermineResult(Some(h), s.computerHand)) + 1
    ensures Total(t.result) == Total(s.result) + 1 && Le(s.result, t.result)
  {
    s.(playerHand := Some(h), finish := true, result := Record(s.result, DetermineResult(Some(h), s.computerHand)))
  }

  /** Selecting a hand adds one to the counter of the round's outcome and
      leaves the other two counters as they were. */
  lemma SelectionBumpsExactlyOneCounter(s: State, h: Hand, r: GameResult)
    ensures Count(PlayerHandSelected(s, h).result, r)
         == Count(s.result, r) + (if r == DetermineResult(Some(h), s.computerHand) then 1 else 0)
  {
  }

  /** `reset`: open a new round with no hands shown; the tally is kept. */
  function Reset(s: State): (t: State)
    ensures !t.finish && t.computerHand.None? && t.playerHand.None?
    ensures t.result == s.result
    ensures t == Init.(result := s.result)
  {
    s.(finish := false, computerHand := None, playerHand := None)
  }

  /** Each transition keeps "decided iff the player has chosen", starting
      from the initial state where it holds. */
  lemma TransitionsKeepInv(s: State, h: Hand)
    requires Inv(s)
    ensures Inv(Init)
    ensures Inv(Tick(s))
    ensures Inv(PlayerHandSelected(s, h))
    ensures Inv(Reset(s))
  {
  }

  /** A selection counted against a missing opponent hand (the player
      pressing before the first tick of a round) is recorded as a draw. */
  lemma SelectBeforeTickIsDraw(s: State, h: Hand)
    requires s.computerHand.None?
    ensures PlayerHandSelected(s, h).result == s.result.(draw := s.result.draw + 1)
  {
  }
}
