/** The outcome rule (Day2Homework/JankenBattleView.swift, `GameResult` and
    `determineResult`). Results are from the player's point of view. */
module Judge {
  import opened Optionals
  import opened Hands

  datatype GameResult = Win | Lose | Draw

  /** `determineResult(playerHand:computerHand:)`: three winning pairs, three
      losing pairs, and a draw for everything else, including a missing hand
      on either side. */
  function DetermineResult(player: Option<Hand>, computer: Option<Hand>): (r: GameResult)
    ensures r == Win <==> player.Some? && computer.Some? && Beats(player.value, computer.value)
    ensures r == Lose <==> player.Some? && computer.Some? && Beats(computer.value, player.value)
    ensures r == Draw <==> player.None? || computer.None? || player == computer
  {
    match player
    case None => Draw
    case Some(p) =>
      match computer
      case None => Draw
      case Some(c) =>
        match (p, c)
        case (Gu, Choki) => Win
        case (Choki, Pa) => Win
        case (Pa, Gu) => Win
        case (Gu, Pa) => Lose
        case (Choki, Gu) => Lose
        case (Pa, Choki) => Lose
        case _ => Draw
  }

  /** Swapping the two present hands swaps win and lose, and a hand drawn
      against itself is a draw. */
  lemma ResultAntisymmetric(p: Hand, o: Hand)
    ensures DetermineResult(Some(p), Some(o)) == Win <==> DetermineResult(Some(o), Some(p)) == Lose
    ensures DetermineResult(Some(p), Some(o)) == Draw <==> DetermineResult(Some(o), Some(p)) == Draw
    ensures DetermineResult(Some(p), Some(p)) == Draw
  {
  }

  /** The player wins exactly against the hand the animation shows right
      after the player's own hand. */
  lemma WinAgainstNextHand(p: Hand, o: Hand)
    ensures DetermineResult(Some(p), Some(o)) == Win <==> o == NextHand(Some(p))
    ensures DetermineResult(Some(p), Some(o)) == Lose <==> p == NextHand(Some(o))
  {
    NextHandTable();
  }

  /** Among present hands the opponent's hand is exactly one of: the hand
      after the player's (win), the hand before it (lose), or the same hand
      (draw), and which of the three it is decides the result. The win clause
      restates `WinAgainstNextHand`'s first one as part of this trichotomy. */
  lemma ResultByRelativePosition(p: Hand, o: Hand)
    ensures o == NextHand(Some(p)) <==> DetermineResult(Some(p), Some(o)) == Win
    ensures o == PrevHand(p) <==> DetermineResult(Some(p), Some(o)) == Lose
    ensures o == p <==> DetermineResult(Some(p), Some(o)) == Draw
  {
    NextHandTable();
  }
}
