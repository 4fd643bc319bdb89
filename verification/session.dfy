/** The screen as the user drives it: timer ticks, the three hand buttons
    (disabled while a round is decided) and the retry button (shown only
    while a round is decided), applied in order to the round state. */
module Session {
  import opened Optionals
  import opened Hands
  import opened Judge
  import opened Round

  datatype Event = TimerTick | HandButton(hand: Hand) | RetryButton

  /** One user-visible event. A pressed hand button is ignored when it is
      disabled, and the retry button does nothing when it is not shown. */
  function Step(s: State, e: Event): (t: State)
    ensures e.HandButton? && s.finish ==> t == s
    ensures e.RetryButton? && !s.finish ==> t == s
    ensures e.RetryButton? && s.finish ==> t == Init.(result := s.result)
    ensures e.TimerTick? ==> t.finish == s.finish && t.playerHand == s.playerHand && t.result == s.result
    ensures e.TimerTick? && s.finish ==> t == s
    ensures e.TimerTick? && !s.finish ==> t.computerHand == Some(NextHand(s.computerHand))
    ensures e.HandButton? && !s.finish ==> t.playerHand == Some(e.hand) && t.finish && t.computerHand == s.computerHand
    ensures e.HandButton? && !s.finish ==> Total(t.result) == Total(s.result) + 1
    ensures e.HandButton? && !s.finish ==>
              Count(t.result, DetermineResult(Some(e.hand), s.computerHand))
              == Count(s.result, DetermineResult(Some(e.hand), s.computerHand)) + 1
    ensures Le(s.result, t.result) && Total(t.result) <= Total(s.result) + 1
  {
    match e
    case TimerTick => Tick(s)
    case HandButton(h) => if s.finish then s else PlayerHandSelected(s, h)
    case RetryButton => if s.finish then Reset(s) else s
  }

  /** The state after the events of `evs`, first to last. */
  function Run(s: State, evs: seq<Event>): State
    decreases |evs|
  {
    if |evs| == 0 then s else Run(Step(s, evs[0]), evs[1..])
  }

  /** Number of hand-button presses in `evs`, enabled or not. */
  function Presses(evs: seq<Event>): nat
  {
    if |evs| == 0 then 0 else (if evs[0].HandButton? then 1 else 0) + Presses(evs[1..])
  }

  /** `n` copies of `e`. */
  function Repeat(e: Event, n: nat): (r: seq<Event>)
    ensures |r| == n
  {
    if n == 0 then [] else [e] + Repeat(e, n - 1)
  }

  /** Every hand-button press in `evs`, replayed from `s`, reaches an
      open round, i.e. no press is swallowed by a disabled button. */
  predicate PressesEnabled(s: State, evs: seq<Event>)
    decreases |evs|
  {
    |evs| == 0 || ((evs[0].HandButton? ==> !s.finish) && PressesEnabled(Step(s, evs[0]), evs[1..]))
  }

  lemma StepKeepsInv(s: State, e: Event)
    requires Inv(s)
    ensures Inv(Step(s, e))
  {
    match e
    case TimerTick =>
    case HandButton(h) => TransitionsKeepInv(s, h);
    case RetryButton =>
  }

  /** Any sequence of events keeps "decided iff the player has chosen";
      in particular every state reachable from `Init` satisfies it. */
  lemma {:induction false} RunKeepsInv(s: State, evs: seq<Event>)
    requires Inv(s)
    ensures Inv(Run(s, evs))
    decreases |evs|
  {
    if |evs| > 0 {
      StepKeepsInv(s, evs[0]);
      RunKeepsInv(Step(s, evs[0]), evs[1..]);
    }
  }

  /** Replaying `a` then `b` is replaying their concatenation. */
  lemma {:induction false} RunAppend(s: State, a: seq<Event>, b: seq<Event>)
    ensures Run(s, a + b) == Run(Run(s, a), b)
    decreases |a|
  {
    if |a| == 0 {
      assert a + b == b;
    } else {
      assert (a + b)[0] == a[0];
      assert (a + b)[1..] == a[1..] + b;
      RunAppend(Step(s, a[0]), a[1..], b);
    }
  }

  /** No event ever lowers a counter of the tally. */
  lemma {:induction false} TallyNeverDecreases(s: State, evs: seq<Event>)
    ensures Le(s.result, Run(s, evs).result)
    decreases |evs|
  {
    if |evs| > 0 {
      TallyNeverDecreases(Step(s, evs[0]), evs[1..]);
    }
  }

  /** Once a round is decided, nothing but the retry button changes the
      state: ticks leave the opponent's hand frozen and further presses
      are not counted. */
  lemma {:induction false} DecidedRoundIsFrozen(s: State, evs: seq<Event>)
    requires s.finish
    requires forall i :: 0 <= i < |evs| ==> evs[i] != RetryButton
    ensures Run(s, evs) == s
    decreases |evs|
  {
    if |evs| > 0 {
      assert evs[0] != RetryButton;
      DecidedRoundIsFrozen(Step(s, evs[0]), evs[1..]);
    }
  }

  /** When every press reaches an open round, the tally grows by exactly
      the number of presses. */
  lemma {:induction false} TallyCountsEnabledPresses(s: State, evs: seq<Event>)
    requires PressesEnabled(s, evs)
    ensures Total(Run(s, evs).result) == Total(s.result) + Presses(evs)
    decreases |evs|
  {
    if |evs| > 0 {
      TallyCountsEnabledPresses(Step(s, evs[0]), evs[1..]);
    }
  }

  /** Whatever the user does, the tally grows by at most one per press. */
  lemma {:induction false} TallyBoundedByPresses(s: State, evs: seq<Event>)
    ensures Total(Run(s, evs).result) <= Total(s.result) + Presses(evs)
    decreases |evs|
  {
    if |evs| > 0 {
      TallyBoundedByPresses(Step(s, evs[0]), evs[1..]);
    }
  }

  /** The state after `n` timer ticks and nothing else. */
  function Ticks(s: State, n: nat): State
    decreases n
  {
    if n == 0 then s else Ticks(Tick(s), n - 1)
  }

  /** Replaying `n` timer events is ticking `n` times. */
  lemma {:induction false} RunTimerTicks(s: State, n: nat)
    ensures Run(s, Repeat(TimerTick, n)) == Ticks(s, n)
    decreases n
  {
    if n > 0 {
      RunCons(s, TimerTick, Repeat(TimerTick, n - 1));
      RunTimerTicks(Tick(s), n - 1);
    }
  }

  /** Ticks move only the opponent's hand. */
  lemma {:induction false} TicksOnlyMoveOpponent(s: State, n: nat)
    ensures Ticks(s, n).finish == s.finish && Ticks(s, n).playerHand == s.playerHand
    ensures Ticks(s, n).result == s.result
    decreases n
  {
    if n > 0 {
      TicksOnlyMoveOpponent(Tick(s), n - 1);
    }
  }

  /** In an open round whose opponent shows `h`, `n` ticks show the hand
      `n` steps after `h` in the cycle. */
  lemma {:induction false} TicksAdvanceCyclically(s: State, h: Hand, n: nat)
    requires !s.finish && s.computerHand == Some(h)
    ensures Ticks(s, n).computerHand == Some(Advance(h, n))
    decreases n
  {
    if n > 0 {
      TicksAdvanceCyclically(Tick(s), NextHand(Some(h)), n - 1);
    }
  }

  /** From a fresh round, the first tick shows gu and the `n`-th shows
      `allCases[(n - 1) mod 3]`. */
  lemma TicksFromFreshRound(s: State, n: nat)
    requires !s.finish && s.computerHand.None? && n >= 1
    ensures Run(s, Repeat(TimerTick, n)).computerHand == Some(AllCases[(n - 1) % 3])
    ensures Run(s, Repeat(TimerTick, n)).result == s.result
  {
    RunTimerTicks(s, n);
    TicksOnlyMoveOpponent(s, n);
    TicksAdvanceCyclically(Tick(s), Gu, n - 1);
    AdvanceByIndex(Gu, n - 1);
    AllCasesListsEveryHandOnce(Advance(Gu, n - 1));
  }

  /** Replaying one more event of `evs` is one more step. */
  lemma RunExtend(s: State, evs: seq<Event>, i: nat)
    requires i < |evs|
    ensures Run(s, evs[..i + 1]) == Step(Run(s, evs[..i]), evs[i])
  {
    RunAppend(s, evs[..i], [evs[i]]);
    RunCons(Run(s, evs[..i]), evs[i], []);
    assert [evs[i]] + [] == [evs[i]];
    assert evs[..i + 1] == evs[..i] + [evs[i]];
  }

  /** Replaying a non-empty sequence is one step followed by the rest. */
  lemma RunCons(s: State, e: Event, evs: seq<Event>)
    ensures Run(s, [e] + evs) == Run(Step(s, e), evs)
  {
    assert ([e] + evs)[0] == e && ([e] + evs)[1..] == evs;
  }

  /** In a fresh round, a tick followed by a press of `p` closes the round
      against rock and counts the outcome `r` of `p` against rock. */
  lemma TickThenPress(s: State, p: Hand, r: GameResult)
    requires !s.finish && s.computerHand.None?
    requires DetermineResult(Some(p), Some(Gu)) == r
    ensures Step(Step(s, TimerTick), HandButton(p))
         == s.(computerHand := Some(Gu), finish := true, playerHand := Some(p), result := Record(s.result, r))
  {
    var shown := s.(computerHand := Some(Gu));
    assert Step(s, TimerTick) == shown;
  }

  /** In a fresh round (at start-up or after a retry), one tick shows
      rock; scissors against rock loses, and only the lose counter moves. */
  lemma ScenarioScissorsLoseToRock(s: State)
    requires s == Init.(result := s.result)
    ensures Step(s, TimerTick).computerHand == Some(Gu)
    ensures Step(Step(s, TimerTick), HandButton(Choki)) == State(true, Some(Gu), Some(Choki), s.result.(lose := s.result.lose + 1))
  {
    TickThenPress(s, Choki, Lose);
  }

  /** After a start-up loss of scissors against rock, retry, two ticks
      (rock, then scissors), then scissors against scissors: a draw, and
      the earlier loss still counts. */
  lemma ScenarioRetryThenDraw(s: State)
    requires s == State(true, Some(Gu), Some(Choki), GameCount(0, 1, 0))
    ensures Step(s, RetryButton) == State(false, None, None, GameCount(0, 1, 0))
    ensures Step(Step(Step(s, RetryButton), TimerTick), TimerTick).computerHand == Some(Choki)
    ensures Step(Step(Step(Step(s, RetryButton), TimerTick), TimerTick), HandButton(Choki))
         == State(true, Some(Choki), Some(Choki), GameCount(0, 1, 1))
  {
  }

  /** In a fresh round (at start-up or after a retry), one tick shows
      rock; paper against rock wins, and only the win counter moves. */
  lemma ScenarioPaperBeatsRock(s: State)
    requires s == Init.(result := s.result)
    ensures Step(s, TimerTick).computerHand == Some(Gu)
    ensures Step(Step(s, TimerTick), HandButton(Pa)) == State(true, Some(Gu), Some(Pa), s.result.(win := s.result.win + 1))
  {
    TickThenPress(s, Pa, Win);
  }

  /** Pressing a hand before the first tick of a round (at start-up, or
      right after a retry) counts a draw against no hand at all. */
  lemma PressBeforeFirstTickIsDraw(s: State, h: Hand)
    requires !s.finish && s.computerHand.None?
    ensures Step(s, HandButton(h)).computerHand.None?
    ensures Step(s, HandButton(h)).result == s.result.(draw := s.result.draw + 1)
  {
    SelectBeforeTickIsDraw(s, h);
  }

  /** An iterative replay of `evs`: the same fold as the recursive `Run`,
      written as a loop over one mutable state. It agrees with `Run`, keeps
      the invariant and never counts more rounds than presses. */
  method PlaySession(s: State, evs: seq<Event>) returns (t: State)
    requires Inv(s)
    ensures t == Run(s, evs)
    ensures Inv(t)
    ensures Total(t.result) <= Total(s.result) + Presses(evs)
  {
    t := s;
    var i := 0;
    while i < |evs|
      invariant 0 <= i <= |evs|
      invariant t == Run(s, evs[..i])
    {
      RunExtend(s, evs, i);
      t := Step(t, evs[i]);
      i := i + 1;
    }
    assert evs[..i] == evs;
    RunKeepsInv(s, evs);
    TallyBoundedByPresses(s, evs);
  }
}
