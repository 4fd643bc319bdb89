/** The three janken hands and the cyclic order in which the opponent's hand
    is animated (Day2Homework/JankenBattleView.swift, enum `Hand`). */
module Hands {
  import opened Optionals

  /** gu (rock), choki (scissors), pa (paper), in declaration order. */
  datatype Hand = Gu | Choki | Pa

  /** `Hand.allCases`: the cases in declaration order. */
  const AllCases: seq<Hand> := [Gu, Choki, Pa]

  /** Position of the first occurrence of `x` in `s`, as Swift's
      `Collection.firstIndex(of:)` returns it; `None` when `x` does not occur. */
  function FirstIndex<T(==)>(s: seq<T>, x: T): (r: Option<nat>)
    ensures r.Some? ==> r.value < |s| && s[r.value] == x && x !in s[..r.value]
    ensures r.None? <==> x !in s
  {
    if |s| == 0 then None
    else if s[0] == x then Some(0)
    else
      match FirstIndex(s[1..], x)
      case None => None
      case Some(i) =>
        assert s[..i + 1] == [s[0]] + s[1..][..i];
        Some(i + 1)
  }

  /** Position of a hand in the declaration order, by cases. */
  function Rank(h: Hand): nat
  {
    match h
    case Gu => 0
    case Choki => 1
    case Pa => 2
  }

  /** `a` beats `b` exactly when `b` comes right after `a` in the cyclic
      order gu, choki, pa, gu, ...: rock blunts scissors, scissors cut paper,
      paper wraps rock. */
  predicate Beats(a: Hand, b: Hand)
  {
    (Rank(a) + 1) % 3 == Rank(b)
  }

  lemma AllCasesListsEveryHandOnce(h: Hand)
    ensures |AllCases| == 3
    ensures AllCases[Rank(h)] == h
    ensures FirstIndex(AllCases, h) == Some(Rank(h))
  {
  }

  /** `Hand.nextHand(from:)`: no hand counts as "before gu"; otherwise step
      to the next element of `allCases`, wrapping around at the end. */
  function NextHand(current: Option<Hand>): (r: Hand)
    ensures current.None? ==> r == Gu
    ensures current.Some? ==> Beats(current.value, r) && r != current.value
  {
    match current
    case None => Gu
    case Some(h) =>
      match FirstIndex(AllCases, h)
      case None => Gu
      case Some(i) => AllCases[(i + 1) % |AllCases|]
  }

  /** The hand that `NextHand` steps from to reach `h`. */
  function PrevHand(h: Hand): Hand
  {
    AllCases[(Rank(h) + 2) % 3]
  }

  /** The cycle written out: gu, choki, pa, and back to gu. */
  lemma NextHandTable()
    ensures NextHand(Some(Gu)) == Choki
    ensures NextHand(Some(Choki)) == Pa
    ensures NextHand(Some(Pa)) == Gu
  {
  }

  /** Stepping is a bijection on present hands: `PrevHand` undoes it both ways. */
  lemma NextHandInvertible(h: Hand)
    ensures PrevHand(NextHand(Some(h))) == h
    ensures NextHand(Some(PrevHand(h))) == h
  {
    NextHandTable();
  }

  /** Three steps from any present hand come back to it, and no fewer do. */
  lemma NextHandPeriodThree(h: Hand)
    ensures NextHand(Some(NextHand(Some(NextHand(Some(h)))))) == h
    ensures NextHand(Some(NextHand(Some(h)))) != h
  {
    NextHandTable();
  }

  /** The successor of the hand at index `k` of `allCases` is the one at
      index `(k + 1) mod 3`. */
  lemma NextHandAdvancesIndex(k: nat)
    requires k < 3
    ensures NextHand(Some(AllCases[k])) == AllCases[(k + 1) % 3]
  {
    NextHandTable();
  }

  /** The hand `n` steps after `h` in the cycle. */
  function Advance(h: Hand, n: nat): Hand
    decreases n
  {
    if n == 0 then h else Advance(NextHand(Some(h)), n - 1)
  }

  /** `n` steps from `h` reach the hand whose position in `allCases` is
      `n` places (mod 3) after the position of `h`. */
  lemma {:induction false} AdvanceByIndex(h: Hand, n: nat)
    decreases n
    ensures Rank(Advance(h, n)) == (Rank(h) + n) % 3
  {
    if n > 0 {
      var next := NextHand(Some(h));
      NextHandTable();
      assert Rank(next) == (Rank(h) + 1) % 3;
      AdvanceByIndex(next, n - 1);
      ModThreeShift(Rank(h), n);
    }
  }

  /** The mod-3 rewrite `AdvanceByIndex` uses to take one step off `n`. */
  lemma ModThreeShift(k: nat, n: nat)
    requires k < 3 && n > 0
    ensures ((k + 1) % 3 + (n - 1)) % 3 == (k + n) % 3
  {
  }
}
