/**
 * The two navigation buttons of the plain flashcard flow: flip the card and
 * go to the next one, wrapping round at the end of the shuffled deck.
 */
module FlashcardLogic {
  import opened Wrappers
  import opened State

  /** `(index + 1) % len(cards)`, Python's `%`, which for a positive divisor agrees with Dafny's. */
  function NextIndex(index: int, n: int): (r: int)
    requires n > 0
    ensures 0 <= r < n
    ensures -1 <= index < n - 1 ==> r == index + 1
    ensures index == n - 1 ==> r == 0
  {
    (index + 1) % n
  }

  /** The index after `k` presses of "next". */
  function Advance(index: int, n: int, k: nat): (r: int)
    requires n > 0
    decreases k
  {
    if k == 0 then index else NextIndex(Advance(index, n, k - 1), n)
  }

  /** Up to `n` presses of "next" from a card in range land `k` cards further on, wrapping past the end once. */
  lemma {:induction false} AdvanceWraps(index: int, n: int, k: nat)
    requires 0 <= index < n && k <= n
    ensures Advance(index, n, k) == if index + k < n then index + k else index + k - n
  {
    if k > 0 {
      AdvanceWraps(index, n, k - 1);
    }
  }

  /** Going through the whole deck returns to the card one started on. */
  lemma FullRoundReturns(index: int, n: int)
    requires 0 <= index < n
    ensures Advance(index, n, n) == index
  {
    AdvanceWraps(index, n, n);
  }

  /** A session showing one of its cards: cards stored and non-empty, index among them, a side chosen. */
  predicate OnCard(d: SessionData) {
    && d.cards.Some? && |d.cards.value| > 0
    && d.index.Some? && 0 <= d.index.value < |d.cards.value|
    && d.showAnswer.Some?
  }

  /** `flip_card()`: turns the card over; nothing else changes. */
  method FlipCard(s: Session)
    requires s.showAnswer.Some?
    modifies s
    ensures s.Data() == old(s.Data()).(showAnswer := Some(!old(s.showAnswer.value)))
  {
    s.showAnswer := Some(!s.showAnswer.value);
  }

  /** `next_card()`: the next card, question side up; nothing else changes. */
  method NextCard(s: Session)
    requires s.cards.Some? && |s.cards.value| > 0 && s.index.Some?
    modifies s
    ensures s.Data() == old(s.Data()).(index := Some(NextIndex(old(s.index.value), |old(s.cards.value)|)),
      showAnswer := Some(false))
    ensures OnCard(s.Data())
    ensures old(s.index.value) == |s.cards.value| - 1 ==> s.index == Some(0)
  {
    s.index := Some((s.index.value + 1) % |s.cards.value|);
    s.showAnswer := Some(false);
  }

  /** Flipping twice shows the side that was showing before. */
  method FlipTwice(s: Session)
    requires s.showAnswer.Some?
    modifies s
    ensures s.Data() == old(s.Data())
  {
    FlipCard(s);
    FlipCard(s);
  }
}
