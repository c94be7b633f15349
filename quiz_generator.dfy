/**
 * Distractors, multiple-choice and true/false questions built from a card.
 * The answers of a deck are compared by `lower().strip()`; every random
 * outcome is an input (see module Randomness): `pick` for `random.sample`,
 * `choices` for the successive `random.choice` calls of the fill loop, `js`
 * for `random.shuffle` and reals for `random.random()`.
 */
module QuizGenerator {
  import opened Text
  import opened Cards
  import opened Randomness

  /** `[a for a in pool if a.lower().strip() != correct.lower().strip()]` */
  function Available(correct: string, pool: seq<string>): (r: seq<string>)
    ensures |r| <= |pool|
    ensures forall a :: a in r <==> a in pool && LowerStrip(a) != LowerStrip(correct)
  {
    if pool == [] then []
    else
      var rest := Available(correct, pool[1..]);
      assert forall a :: a in pool <==> a == pool[0] || a in pool[1..];
      if LowerStrip(pool[0]) != LowerStrip(correct) then [pool[0]] + rest else rest
  }

  /** Each answer that differs from the correct one is kept as often as the pool holds it; no other is kept. */
  lemma {:induction false} AvailableCount(correct: string, pool: seq<string>, a: string)
    ensures multiset(Available(correct, pool))[a]
         == if LowerStrip(a) != LowerStrip(correct) then multiset(pool)[a] else 0
  {
    if pool != [] {
      assert pool == [pool[0]] + pool[1..];
      AvailableCount(correct, pool[1..], a);
    }
  }

  /** `answer + " (incorrect)"` */
  function IncorrectForm(answer: string): (v: string)
    ensures NonSpaceCount(v) > NonSpaceCount(answer)
  {
    NonSpaceGrows(answer, " (incorrect)", 1);
    answer + " (incorrect)"
  }

  /** `"Not " + answer` */
  function NegatedForm(answer: string): (v: string)
    ensures NonSpaceCount(v) > NonSpaceCount(answer)
  {
    NonSpaceGrows(answer, "Not ", 0);
    "Not " + answer
  }

  /** Every `"is"` becomes `"is not"` when `"is"` occurs; otherwise `answer + " variation"`. */
  function IsNotForm(answer: string): (v: string)
    ensures NonSpaceCount(v) > NonSpaceCount(answer)
  {
    if Contains(answer, "is") then
      assert "is not" == "is" + " not";
      NonSpaceConcat("is", " not");
      NonSpacePositive(" not", 1);
      ReplaceGrows(answer, "is", "is not");
      Replace(answer, "is", "is not")
    else
      NonSpaceGrows(answer, " variation", 1);
      answer + " variation"
  }

  /** The first word when there are several; otherwise `answer + " alternative"`. */
  function FirstWordForm(answer: string): (v: string)
    ensures NonSpaceCount(v) != NonSpaceCount(answer)
  {
    var words := Split(answer);
    if |words| > 1 then
      SplitFirstWordShorter(answer);
      words[0]
    else
      NonSpaceGrows(answer, " alternative", 1);
      answer + " alternative"
  }

  /**
   * The list `_create_variation(answer)` chooses from. None of the four forms
   * equals the answer, even ignoring case and surrounding whitespace: each
   * has a different number of non-whitespace characters.
   */
  function Variations(answer: string): (vs: seq<string>)
    ensures |vs| == 4
    ensures forall v :: v in vs ==> NonSpaceCount(v) != NonSpaceCount(answer)
  {
    [IncorrectForm(answer), NegatedForm(answer), IsNotForm(answer), FirstWordForm(answer)]
  }

  /** `_create_variation(answer)` when `random.choice` picks position `choice`. */
  function CreateVariation(answer: string, choice: nat): (v: string)
    requires choice < 4
    ensures v in Variations(answer)
  {
    Variations(answer)[choice]
  }

  /** Every draw of the fill loop is a position of the variation list. */
  predicate ValidChoices(choices: seq<nat>) {
    forall i :: 0 <= i < |choices| ==> choices[i] < 4
  }

  /**
   * The fill loop of `generate_fake_answers` run on the draws `choices`: each
   * round appends the drawn variation unless it is already present. The loop
   * ends when `count` items are reached or the draws run out.
   */
  function FillVariations(fakes: seq<string>, answer: string, count: nat, choices: seq<nat>): seq<string>
    requires ValidChoices(choices)
    decreases |choices|
  {
    if |fakes| >= count || choices == [] then fakes
    else
      var v := CreateVariation(answer, choices[0]);
      FillVariations(if v in fakes then fakes else fakes + [v], answer, count, choices[1..])
  }

  /** Every item of `r` from position `n` on is one of `vs` and does not occur earlier in `r`. */
  predicate FreshFrom(r: seq<string>, n: nat, vs: seq<string>) {
    forall i :: n <= i < |r| ==> r[i] in vs && r[i] !in r[..i]
  }

  /** The fill loop keeps what it starts with and stops at `count`. */
  lemma {:induction false} FillVariationsPrefix(fakes: seq<string>, answer: string, count: nat, choices: seq<nat>)
    requires ValidChoices(choices)
    ensures var r := FillVariations(fakes, answer, count, choices);
      fakes <= r && (|fakes| <= count ==> |r| <= count)
    decreases |choices|
  {
    if |fakes| >= count || choices == [] {
    } else {
      var v := CreateVariation(answer, choices[0]);
      var next := if v in fakes then fakes else fakes + [v];
      FillVariationsPrefix(next, answer, count, choices[1..]);
      assert fakes <= next;
    }
  }

  /** Each item the fill loop adds is a variation not already in the list. */
  lemma {:induction false} FillVariationsFresh(fakes: seq<string>, answer: string, count: nat, choices: seq<nat>)
    requires ValidChoices(choices)
    ensures FreshFrom(FillVariations(fakes, answer, count, choices), |fakes|, Variations(answer))
    decreases |choices|
  {
    if |fakes| >= count || choices == [] {
    } else {
      var vs := Variations(answer);
      var v := CreateVariation(answer, choices[0]);
      var next := if v in fakes then fakes else fakes + [v];
      FillVariationsFresh(next, answer, count, choices[1..]);
      FillVariationsPrefix(next, answer, count, choices[1..]);
      var r := FillVariations(next, answer, count, choices[1..]);
      assert r == FillVariations(fakes, answer, count, choices);
      forall i | |fakes| <= i < |r|
        ensures r[i] in vs && r[i] !in r[..i]
      {
        if i >= |next| {
          assert FreshFrom(r, |next|, vs);
        } else {
          assert i == |fakes| && v !in fakes;
          assert r[i] == next[i] == v;
          assert r[..i] == next[..i] == fakes;
        }
      }
    }
  }

  /** When the loop stops short of `count`, every drawn variation is already in the list. */
  lemma {:induction false} FillVariationsStopsShort(fakes: seq<string>, answer: string, count: nat, choices: seq<nat>)
    requires ValidChoices(choices)
    ensures var r := FillVariations(fakes, answer, count, choices);
      |r| < count ==> forall i :: 0 <= i < |choices| ==> CreateVariation(answer, choices[i]) in r
    decreases |choices|
  {
    if |fakes| >= count || choices == [] {
    } else {
      var v := CreateVariation(answer, choices[0]);
      var next := if v in fakes then fakes else fakes + [v];
      FillVariationsStopsShort(next, answer, count, choices[1..]);
      FillVariationsPrefix(next, answer, count, choices[1..]);
      var r := FillVariations(next, answer, count, choices[1..]);
      assert v in next;
      assert v in r[..|next|];
      forall i | 1 <= i < |choices|
        ensures choices[1..][i - 1] == choices[i]
      {
      }
    }
  }

  /** A variation never equals the answer under `lower().strip()`. */
  lemma VariationNeverMatches(answer: string, v: string)
    requires v in Variations(answer)
    ensures LowerStrip(v) != LowerStrip(answer)
  {
    LowerStripDiffers(v, answer);
  }

  /** The fill loop adds nothing that equals the answer under `lower().strip()`. */
  lemma {:induction false} FillVariationsNeverMatch(fakes: seq<string>, answer: string, count: nat, choices: seq<nat>)
    requires ValidChoices(choices)
    requires forall f :: f in fakes ==> LowerStrip(f) != LowerStrip(answer)
    ensures forall f :: f in FillVariations(fakes, answer, count, choices) ==> LowerStrip(f) != LowerStrip(answer)
    decreases |choices|
  {
    if |fakes| >= count || choices == [] {
    } else {
      var v := CreateVariation(answer, choices[0]);
      VariationNeverMatches(answer, v);
      var next := if v in fakes then fakes else fakes + [v];
      assert forall f :: f in next ==> f in fakes || f == v;
      FillVariationsNeverMatch(next, answer, count, choices[1..]);
    }
  }

  /** `random.sample(pool, len(pick))` drawing the positions `pick`. */
  function Sample(pool: seq<string>, pick: seq<nat>): (r: seq<string>)
    requires forall i :: 0 <= i < |pick| ==> pick[i] < |pool|
    ensures |r| == |pick| && forall i :: 0 <= i < |pick| ==> r[i] == pool[pick[i]]
    ensures forall x :: x in r ==> x in pool
  {
    seq(|pick|, i requires 0 <= i < |pick| => pool[pick[i]])
  }

  /** What `generate_fake_answers` needs of its random draws. */
  predicate ValidDrawsFor(correct: string, pool: seq<string>, count: nat, pick: seq<nat>, choices: seq<nat>) {
    var n := |Available(correct, pool)|;
    (n >= count ==> ValidSample(pick, count, n)) && ValidChoices(choices)
  }

  /**
   * `generate_fake_answers(correct, pool, count)`: `count` sampled distractors
   * when enough remain after filtering, otherwise all of them followed by
   * variations from the fill loop.
   */
  function FakeAnswers(correct: string, pool: seq<string>, count: nat, pick: seq<nat>, choices: seq<nat>): (r: seq<string>)
    requires ValidDrawsFor(correct, pool, count, pick, choices)
    ensures forall f :: f in r ==> LowerStrip(f) != LowerStrip(correct)
    ensures |r| <= count
    ensures var avail := Available(correct, pool);
      |avail| >= count ==> |r| == count && forall i :: 0 <= i < count ==> r[i] == avail[pick[i]]
    ensures var avail := Available(correct, pool);
      |avail| < count ==>
        && avail <= r
        && FreshFrom(r, |avail|, Variations(correct))
        && (|r| < count ==> forall i :: 0 <= i < |choices| ==> CreateVariation(correct, choices[i]) in r)
  {
    var avail := Available(correct, pool);
    if |avail| >= count then
      Sample(avail, pick)
    else
      FillVariationsPrefix(avail, correct, count, choices);
      FillVariationsFresh(avail, correct, count, choices);
      FillVariationsStopsShort(avail, correct, count, choices);
      FillVariationsNeverMatch(avail, correct, count, choices);
      FillVariations(avail, correct, count, choices)
  }

  /** `generate_fake_answers` with its `while` loop. */
  method GenerateFakeAnswers(correct: string, pool: seq<string>, count: nat, pick: seq<nat>, choices: seq<nat>)
    returns (fakes: seq<string>)
    requires ValidDrawsFor(correct, pool, count, pick, choices)
    ensures fakes == FakeAnswers(correct, pool, count, pick, choices)
  {
    var available := Available(correct, pool);
    if |available| >= count {
      fakes := Sample(available, pick);
    } else {
      fakes := available;
      var i := 0;
      while |fakes| < count && i < |choices|
        invariant 0 <= i <= |choices|
        invariant FillVariations(fakes, correct, count, choices[i..])
               == FillVariations(available, correct, count, choices)
      {
        var variation := CreateVariation(correct, choices[i]);
        assert choices[i..][1..] == choices[i + 1..];
        if variation !in fakes {
          fakes := fakes + [variation];
        }
        i := i + 1;
      }
    }
  }

  /** `list.index(x)`: the first position of `x`. */
  method IndexOf(xs: seq<string>, x: string) returns (k: nat)
    requires x in xs
    ensures k < |xs| && xs[k] == x && x !in xs[..k]
  {
    k := 0;
    while xs[k] != x
      invariant k < |xs| && x !in xs[..k] && x in xs[k..]
      decreases |xs| - k
    {
      assert xs[k..] == [xs[k]] + xs[k + 1..];
      k := k + 1;
    }
  }

  function Answers(cards: seq<Card>): (r: seq<string>)
    ensures |r| == |cards| && forall i :: 0 <= i < |cards| ==> r[i] == cards[i].answer
  {
    seq(|cards|, i requires 0 <= i < |cards| => cards[i].answer)
  }

  datatype MultipleChoice = MultipleChoice(
    question: string,
    options: seq<string>,
    correctIndex: nat,
    correctAnswer: string)

  /**
   * `create_multiple_choice_question(card, all_cards)`: three distractors and
   * the answer, shuffled; `correctIndex` is where the answer ended up.
   */
  method CreateMultipleChoiceQuestion(card: Card, allCards: seq<Card>, pick: seq<nat>, choices: seq<nat>, js: seq<nat>)
    returns (q: MultipleChoice)
    requires ValidDrawsFor(card.answer, Answers(allCards), 3, pick, choices)
    requires ValidDraws(js, 4)
    ensures multiset(q.options) == multiset(FakeAnswers(card.answer, Answers(allCards), 3, pick, choices) + [card.answer])
    ensures q.correctIndex < |q.options| && q.options[q.correctIndex] == card.answer
    ensures multiset(q.options)[card.answer] == 1
    ensures 1 <= |q.options| <= 4
    ensures |Available(card.answer, Answers(allCards))| >= 3 ==> |q.options| == 4
    ensures q.question == card.question && q.correctAnswer == card.answer
  {
    var correctAnswer := card.answer;
    var allAnswers := Answers(allCards);
    var fakeAnswers := GenerateFakeAnswers(correctAnswer, allAnswers, 3, pick, choices);
    var options := ShuffleOptions(fakeAnswers + [correctAnswer], js);
    AnswerOccursOnce(fakeAnswers, correctAnswer, options);
    var correctIndex := IndexOf(options, correctAnswer);
    q := MultipleChoice(card.question, options, correctIndex, correctAnswer);
  }

  /** `random.shuffle(all_options)` on a copy of the option list. */
  method ShuffleOptions(allOptions: seq<string>, js: seq<nat>) returns (options: seq<string>)
    requires ValidDraws(js, |allOptions|)
    ensures options == FisherYates(allOptions, js, |allOptions|)
    ensures multiset(options) == multiset(allOptions)
  {
    var buffer := new string[|allOptions|](i requires 0 <= i < |allOptions| => allOptions[i]);
    assert buffer[..] == allOptions;
    Shuffle(buffer, js);
    options := buffer[..];
  }

  /** A permutation of distractors that never match the answer, plus the answer, holds the answer once. */
  lemma AnswerOccursOnce(fakes: seq<string>, answer: string, options: seq<string>)
    requires forall f :: f in fakes ==> LowerStrip(f) != LowerStrip(answer)
    requires multiset(options) == multiset(fakes + [answer])
    ensures answer in options && multiset(options)[answer] == 1
  {
    assert answer !in fakes;
    assert multiset(fakes + [answer]) == multiset(fakes) + multiset{answer};
    assert answer in multiset(options);
  }

  /** The statement for a true card: the question without trailing `?`, an arrow, the answer. */
  function TrueStatement(question: string, answer: string): string {
    RStripChar(question, '?') + " → " + answer
  }

  /**
   * `generate_true_false_statement(question, answer, is_true)`; `u` is the
   * `random.random()` that picks the false form.
   */
  function TrueFalseStatement(question: string, answer: string, isTrue: bool, u: real): (s: string)
    ensures s == TrueStatement(question, answer) <==> isTrue
    ensures !isTrue ==> s == TrueStatement(question, if u > 0.5 then "Not " + answer else answer + " (incorrect version)")
  {
    var stem := RStripChar(question, '?');
    if isTrue then stem + " → " + answer
    else
      var fakeAnswer := if u > 0.5 then "Not " + answer else answer + " (incorrect version)";
      assert |fakeAnswer| > |answer|;
      assert (stem + " → " + fakeAnswer)[|stem| + 3..] == fakeAnswer;
      assert (stem + " → " + answer)[|stem| + 3..] == answer;
      stem + " → " + fakeAnswer
  }

  datatype TrueFalse = TrueFalse(statement: string, isTrue: bool, correctAnswer: string)

  /** `create_true_false_question(card)`; `u1` decides truth, `u2` the false form. */
  function CreateTrueFalseQuestion(card: Card, u1: real, u2: real): (q: TrueFalse)
    ensures q.isTrue <==> u1 > 0.5
    ensures q.statement == TrueStatement(card.question, card.answer) <==> q.isTrue
    ensures q.correctAnswer == card.answer
  {
    var isTrue := u1 > 0.5;
    TrueFalse(TrueFalseStatement(card.question, card.answer, isTrue, u2), isTrue, card.answer)
  }
}
