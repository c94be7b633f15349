/**
 * Typed-answer checking: both answers are normalised (lower-case, stripped,
 * `.` and `,` removed); equal normal forms are an exact match, otherwise the
 * `difflib.SequenceMatcher` ratio `2M / (|a| + |b|)` is compared with a
 * threshold. The match count `M` is an input: the matcher's algorithm is not
 * part of this model, only the bounds every match count obeys.
 */
module AnswerChecking {
  import opened Text

  /** The `threshold` default of `check_answer`. */
  const DefaultThreshold: real := 0.8

  /** `text.lower().strip().replace(".", "").replace(",", "")` */
  function Normalize(text: string): (r: string)
    ensures forall c :: c in r ==> !IsUpper(c) && c != '.' && c != ','
  {
    var stripped := Strip(Lower(text));
    var noDots := Replace(stripped, ".", "");
    ReplaceDropsChar(stripped, '.');
    ReplaceDropsChar(noDots, ',');
    Replace(noDots, ",", "")
  }

  /**
   * What every match count of `SequenceMatcher(None, a, b)` satisfies: it is at
   * most the shorter length, and it equals both lengths only if `a == b`
   * (the matched blocks are common subsequences of both strings).
   */
  predicate ValidMatchCount(a: string, b: string, m: nat) {
    m <= |a| && m <= |b| && (a != b ==> m < |a| || m < |b|)
  }

  /** `SequenceMatcher.ratio()`: `2M / T` for total length `T`, and 1 when `T == 0`. */
  function Ratio(a: string, b: string, m: nat): (r: real)
    requires ValidMatchCount(a, b, m)
    ensures 0.0 <= r <= 1.0
    ensures a != b ==> r < 1.0
    ensures |a| + |b| > 0 ==> r * (|a| + |b|) as real == (2 * m) as real
  {
    var total := |a| + |b|;
    if total == 0 then 1.0
    else
      var r := (2 * m) as real / total as real;
      assert r * total as real == (2 * m) as real;
      assert a != b ==> 2 * m < total;
      r
  }

  lemma ScaledAtLeast(r: real, t: real, x: real)
    requires t > 0.0 && r * t == x
    ensures r >= 0.8 <==> x >= 0.8 * t
  {
    var d := r - 0.8;
    assert d * t == r * t - 0.8 * t;
    if d >= 0.0 {
      assert d * t >= 0.0;
    } else {
      assert (-d) * t > 0.0;
    }
  }

  /** At the default threshold the ratio test is `5 * 2M >= 4 * (|a| + |b|)` in integers. */
  lemma RatioAtDefaultThreshold(a: string, b: string, m: nat)
    requires ValidMatchCount(a, b, m) && a != b
    ensures Ratio(a, b, m) >= DefaultThreshold <==> 5 * (2 * m) >= 4 * (|a| + |b|)
  {
    var total := |a| + |b|;
    ScaledAtLeast(Ratio(a, b, m), total as real, (2 * m) as real);
    assert (2 * m) as real >= 0.8 * total as real <==> 10 * m >= 4 * total;
  }

  datatype Verdict = Verdict(isCorrect: bool, similarity: real)

  /** `check_answer(user_answer, correct_answer, threshold)`, with the matcher's count `matches`. */
  function CheckAnswer(userAnswer: string, correctAnswer: string, threshold: real, matches: nat): (v: Verdict)
    requires ValidMatchCount(Normalize(userAnswer), Normalize(correctAnswer), matches)
    ensures Normalize(userAnswer) == Normalize(correctAnswer) ==> v == Verdict(true, 1.0)
    ensures Normalize(userAnswer) != Normalize(correctAnswer) ==>
      && v.similarity == Ratio(Normalize(userAnswer), Normalize(correctAnswer), matches)
      && (v.isCorrect <==> v.similarity >= threshold)
    ensures 0.0 <= v.similarity <= 1.0
    ensures v.similarity == 1.0 <==> Normalize(userAnswer) == Normalize(correctAnswer)
  {
    var userNorm := Normalize(userAnswer);
    var correctNorm := Normalize(correctAnswer);
    if userNorm == correctNorm then Verdict(true, 1.0)
    else
      var similarity := Ratio(userNorm, correctNorm, matches);
      Verdict(similarity >= threshold, similarity)
  }

  /** Any answer checked against itself is an exact match. */
  lemma CheckAnswerSelf(s: string, threshold: real, matches: nat)
    requires ValidMatchCount(Normalize(s), Normalize(s), matches)
    ensures CheckAnswer(s, s, threshold, matches) == Verdict(true, 1.0)
  {
  }

  /**
   * With the default threshold a typed answer that is not an exact match is
   * accepted exactly when `5 * 2M >= 4 * (|a| + |b|)` for the normalised lengths.
   */
  lemma DefaultThresholdInIntegers(userAnswer: string, correctAnswer: string, matches: nat)
    requires ValidMatchCount(Normalize(userAnswer), Normalize(correctAnswer), matches)
    requires Normalize(userAnswer) != Normalize(correctAnswer)
    ensures CheckAnswer(userAnswer, correctAnswer, DefaultThreshold, matches).isCorrect <==>
      5 * (2 * matches) >= 4 * (|Normalize(userAnswer)| + |Normalize(correctAnswer)|)
  {
    RatioAtDefaultThreshold(Normalize(userAnswer), Normalize(correctAnswer), matches);
  }

  lemma {:induction false} LowerIdempotent(s: string)
    ensures Lower(Lower(s)) == Lower(s)
  {
    if s != [] {
      LowerIdempotent(s[1..]);
      assert Lower(s)[1..] == Lower(s[1..]);
    }
  }

  /** Normalisation ignores case: an answer typed in upper case checks like its lower-case form. */
  lemma CheckAnswerIgnoresCase(userAnswer: string, correctAnswer: string, threshold: real, matches: nat)
    requires ValidMatchCount(Normalize(userAnswer), Normalize(correctAnswer), matches)
    ensures Normalize(Lower(userAnswer)) == Normalize(userAnswer)
    ensures CheckAnswer(Lower(userAnswer), correctAnswer, threshold, matches)
         == CheckAnswer(userAnswer, correctAnswer, threshold, matches)
  {
    LowerIdempotent(userAnswer);
  }

  /**
   * Stripping happens before `.` is removed, so normalising twice can change
   * the result: `". abc"` becomes `" abc"`, which becomes `"abc"`.
   */
  lemma NormalizeNotIdempotent()
    ensures Normalize(". abc") == " abc"
    ensures Normalize(" abc") == "abc"
  {
    NormalizeDotSpace();
    NormalizeSpace();
  }

  lemma NormalizeDotSpace()
    ensures Normalize(". abc") == " abc"
  {
    assert Lower(". abc") == ". abc";
    assert Strip(". abc") == ". abc";
    assert Replace(". abc", ".", "") == " abc";
    assert Replace(" abc", ",", "") == " abc";
  }

  lemma NormalizeSpace()
    ensures Normalize(" abc") == "abc"
  {
    assert Lower(" abc") == " abc";
    assert Strip(" abc") == "abc";
    assert Replace("abc", ".", "") == "abc";
    assert Replace("abc", ",", "") == "abc";
  }
}
