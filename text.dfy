/**
 * The Python `str` built-ins the core relies on: `lower`, `strip`, `rstrip(c)`,
 * `replace`, `split()` and the substring test `pat in s`.
 *
 * `NonSpaceCount` (the number of characters that are not whitespace) is the
 * measure used to prove that two strings differ after `lower().strip()`:
 * lower-casing and stripping never change it.
 */
module Text {

  /** `c.isspace()` in Python 3. */
  predicate IsSpace(c: char) {
    || c == ' '
    || ('\t' <= c <= '\r')
    || ('\U{1c}' <= c <= '\U{1f}')
    || c == '\U{85}' || c == '\U{a0}' || c == '\U{1680}'
    || ('\U{2000}' <= c <= '\U{200a}')
    || c == '\U{2028}' || c == '\U{2029}' || c == '\U{202f}' || c == '\U{205f}' || c == '\U{3000}'
  }

  /** The upper-case letters `lower()` maps (ASCII only; see README). */
  predicate IsUpper(c: char) {
    'A' <= c <= 'Z'
  }

  function ToLower(c: char): (d: char)
    ensures !IsUpper(d)
    ensures IsSpace(d) <==> IsSpace(c)
    ensures !IsUpper(c) ==> d == c
  {
    if IsUpper(c) then (c as int + 32) as char else c
  }

  /** `s.lower()` */
  function Lower(s: string): (r: string)
    ensures |r| == |s|
    ensures forall c :: c in r ==> !IsUpper(c)
  {
    if s == [] then [] else [ToLower(s[0])] + Lower(s[1..])
  }

  /** `s.lstrip()` */
  function LStrip(s: string): (r: string)
    ensures |r| <= |s|
    ensures r != [] ==> !IsSpace(r[0])
  {
    if s != [] && IsSpace(s[0]) then LStrip(s[1..]) else s
  }

  /** `s.rstrip()` */
  function RStrip(s: string): (r: string)
    ensures |r| <= |s|
    ensures r != [] ==> !IsSpace(r[|r| - 1])
  {
    if s != [] && IsSpace(s[|s| - 1]) then RStrip(s[..|s| - 1]) else s
  }

  /** `s.strip()` */
  function Strip(s: string): (r: string)
    ensures forall c :: c in r ==> c in s
    ensures r != [] ==> !IsSpace(r[0]) && !IsSpace(r[|r| - 1])
  {
    var t := RStrip(s);
    var r := LStrip(t);
    RStripIsPrefix(s);
    LStripIsSuffix(t);
    assert forall c :: c in r ==> c in t;
    r
  }

  /** `lstrip()` keeps a suffix. */
  lemma {:induction false} LStripIsSuffix(s: string)
    ensures LStrip(s) == s[|s| - |LStrip(s)|..]
  {
    if s != [] && IsSpace(s[0]) {
      LStripIsSuffix(s[1..]);
    }
  }

  /** `rstrip()` keeps a prefix. */
  lemma {:induction false} RStripIsPrefix(s: string)
    ensures RStrip(s) == s[..|RStrip(s)|]
  {
    if s != [] && IsSpace(s[|s| - 1]) {
      RStripIsPrefix(s[..|s| - 1]);
    }
  }

  /** `s.lower().strip()`, the comparison key of the quiz generator. */
  function LowerStrip(s: string): string {
    Strip(Lower(s))
  }

  /** `s.rstrip(c)`: drops every trailing `c`. */
  function RStripChar(s: string, c: char): (r: string)
    ensures |r| <= |s| && r == s[..|r|]
    ensures r != [] ==> r[|r| - 1] != c
    ensures forall i :: |r| <= i < |s| ==> s[i] == c
  {
    if s != [] && s[|s| - 1] == c then RStripChar(s[..|s| - 1], c) else s
  }

  /** `pat in s` for strings: `pat` occurs in `s` as a substring. */
  predicate Contains(s: string, pat: string) {
    exists i :: 0 <= i <= |s| && OccursAt(s, pat, i)
  }

  predicate OccursAt(s: string, pat: string, i: int) {
    0 <= i && i + |pat| <= |s| && s[i..i + |pat|] == pat
  }

  /** `s.replace(pat, rep)`: every non-overlapping occurrence, scanning left to right. */
  function Replace(s: string, pat: string, rep: string): string
    requires pat != []
    decreases |s|
  {
    if |s| < |pat| then s
    else if s[..|pat|] == pat then rep + Replace(s[|pat|..], pat, rep)
    else [s[0]] + Replace(s[1..], pat, rep)
  }

  /** Length of the maximal run of non-whitespace characters that starts `t`. */
  function WordLength(t: string): (n: nat)
    ensures n <= |t|
    ensures t != [] && !IsSpace(t[0]) ==> n > 0
  {
    if t == [] || IsSpace(t[0]) then 0 else 1 + WordLength(t[1..])
  }

  /** `s.split()`: the maximal runs of non-whitespace characters, in order. */
  function Split(s: string): seq<string>
    decreases |s|
  {
    var t := LStrip(s);
    if t == [] then []
    else
      var n := WordLength(t);
      [t[..n]] + Split(t[n..])
  }

  /** The number of characters of `s` that are not whitespace. */
  function NonSpaceCount(s: string): nat {
    if s == [] then 0 else (if IsSpace(s[0]) then 0 else 1) + NonSpaceCount(s[1..])
  }

  lemma {:induction false} NonSpaceConcat(a: string, b: string)
    ensures NonSpaceCount(a + b) == NonSpaceCount(a) + NonSpaceCount(b)
  {
    if a == [] {
      assert a + b == b;
    } else {
      assert (a + b)[1..] == a[1..] + b;
      NonSpaceConcat(a[1..], b);
    }
  }

  lemma {:induction false} NonSpacePositive(s: string, i: nat)
    requires i < |s| && !IsSpace(s[i])
    ensures NonSpaceCount(s) > 0
  {
    if i > 0 {
      NonSpacePositive(s[1..], i - 1);
    }
  }

  lemma {:induction false} NonSpaceLower(s: string)
    ensures NonSpaceCount(Lower(s)) == NonSpaceCount(s)
  {
    if s != [] {
      var r := Lower(s);
      assert r[0] == ToLower(s[0]) && r[1..] == Lower(s[1..]);
      NonSpaceLower(s[1..]);
    }
  }

  lemma {:induction false} NonSpaceLStrip(s: string)
    ensures NonSpaceCount(LStrip(s)) == NonSpaceCount(s)
  {
    if s != [] && IsSpace(s[0]) {
      NonSpaceLStrip(s[1..]);
    }
  }

  lemma {:induction false} NonSpaceRStrip(s: string)
    ensures NonSpaceCount(RStrip(s)) == NonSpaceCount(s)
  {
    if s != [] && IsSpace(s[|s| - 1]) {
      var n := |s| - 1;
      assert s == s[..n] + [s[n]];
      NonSpaceConcat(s[..n], [s[n]]);
      NonSpaceRStrip(s[..n]);
    }
  }

  /** Lower-casing and stripping keep the non-whitespace characters, so they keep their number. */
  lemma NonSpaceLowerStrip(s: string)
    ensures NonSpaceCount(LowerStrip(s)) == NonSpaceCount(s)
  {
    NonSpaceLower(s);
    NonSpaceRStrip(Lower(s));
    NonSpaceLStrip(RStrip(Lower(s)));
  }

  /** Strings with different numbers of non-whitespace characters differ after `lower().strip()`. */
  lemma LowerStripDiffers(a: string, b: string)
    requires NonSpaceCount(a) != NonSpaceCount(b)
    ensures LowerStrip(a) != LowerStrip(b)
  {
    NonSpaceLowerStrip(a);
    NonSpaceLowerStrip(b);
  }

  /** Appending or prepending text that holds a non-whitespace character adds to the count. */
  lemma NonSpaceGrows(s: string, extra: string, i: nat)
    requires i < |extra| && !IsSpace(extra[i])
    ensures NonSpaceCount(s + extra) > NonSpaceCount(s)
    ensures NonSpaceCount(extra + s) > NonSpaceCount(s)
  {
    NonSpacePositive(extra, i);
    NonSpaceConcat(s, extra);
    NonSpaceConcat(extra, s);
  }

  /**
   * Replacing `pat` by a `rep` with more non-whitespace characters never lowers the
   * count, and raises it when `pat` occurs.
   */
  lemma {:induction false} ReplaceGrows(s: string, pat: string, rep: string)
    requires pat != [] && NonSpaceCount(rep) > NonSpaceCount(pat)
    ensures NonSpaceCount(Replace(s, pat, rep)) >= NonSpaceCount(s)
    ensures Contains(s, pat) ==> NonSpaceCount(Replace(s, pat, rep)) > NonSpaceCount(s)
    decreases |s|
  {
    var k := |pat|;
    if |s| < k {
    } else if s[..k] == pat {
      assert s == pat + s[k..];
      NonSpaceConcat(pat, s[k..]);
      NonSpaceConcat(rep, Replace(s[k..], pat, rep));
      ReplaceGrows(s[k..], pat, rep);
    } else {
      NonSpaceConcat([s[0]], Replace(s[1..], pat, rep));
      assert s == [s[0]] + s[1..];
      NonSpaceConcat([s[0]], s[1..]);
      ReplaceGrows(s[1..], pat, rep);
      if Contains(s, pat) {
        var i :| 0 <= i <= |s| && OccursAt(s, pat, i);
        assert 0 < i && i + k <= |s| && s[i..i + k] == pat;
        assert s[1..][i - 1..i - 1 + k] == s[i..i + k];
        assert OccursAt(s[1..], pat, i - 1);
      }
    }
  }

  /** `s.replace(c, "")` keeps only characters of `s`, and none of them is `c`. */
  lemma {:induction false} ReplaceDropsChar(s: string, c: char)
    ensures forall x :: x in Replace(s, [c], "") ==> x in s && x != c
    decreases |s|
  {
    if |s| >= 1 {
      ReplaceDropsChar(s[1..], c);
      if s[..1] != [c] {
        assert s[0] != c;
      }
    }
  }

  /** When `s.split()` has a second word, the first word holds fewer non-whitespace characters than `s`. */
  lemma SplitFirstWordShorter(s: string)
    requires |Split(s)| > 1
    ensures NonSpaceCount(Split(s)[0]) < NonSpaceCount(s)
  {
    var t := LStrip(s);
    var n := WordLength(t);
    SplitStep(s);
    SplitHasNonSpace(t[n..]);
    SplitHalves(t, n);
    NonSpaceLStrip(s);
  }

  /** One step of `split()`: the first word, then the split of what follows it. */
  lemma SplitStep(s: string)
    requires Split(s) != []
    ensures var t := LStrip(s); var n := WordLength(t);
      t != [] && Split(s) == [t[..n]] + Split(t[n..])
  {
  }

  lemma SplitHalves(t: string, n: nat)
    requires n <= |t|
    ensures NonSpaceCount(t) == NonSpaceCount(t[..n]) + NonSpaceCount(t[n..])
  {
    assert t == t[..n] + t[n..];
    NonSpaceConcat(t[..n], t[n..]);
  }

  /** A string `split()` finds a word in holds a non-whitespace character. */
  lemma SplitHasNonSpace(s: string)
    requires Split(s) != []
    ensures NonSpaceCount(s) > 0
  {
    var t := LStrip(s);
    NonSpacePositive(t, 0);
    NonSpaceLStrip(s);
  }
}
