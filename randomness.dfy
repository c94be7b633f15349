/**
 * The calls into Python's `random` module, with the random outcomes passed in
 * as parameters:
 *  - `random.shuffle(x)` swaps `x[i]` with `x[j]` for `i` from `len(x)-1` down
 *    to 1, with `j` drawn from `0..i`; the draws are a sequence `js` with
 *    `js[i] <= i`;
 *  - `random.sample(pool, k)` picks `k` distinct positions of `pool`;
 *  - `random.random()` is a real `u` with `0 <= u < 1`.
 */
module Randomness {

  /** Draws for shuffling `n` elements: `js[i]` is the partner of position `i`. */
  predicate ValidDraws(js: seq<nat>, n: nat) {
    |js| >= n && forall i :: 0 <= i < |js| ==> js[i] <= i
  }

  /** The positions of a `random.sample` of `k` out of `n` elements. */
  predicate ValidSample(pick: seq<nat>, k: nat, n: nat) {
    && |pick| == k
    && (forall i :: 0 <= i < |pick| ==> pick[i] < n)
    && (forall i, j :: 0 <= i < j < |pick| ==> pick[i] != pick[j])
  }

  /** An outcome of `random.random()`. */
  predicate IsUnitDraw(u: real) {
    0.0 <= u < 1.0
  }

  function Swap<T>(s: seq<T>, i: nat, j: nat): (r: seq<T>)
    requires i < |s| && j < |s|
    ensures |r| == |s| && r[i] == s[j] && r[j] == s[i]
    ensures forall k :: 0 <= k < |s| && k != i && k != j ==> r[k] == s[k]
    ensures multiset(r) == multiset(s)
  {
    s[i := s[j]][j := s[i]]
  }

  /**
   * The list after the swaps for positions `i-1` down to 1 (all of them when
   * `i == |s|`): the result of `random.shuffle` with draws `js`.
   */
  function FisherYates<T>(s: seq<T>, js: seq<nat>, i: nat): (r: seq<T>)
    requires i <= |s| && ValidDraws(js, |s|)
    ensures |r| == |s|
    ensures multiset(r) == multiset(s)
    decreases i
  {
    if i <= 1 then s else FisherYates(Swap(s, i - 1, js[i - 1]), js, i - 1)
  }

  /** `random.shuffle(a)` in place. */
  method Shuffle<T>(a: array<T>, js: seq<nat>)
    requires ValidDraws(js, a.Length)
    modifies a
    ensures a[..] == FisherYates(old(a[..]), js, a.Length)
    ensures multiset(a[..]) == multiset(old(a[..]))
  {
    var i: nat := a.Length;
    while i > 1
      invariant i <= a.Length
      invariant FisherYates(a[..], js, i) == FisherYates(old(a[..]), js, a.Length)
    {
      i := i - 1;
      var j := js[i];
      ghost var before := a[..];
      a[i], a[j] := a[j], a[i];
      assert a[..] == Swap(before, i, j);
    }
  }
}
