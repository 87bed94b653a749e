/**
 * The Fisher–Yates shuffle every server generator uses (`shuffleArray`).
 *
 * The source draws `j = floor(random * (i + 1))` for i = n-1 down to 1. Here
 * the draws are an explicit sequence `js`: `js[k]` is the swap index chosen in
 * the k-th iteration, i.e. for `i = n - 1 - k`, so it must lie in [0, i].
 */
module Shuffling {
  import opened Common

  /** `js` supplies a valid swap index for every iteration of a shuffle of n elements. */
  predicate SwapDraws(n: nat, js: seq<nat>) {
    && |js| >= n - 1
    && forall k :: 0 <= k < |js| && k < n - 1 ==> js[k] <= n - 1 - k
  }

  /** The destructuring swap `[s[i], s[j]] = [s[j], s[i]]`. */
  function Swap<T>(s: seq<T>, i: nat, j: nat): (r: seq<T>)
    requires i < |s| && j < |s|
    ensures |r| == |s|
    ensures r[i] == s[j] && r[j] == s[i]
    ensures forall k :: 0 <= k < |s| && k != i && k != j ==> r[k] == s[k]
  {
    s[i := s[j]][j := s[i]]
  }

  lemma {:induction false} SwapPermutes<T>(s: seq<T>, i: nat, j: nat)
    requires i < |s| && j < |s|
    ensures multiset(Swap(s, i, j)) == multiset(s)
    ensures Distinct(s) ==> Distinct(Swap(s, i, j))
  {
  }

  /** The loop of `shuffleArray` from iteration index `i` downwards. */
  function ShuffleDown<T>(s: seq<T>, js: seq<nat>, i: int): (r: seq<T>)
    requires -1 <= i < |s|
    requires SwapDraws(|s|, js)
    ensures |r| == |s|
    decreases i
  {
    if i <= 0 then s
    else
      var j := js[|s| - 1 - i];
      ShuffleDown(Swap(s, i, j), js, i - 1)
  }

  /** Each iteration is a swap, so the loop only rearranges elements. */
  lemma {:induction false} ShuffleDownPermutes<T>(s: seq<T>, js: seq<nat>, i: int)
    requires -1 <= i < |s|
    requires SwapDraws(|s|, js)
    ensures multiset(ShuffleDown(s, js, i)) == multiset(s)
    decreases i
  {
    if i > 0 {
      var t := Swap(s, i, js[|s| - 1 - i]);
      SwapPermutes(s, i, js[|s| - 1 - i]);
      ShuffleDownPermutes(t, js, i - 1);
      ShuffleDownStep(s, js, i);
    }
  }

  lemma {:induction false} ShuffleDownDistinct<T>(s: seq<T>, js: seq<nat>, i: int)
    requires -1 <= i < |s|
    requires SwapDraws(|s|, js)
    ensures Distinct(s) ==> Distinct(ShuffleDown(s, js, i))
    decreases i
  {
    if i > 0 {
      var t := Swap(s, i, js[|s| - 1 - i]);
      SwapPermutes(s, i, js[|s| - 1 - i]);
      ShuffleDownDistinct(t, js, i - 1);
      ShuffleDownStep(s, js, i);
    }
  }

  /**
   * `shuffleArray`: a new sequence of the same length, and a sequence of at
   * most one element as it is. The input is a value, so it is unchanged by
   * construction.
   */
  function Shuffle<T>(s: seq<T>, js: seq<nat>): (r: seq<T>)
    requires SwapDraws(|s|, js)
    ensures |r| == |s|
    ensures |s| <= 1 ==> r == s
  {
    ShuffleDown(s, js, |s| - 1)
  }

  /** The shuffle keeps distinct elements distinct. */
  lemma {:induction false} ShuffleDistinct<T>(s: seq<T>, js: seq<nat>)
    requires SwapDraws(|s|, js)
    ensures Distinct(s) ==> Distinct(Shuffle(s, js))
  {
    ShuffleDownDistinct(s, js, |s| - 1);
  }

  /** The shuffle is a permutation: it has the multiset of its input. */
  lemma {:induction false} ShufflePermutes<T>(s: seq<T>, js: seq<nat>)
    requires SwapDraws(|s|, js)
    ensures multiset(Shuffle(s, js)) == multiset(s)
  {
    ShuffleDownPermutes(s, js, |s| - 1);
  }

  /** Every element of the shuffle comes from the input, and every input element is in the shuffle. */
  lemma {:induction false} ShuffleMembers<T>(s: seq<T>, js: seq<nat>)
    requires SwapDraws(|s|, js)
    ensures forall k :: 0 <= k < |s| ==> Shuffle(s, js)[k] in s
    ensures forall k :: 0 <= k < |s| ==> s[k] in Shuffle(s, js)
  {
    var r := Shuffle(s, js);
    ShufflePermutes(s, js);
    assert forall k :: 0 <= k < |r| ==> r[k] in multiset(r);
    assert forall k :: 0 <= k < |s| ==> s[k] in multiset(s);
  }

  /** One iteration of the loop: swap at i, then continue with i - 1. */
  lemma {:induction false} ShuffleDownStep<T>(s: seq<T>, js: seq<nat>, i: int)
    requires 0 < i < |s|
    requires SwapDraws(|s|, js)
    ensures ShuffleDown(s, js, i) == ShuffleDown(Swap(s, i, js[|s| - 1 - i]), js, i - 1)
  {
  }

  lemma {:induction false} MapSwap<T, U>(f: T -> U, s: seq<T>, i: nat, j: nat)
    requires i < |s| && j < |s|
    ensures Map(f, Swap(s, i, j)) == Swap(Map(f, s), i, j)
  {
  }

  /** One iteration commutes with mapping when the rest of the loop does. */
  lemma {:induction false} MapSwapThenShuffle<T, U>(f: T -> U, s: seq<T>, js: seq<nat>, i: int)
    requires 0 < i < |s|
    requires SwapDraws(|s|, js)
    requires var t := Swap(s, i, js[|s| - 1 - i]);
      Map(f, ShuffleDown(t, js, i - 1)) == ShuffleDown(Map(f, t), js, i - 1)
    ensures Map(f, ShuffleDown(s, js, i)) == ShuffleDown(Map(f, s), js, i)
  {
    var j := js[|s| - 1 - i];
    ShuffleDownStep(s, js, i);
    MapSwap(f, s, i, j);
    ShuffleDownStep(Map(f, s), js, i);
  }

  /** Shuffling commutes with mapping: the same draws move the images the same way. */
  lemma {:induction false} ShuffleDownMap<T, U>(f: T -> U, s: seq<T>, js: seq<nat>, i: int)
    requires -1 <= i < |s|
    requires SwapDraws(|s|, js)
    ensures Map(f, ShuffleDown(s, js, i)) == ShuffleDown(Map(f, s), js, i)
    decreases i
  {
    if i > 0 {
      ShuffleDownMap(f, Swap(s, i, js[|s| - 1 - i]), js, i - 1);
      MapSwapThenShuffle(f, s, js, i);
    }
  }

  lemma {:induction false} ShuffleMap<T, U>(f: T -> U, s: seq<T>, js: seq<nat>)
    requires SwapDraws(|s|, js)
    ensures Map(f, Shuffle(s, js)) == Shuffle(Map(f, s), js)
  {
    ShuffleDownMap(f, s, js, |s| - 1);
  }

  /** Every permutation of a sequence keeps the count of each mapped value. */
  lemma {:induction false} ShuffleKeepsCounts<T, U>(f: T -> U, s: seq<T>, js: seq<nat>)
    requires SwapDraws(|s|, js)
    ensures multiset(Map(f, Shuffle(s, js))) == multiset(Map(f, s))
  {
    ShuffleMap(f, s, js);
    ShufflePermutes(Map(f, s), js);
  }

  /** A property every element has is kept by every element of the shuffle. */
  lemma {:induction false} ShuffleKeepsAll<T>(P: T -> bool, s: seq<T>, js: seq<nat>)
    requires SwapDraws(|s|, js)
    requires forall i :: 0 <= i < |s| ==> P(s[i])
    ensures forall k :: 0 <= k < |Shuffle(s, js)| ==> P(Shuffle(s, js)[k])
  {
    var r := Shuffle(s, js);
    ShuffleMembers(s, js);
    forall k | 0 <= k < |r|
      ensures P(r[k])
    {
      var i :| 0 <= i < |s| && s[i] == r[k];
    }
  }
}
