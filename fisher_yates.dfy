/**
 * The Fisher–Yates shuffle of `initCaptcha`: for i from the last index down to
 * 1, a draw j in [0, i] is taken and slots i and j are swapped. The random draws
 * are supplied by the caller: `draws[k]` is the j taken at step k, when the loop
 * is at i = n - 1 - k.
 */
module FisherYates {

  /** Number of steps the loop makes over `n` slots. */
  function StepCount(n: nat): nat {
    if n == 0 then 0 else n - 1
  }

  /** `draws` are the first steps' draws over `n` slots, each within [0, i]. */
  predicate DrawsFit(n: nat, draws: seq<int>) {
    && |draws| <= StepCount(n)
    && forall k :: 0 <= k < |draws| ==> 0 <= draws[k] <= n - 1 - k
  }

  /** `draws` hold one fitting draw for every step of the loop. */
  predicate FullDraws(n: nat, draws: seq<int>) {
    DrawsFit(n, draws) && |draws| == StepCount(n)
  }

  /** Slots `i` and `j` exchanged. */
  function Swap<T>(s: seq<T>, i: int, j: int): (r: seq<T>)
    requires 0 <= i < |s| && 0 <= j < |s|
    ensures |r| == |s| && r[i] == s[j] && r[j] == s[i]
    ensures forall k :: 0 <= k < |s| && k != i && k != j ==> r[k] == s[k]
  {
    seq(|s|, k requires 0 <= k < |s| => if k == i then s[j] else if k == j then s[i] else s[k])
  }

  /** A swap rearranges the sequence and neither adds nor loses an element. */
  lemma SwapPermutes<T>(s: seq<T>, i: int, j: int)
    requires 0 <= i < |s| && 0 <= j < |s|
    ensures multiset(Swap(s, i, j)) == multiset(s)
  {
    assert Swap(s, i, j) == s[i := s[j]][j := s[i]];
    calc {
      multiset(s[i := s[j]][j := s[i]]);
      multiset(s[i := s[j]]) - multiset{s[i := s[j]][j]} + multiset{s[i]};
    }
  }

  /**
   * The sequence after the first `m` steps of the loop, whose draws are
   * `draws[..m]`; a permutation of `s`.
   */
  function Steps<T>(s: seq<T>, draws: seq<int>, m: nat): (r: seq<T>)
    requires DrawsFit(|s|, draws) && m <= |draws|
    ensures |r| == |s|
  {
    if m == 0 then s
    else Swap(Steps(s, draws, m - 1), |s| - m, draws[m - 1])
  }

  /** Every prefix of the loop leaves a permutation of the original sequence. */
  lemma {:induction false} StepsPermute<T>(s: seq<T>, draws: seq<int>, m: nat)
    requires DrawsFit(|s|, draws) && m <= |draws|
    ensures multiset(Steps(s, draws, m)) == multiset(s)
  {
    if m > 0 {
      var before := Steps(s, draws, m - 1);
      var after := Swap(before, |s| - m, draws[m - 1]);
      assert Steps(s, draws, m) == after;
      StepsPermute(s, draws, m - 1);
      SwapPermutes(before, |s| - m, draws[m - 1]);
    }
  }

  /** The sequence after every step whose draw is given. */
  function Shuffle<T>(s: seq<T>, draws: seq<int>): seq<T>
    requires DrawsFit(|s|, draws)
  {
    Steps(s, draws, |draws|)
  }

  /** The destructuring swap `[a[i], a[j]] = [a[j], a[i]]`. */
  method SwapInPlace<T>(a: array<T>, i: int, j: int)
    requires 0 <= i < a.Length && 0 <= j < a.Length
    modifies a
    ensures a[..] == Swap(old(a[..]), i, j)
  {
    a[i], a[j] := a[j], a[i];
  }

  /** The shuffle loop, run in place on the array. */
  method ShuffleInPlace<T>(a: array<T>, draws: seq<int>)
    requires FullDraws(a.Length, draws)
    modifies a
    ensures a[..] == Shuffle(old(a[..]), draws)
    ensures multiset(a[..]) == multiset(old(a[..]))
  {
    ghost var s := a[..];
    var i := a.Length - 1;
    while i > 0
      invariant -1 <= i < a.Length
      invariant a.Length > 0 ==> 0 <= i
      invariant a[..] == Steps(s, draws, a.Length - 1 - i)
    {
      var j := draws[a.Length - 1 - i];
      SwapInPlace(a, i, j);
      i := i - 1;
    }
    StepsPermute(s, draws, |draws|);
  }
}
