/**
 * The Fisher-Yates shuffle of the client (`shuffleArray`). The random draws
 * `Math.floor(Math.random() * (i + 1))` are supplied by the caller: `draws[i]`
 * is the index drawn when the loop is at position `i`, so `draws[i] <= i`
 * (`draws[0]` is never used, as the loop stops before position 0).
 */
module Shuffle {

  /** Draws that `Math.random` could have produced for an array of length `n`. */
  predicate ValidDraws(draws: seq<nat>, n: nat)
  {
    |draws| == n && forall i :: 0 <= i < n ==> draws[i] <= i
  }

  /** `s` with the elements at `i` and `j` exchanged (`[arr[i], arr[j]] = [arr[j], arr[i]]`). */
  function Swap<T>(s: seq<T>, i: nat, j: nat): seq<T>
    requires i < |s| && j < |s|
  {
    s[i := s[j]][j := s[i]]
  }

  /** Swapping two positions keeps the length and the elements. */
  lemma SwapPermutes<T>(s: seq<T>, i: nat, j: nat)
    requires i < |s| && j < |s|
    ensures |Swap(s, i, j)| == |s|
    ensures multiset(Swap(s, i, j)) == multiset(s)
  {
    var t := s[i := s[j]];
    assert multiset(t) == multiset(s) - multiset{s[i]} + multiset{s[j]};
    assert multiset(t[j := s[i]]) == multiset(t) - multiset{t[j]} + multiset{s[i]};
  }

  /**
   * The loop's remaining work: the positions `k - 1` down to `1` are still to
   * be processed, each swapped with the position drawn for it.
   */
  function ShuffleDown<T>(s: seq<T>, draws: seq<nat>, k: nat): seq<T>
    requires ValidDraws(draws, |s|) && k <= |s|
    decreases k
  {
    if k <= 1 then s
    else ShuffleDown(Swap(s, k - 1, draws[k - 1]), draws, k - 1)
  }

  /** The array `shuffleArray` returns for the given draws. */
  function FisherYates<T>(s: seq<T>, draws: seq<nat>): (shuffled: seq<T>)
    requires ValidDraws(draws, |s|)
    ensures |shuffled| == |s|
    ensures |s| <= 1 ==> shuffled == s
  {
    ShuffleDownPermutes(s, draws, |s|);
    ShuffleDown(s, draws, |s|)
  }

  lemma {:induction false} ShuffleDownPermutes<T>(s: seq<T>, draws: seq<nat>, k: nat)
    requires ValidDraws(draws, |s|) && k <= |s|
    ensures |ShuffleDown(s, draws, k)| == |s|
    ensures multiset(ShuffleDown(s, draws, k)) == multiset(s)
    decreases k
  {
    if k > 1 {
      SwapPermutes(s, k - 1, draws[k - 1]);
      ShuffleDownPermutes(Swap(s, k - 1, draws[k - 1]), draws, k - 1);
    }
  }

  /** Whatever the draws, the shuffled array is a permutation of the input. */
  lemma FisherYatesPermutes<T>(s: seq<T>, draws: seq<nat>)
    requires ValidDraws(draws, |s|)
    ensures |FisherYates(s, draws)| == |s|
    ensures multiset(FisherYates(s, draws)) == multiset(s)
  {
    ShuffleDownPermutes(s, draws, |s|);
  }

  /**
   * `shuffleArray`: copies its argument (`array.slice()`) and shuffles the copy
   * in place from the last position down to position 1. The argument is not
   * modified, as the method may modify nothing that existed before the call.
   */
  method ShuffleArray<T>(source: array<T>, draws: seq<nat>) returns (arr: array<T>)
    requires ValidDraws(draws, source.Length)
    ensures fresh(arr)
    ensures arr[..] == FisherYates(source[..], draws)
    ensures multiset(arr[..]) == multiset(source[..])
  {
    arr := new T[source.Length](k reads source requires 0 <= k < source.Length => source[k]);
    assert arr[..] == source[..];
    var i := arr.Length - 1;
    while i > 0
      invariant -1 <= i < arr.Length
      invariant arr.Length == 0 ==> i == -1
      invariant ShuffleDown(arr[..], draws, i + 1) == FisherYates(source[..], draws)
    {
      var j := draws[i];
      arr[i], arr[j] := arr[j], arr[i];
      i := i - 1;
    }
    FisherYatesPermutes(source[..], draws);
  }
}
