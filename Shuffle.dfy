/** `shuffleArray` and `getRandomItems` of js/app.js. `Math.random` is replaced by a sequence of
    draws: `draws[i]` is the index `Math.floor(Math.random() * (i + 1))` picked at step `i`. */
module Shuffle {
  import opened Common

  /** Draws that `Math.floor(Math.random() * (i + 1))` can produce for a list of length `n`. */
  predicate ValidDraws(n: nat, draws: seq<nat>) {
    |draws| == n && forall i :: 0 <= i < n ==> draws[i] <= i
  }

  /** `[s[i], s[j]] = [s[j], s[i]]`. */
  function Swap<T>(s: seq<T>, i: nat, j: nat): (r: seq<T>)
    requires i < |s| && j < |s|
    ensures |r| == |s|
  {
    s[i := s[j]][j := s[i]]
  }

  /** The swap steps `i, i - 1, ..., 1` of the Fisher-Yates loop applied to `s`. */
  function ShuffleFrom<T>(s: seq<T>, draws: seq<nat>, i: int): seq<T>
    requires ValidDraws(|s|, draws) && i < |s|
    decreases i
  {
    if i <= 0 then s
    else ShuffleFrom(Swap(s, i, draws[i]), draws, i - 1)
  }

  /** The list `shuffleArray` returns for the given draws. */
  function Shuffled<T>(s: seq<T>, draws: seq<nat>): seq<T>
    requires ValidDraws(|s|, draws)
  {
    ShuffleFrom(s, draws, |s| - 1)
  }

  /** A swap only reorders. */
  lemma SwapPermutes<T>(s: seq<T>, i: nat, j: nat)
    requires i < |s| && j < |s|
    ensures multiset(Swap(s, i, j)) == multiset(s)
  {
    if i != j {
      assert Swap(s, i, j) == s[i := s[j]][j := s[i]];
      assert multiset(s[i := s[j]]) == multiset(s) - multiset{s[i]} + multiset{s[j]};
    }
  }

  /** The swap steps only reorder. */
  lemma {:induction false} ShuffleFromPermutes<T>(s: seq<T>, draws: seq<nat>, i: int)
    requires ValidDraws(|s|, draws) && i < |s|
    ensures |ShuffleFrom(s, draws, i)| == |s|
    ensures multiset(ShuffleFrom(s, draws, i)) == multiset(s)
    decreases i
  {
    if i > 0 {
      SwapPermutes(s, i, draws[i]);
      ShuffleFromPermutes(Swap(s, i, draws[i]), draws, i - 1);
    }
  }

  /** `shuffleArray` returns a permutation of its input. */
  lemma ShuffledPermutes<T>(s: seq<T>, draws: seq<nat>)
    requires ValidDraws(|s|, draws)
    ensures |Shuffled(s, draws)| == |s|
    ensures multiset(Shuffled(s, draws)) == multiset(s)
  {
    ShuffleFromPermutes(s, draws, |s| - 1);
  }

  /** A shuffled list holds the same values as the original, and no value twice if the
      original had none twice. */
  lemma ShuffledSameElements<T>(s: seq<T>, draws: seq<nat>)
    requires ValidDraws(|s|, draws)
    ensures var r := Shuffled(s, draws);
            && |r| == |s|
            && (forall x :: x in r <==> x in s)
            && (Distinct(s) ==> Distinct(r))
  {
    var r := Shuffled(s, draws);
    ShuffledPermutes(s, draws);
    forall x ensures x in r <==> x in s {
      assert x in r <==> multiset(r)[x] > 0;
      assert x in s <==> multiset(s)[x] > 0;
    }
    if Distinct(s) {
      SubMultisetDistinct(r, s);
    }
  }

  /** `shuffleArray(array)`: the swap loop runs on a copy, so the caller's list is left as it
      was; the result is the list the draws select. */
  method ShuffleArray<T>(s: seq<T>, draws: seq<nat>) returns (r: seq<T>)
    requires ValidDraws(|s|, draws)
    ensures r == Shuffled(s, draws)
  {
    var shuffled := new T[|s|](k requires 0 <= k < |s| => s[k]);
    assert shuffled[..] == s;
    var i := |s| - 1;
    while i > 0
      invariant -1 <= i < |s|
      invariant ShuffleFrom(shuffled[..], draws, i) == Shuffled(s, draws)
      decreases i
    {
      var j := draws[i];
      ghost var before := shuffled[..];
      shuffled[i], shuffled[j] := shuffled[j], shuffled[i];
      assert shuffled[..] == Swap(before, i, j);
      i := i - 1;
    }
    r := shuffled[..];
  }

  /** The end index of `slice(0, count)` on a list of length `n`; a negative count counts from
      the end. */
  function SliceEnd(n: nat, count: int): (e: nat)
    ensures e <= n
    ensures count >= 0 ==> e == Min(count, n)
    ensures count < 0 ==> e == Max(0, n + count)
  {
    if count >= 0 then Min(count, n) else Max(0, n + count)
  }

  /** `slice(0, count)` keeps exactly the positions below `count`, or, for a negative count,
      those more than `-count` positions from the end. */
  lemma SliceEndKeeps(n: nat, count: int, i: nat)
    requires i < n
    ensures i < SliceEnd(n, count) <==> (if count >= 0 then i < count else i < n + count)
  {
  }

  /** The items `getRandomItems(array, count)` returns for the given draws. */
  function RandomItems<T>(s: seq<T>, count: int, draws: seq<nat>): seq<T>
    requires ValidDraws(|s|, draws)
  {
    ShuffledPermutes(s, draws);
    Shuffled(s, draws)[..SliceEnd(|s|, count)]
  }

  /** `getRandomItems` takes `min(count, |array|)` items, each from its own position of the
      array; so a list without repetitions gives items without repetitions. */
  lemma RandomItemsFromArray<T>(s: seq<T>, count: int, draws: seq<nat>)
    requires ValidDraws(|s|, draws)
    ensures var r := RandomItems(s, count, draws);
            |r| == SliceEnd(|s|, count)
            && multiset(r) <= multiset(s)
            && (forall x :: x in r ==> x in s)
            && (Distinct(s) ==> Distinct(r))
  {
    var t := Shuffled(s, draws);
    ShuffledPermutes(s, draws);
    var e := SliceEnd(|s|, count);
    assert t == t[..e] + t[e..];
    assert multiset(t) == multiset(t[..e]) + multiset(t[e..]);
    forall x | x in t[..e] ensures x in s {
      assert multiset(t[..e])[x] > 0;
      assert multiset(s)[x] > 0;
    }
    if Distinct(s) {
      SubMultisetDistinct(t[..e], s);
    }
  }

  /** `getRandomItems(array, count)`. */
  method GetRandomItems<T>(s: seq<T>, count: int, draws: seq<nat>) returns (r: seq<T>)
    requires ValidDraws(|s|, draws)
    ensures r == RandomItems(s, count, draws)
  {
    var shuffled := ShuffleArray(s, draws);
    ShuffledPermutes(s, draws);
    r := shuffled[..SliceEnd(|s|, count)];
  }
}
