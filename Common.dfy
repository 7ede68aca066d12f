/** Small value types and sequence helpers shared by the whole model. */
module Common {

  /** A value that may be absent: JavaScript's `null`/`undefined`, or a `NaN` number. */
  datatype Option<+T> = None | Some(value: T)

  function Min(a: int, b: int): int { if a <= b then a else b }

  function Max(a: int, b: int): int { if a >= b then a else b }

  /** No element occurs twice. */
  predicate Distinct<T(==)>(s: seq<T>) {
    forall i, j :: 0 <= i < j < |s| ==> s[i] != s[j]
  }

  /** The set of the elements of `s`. */
  function Elements<T>(s: seq<T>): set<T> {
    set x | x in s
  }

  /** A list without repetitions has as many distinct elements as entries. */
  lemma {:induction false} DistinctCard<T>(s: seq<T>)
    requires Distinct(s)
    ensures |Elements(s)| == |s|
  {
    if s != [] {
      assert Distinct(s[1..]);
      DistinctCard(s[1..]);
      assert Elements(s) == {s[0]} + Elements(s[1..]);
      assert s[0] !in Elements(s[1..]);
    }
  }

  /** A list holding two different values has at least two entries. */
  lemma TwoMembers<T>(s: seq<T>, x: T, y: T)
    requires x in s && y in s && x != y
    ensures |s| >= 2
  {
  }

  /** A sequence is free of repetitions exactly when no element has multiplicity above one. */
  lemma {:induction false} DistinctIffSingleCounts<T>(s: seq<T>)
    ensures Distinct(s) <==> forall x :: multiset(s)[x] <= 1
  {
    if s != [] {
      DistinctIffSingleCounts(s[1..]);
      assert s == [s[0]] + s[1..];
      assert multiset(s) == multiset{s[0]} + multiset(s[1..]);
      if Distinct(s) {
        assert Distinct(s[1..]);
        assert s[0] !in s[1..];
      } else {
        var i, j :| 0 <= i < j < |s| && s[i] == s[j];
        if i == 0 {
          assert s[0] in s[1..] by { assert s[1..][j - 1] == s[j]; }
          assert multiset(s)[s[0]] >= 2;
        } else {
          assert s[1..][i - 1] == s[1..][j - 1];
          assert !Distinct(s[1..]);
          var x :| multiset(s[1..])[x] > 1;
          assert multiset(s)[x] > 1;
        }
      }
    }
  }

  /** A sequence whose multiset is contained in that of a repetition-free one has no repetition:
      taking elements from distinct positions of a list of distinct values gives distinct values. */
  lemma SubMultisetDistinct<T>(r: seq<T>, s: seq<T>)
    requires Distinct(s) && multiset(r) <= multiset(s)
    ensures Distinct(r)
  {
    DistinctIffSingleCounts(s);
    DistinctIffSingleCounts(r);
  }

  /** The elements of `s` that do not occur in `excluded`, in order: a filter by
      `!excluded.includes(x)`. */
  function Without<T(==,!new)>(s: seq<T>, excluded: seq<T>): (r: seq<T>)
    ensures |r| <= |s|
    ensures forall x :: x in r <==> x in s && x !in excluded
  {
    if s == [] then []
    else (if s[0] in excluded then [] else [s[0]]) + Without(s[1..], excluded)
  }

  /** `Without` distributes over concatenation. */
  lemma {:induction false} WithoutAppend<T(!new)>(a: seq<T>, b: seq<T>, excluded: seq<T>)
    ensures Without(a + b, excluded) == Without(a, excluded) + Without(b, excluded)
  {
    if a == [] {
      assert a + b == b;
    } else {
      assert (a + b)[0] == a[0] && (a + b)[1..] == a[1..] + b;
      WithoutAppend(a[1..], b, excluded);
    }
  }

  /** A list none of whose values is excluded is left as it is. */
  lemma {:induction false} WithoutNothing<T(!new)>(s: seq<T>, excluded: seq<T>)
    requires forall x :: x in s ==> x !in excluded
    ensures Without(s, excluded) == s
  {
    if s != [] {
      assert s[0] in s;
      WithoutNothing(s[1..], excluded);
    }
  }

  /** Removing values keeps a list free of repetitions. */
  lemma {:induction false} WithoutDistinct<T(!new)>(s: seq<T>, excluded: seq<T>)
    requires Distinct(s)
    ensures Distinct(Without(s, excluded))
  {
    if s != [] {
      assert Distinct(s[1..]);
      WithoutDistinct(s[1..], excluded);
      var tail := Without(s[1..], excluded);
      assert s[0] !in tail;
    }
  }

  /** Number of `true` entries. */
  function CountTrue(s: seq<bool>): (n: nat)
    ensures n <= |s|
  {
    if s == [] then 0 else (if s[0] then 1 else 0) + CountTrue(s[1..])
  }

  /** `n` times `false`. */
  function AllFalse(n: nat): (r: seq<bool>)
    ensures |r| == n && CountTrue(r) == 0
    ensures forall i :: 0 <= i < n ==> !r[i]
  {
    if n == 0 then [] else [false] + AllFalse(n - 1)
  }

  /** Setting one `false` entry to `true` raises the count by one. */
  lemma {:induction false} CountTrueSet(s: seq<bool>, i: nat)
    requires i < |s| && !s[i]
    ensures CountTrue(s[i := true]) == CountTrue(s) + 1
  {
    if i > 0 {
      assert s[i := true][1..] == s[1..][i - 1 := true];
      CountTrueSet(s[1..], i - 1);
    }
  }

  /** The count is the length only when every entry is `true`. */
  lemma {:induction false} CountTrueAll(s: seq<bool>)
    ensures CountTrue(s) == |s| <==> forall i :: 0 <= i < |s| ==> s[i]
  {
    if s != [] {
      CountTrueAll(s[1..]);
      if forall i :: 0 <= i < |s| ==> s[i] {
        assert forall i :: 0 <= i < |s[1..]| ==> s[1..][i] by {
          forall i | 0 <= i < |s[1..]| ensures s[1..][i] { assert s[1..][i] == s[i + 1]; }
        }
      } else if s[0] {
        var i :| 0 <= i < |s| && !s[i];
        assert s[1..][i - 1] == s[i];
      }
    }
  }
}
