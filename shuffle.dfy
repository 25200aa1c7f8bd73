/**
 * Random reordering and descending stable sorting. The random draws of
 * `Math.random()` are a parameter: iteration `k` of the Fisher-Yates loop
 * swaps position `i` with `draws[k] % (i + 1)`, so every choice the source can
 * make is some choice of draws.
 */
module Shuffle {
  import opened TextUtil

  function Draw(draws: seq<nat>, k: nat): nat
  {
    if k < |draws| then draws[k] else 0
  }

  function Swap<T>(s: seq<T>, i: nat, j: nat): (r: seq<T>)
    requires i < |s| && j < |s|
  {
    s[i := s[j]][j := s[i]]
  }

  /** The Fisher-Yates iterations for positions `i` down to 1 of a sequence of length `n`. */
  function Steps<T>(s: seq<T>, draws: seq<nat>, i: nat): (r: seq<T>)
    requires i < |s|
    ensures |r| == |s|
    decreases i
  {
    if i == 0 then s
    else
      var j := Draw(draws, |s| - 1 - i) % (i + 1);
      Steps(Swap(s, i, j), draws, i - 1)
  }

  /** The order a Fisher-Yates shuffle of `s` produces for the given draws. */
  function Permute<T>(s: seq<T>, draws: seq<nat>): (r: seq<T>)
    ensures |r| == |s|
  {
    if |s| <= 1 then s else Steps(s, draws, |s| - 1)
  }

  lemma {:induction false} StepsPermutes<T>(s: seq<T>, draws: seq<nat>, i: nat)
    requires i < |s|
    ensures |Steps(s, draws, i)| == |s|
    ensures multiset(Steps(s, draws, i)) == multiset(s)
    decreases i
  {
    if i > 0 {
      var j := Draw(draws, |s| - 1 - i) % (i + 1);
      var t := Swap(s, i, j);
      SwapPermutes(s, i, j);
      StepsPermutes(t, draws, i - 1);
      assert Steps(s, draws, i) == Steps(t, draws, i - 1);
    }
  }

  lemma SwapPermutes<T>(s: seq<T>, i: nat, j: nat)
    requires i < |s| && j < |s|
    ensures |Swap(s, i, j)| == |s| && multiset(Swap(s, i, j)) == multiset(s)
  {
    if i != j {
      assert multiset(s[i := s[j]]) == multiset(s) - multiset{s[i]} + multiset{s[j]};
    }
  }

  /** Shuffling keeps every element with its multiplicity: the result is a permutation. */
  lemma PermuteIsPermutation<T>(s: seq<T>, draws: seq<nat>)
    ensures |Permute(s, draws)| == |s|
    ensures multiset(Permute(s, draws)) == multiset(s)
  {
    if |s| > 1 {
      StepsPermutes(s, draws, |s| - 1);
    }
  }

  /** The later Fisher-Yates iterations leave the positions above `i` alone. */
  lemma {:induction false} StepsKeepAbove<T>(s: seq<T>, draws: seq<nat>, i: nat, m: nat)
    requires i < m < |s|
    ensures |Steps(s, draws, i)| == |s| && Steps(s, draws, i)[m] == s[m]
    decreases i
  {
    StepsPermutes(s, draws, i);
    if i > 0 {
      var j := Draw(draws, |s| - 1 - i) % (i + 1);
      StepsKeepAbove(Swap(s, i, j), draws, i - 1, m);
    }
  }

  /** A first draw that is a multiple of the length swaps the first element to the end, where it stays. */
  lemma FirstDrawZeroSendsFirstToLast<T>(s: seq<T>, draws: seq<nat>)
    requires |s| >= 2 && Draw(draws, 0) % |s| == 0
    ensures Permute(s, draws)[|s| - 1] == s[0]
  {
    var n := |s| - 1;
    var swapped := Swap(s, n, 0);
    assert Steps(s, draws, n) == Steps(swapped, draws, n - 1);
    if n > 1 {
      StepsKeepAbove(swapped, draws, n - 1, n);
    }
  }

  /** Cutting a shuffle keeps at most `n` of the original elements, none more often than before. */
  lemma TakePermuted<T>(s: seq<T>, draws: seq<nat>, n: nat)
    ensures |Take(Permute(s, draws), n)| <= n
    ensures multiset(Take(Permute(s, draws), n)) <= multiset(s)
  {
    PermuteIsPermutation(s, draws);
    var p := Permute(s, draws);
    var r := Take(p, n);
    assert p == r + p[|r|..];
  }

  /** A value at two positions occurs at least twice. */
  lemma TwiceCounted<T>(s: seq<T>, i: nat, j: nat)
    requires i < j < |s| && s[i] == s[j]
    ensures multiset(s)[s[i]] >= 2
  {
    assert s == s[..j] + s[j..];
    assert s[..j][i] == s[i];
    assert s[j..][0] == s[i];
    assert multiset(s) == multiset(s[..j]) + multiset(s[j..]);
  }

  lemma StepsUnfold<T>(s: seq<T>, draws: seq<nat>, i: nat)
    requires 0 < i < |s|
    ensures Steps(s, draws, i) == Steps(Swap(s, i, Draw(draws, |s| - 1 - i) % (i + 1)), draws, i - 1)
  {
  }

  /** `[arr[i], arr[j]] = [arr[j], arr[i]]`. */
  method SwapInPlace<T>(a: array<T>, i: nat, j: nat)
    requires i < a.Length && j < a.Length
    modifies a
    ensures a[..] == Swap(old(a[..]), i, j)
  {
    a[i], a[j] := a[j], a[i];
  }

  /** The shuffle of a copy of the input, swapping in place from the last position down. */
  method ShuffleCopy<T>(s: seq<T>, draws: seq<nat>) returns (r: seq<T>)
    ensures r == Permute(s, draws)
    ensures multiset(r) == multiset(s)
  {
    PermuteIsPermutation(s, draws);
    if |s| <= 1 {
      return s;
    }
    var a := new T[|s|](k requires 0 <= k < |s| => s[k]);
    assert a[..] == s;
    ShuffleInPlace(a, draws);
    r := a[..];
  }

  /** The Fisher-Yates loop on the copy, from its last position down to 1. */
  method ShuffleInPlace<T>(a: array<T>, draws: seq<nat>)
    requires a.Length >= 2
    modifies a
    ensures a[..] == Permute(old(a[..]), draws)
  {
    ghost var s := a[..];
    var i := a.Length - 1;
    while i > 0
      invariant 0 <= i < a.Length
      invariant Steps(a[..], draws, i) == Permute(s, draws)
    {
      var j := Draw(draws, a.Length - 1 - i) % (i + 1);
      StepsUnfold(a[..], draws, i);
      SwapInPlace(a, i, j);
      i := i - 1;
    }
  }

  /** Insert `x` before the first element whose key is not greater than its own. */
  function InsertDesc<T>(x: T, s: seq<T>, key: T -> real): (r: seq<T>)
    ensures |r| == |s| + 1
    ensures multiset(r) == multiset(s) + multiset{x}
  {
    if s == [] || key(s[0]) <= key(x) then [x] + s
    else
      assert s == [s[0]] + s[1..];
      [s[0]] + InsertDesc(x, s[1..], key)
  }

  /**
   * `Array.prototype.sort` with comparator `(a, b) => key(b) - key(a)`:
   * a stable sort by descending key.
   */
  function SortDesc<T>(s: seq<T>, key: T -> real): (r: seq<T>)
    ensures |r| == |s|
    ensures multiset(r) == multiset(s)
  {
    if s == [] then []
    else
      assert s == [s[0]] + s[1..];
      InsertDesc(s[0], SortDesc(s[1..], key), key)
  }

  predicate SortedDesc<T>(s: seq<T>, key: T -> real)
  {
    forall i, j :: 0 <= i < j < |s| ==> key(s[i]) >= key(s[j])
  }

  lemma {:induction false} InsertDescSorted<T>(x: T, s: seq<T>, key: T -> real)
    requires SortedDesc(s, key)
    ensures SortedDesc(InsertDesc(x, s, key), key)
    ensures InsertDesc(x, s, key)[0] == x || (s != [] && InsertDesc(x, s, key)[0] == s[0])
  {
    if s != [] && key(s[0]) > key(x) {
      InsertDescSorted(x, s[1..], key);
    }
  }

  /** The sorted order is descending by key. */
  lemma {:induction false} SortDescSorted<T>(s: seq<T>, key: T -> real)
    ensures SortedDesc(SortDesc(s, key), key)
  {
    if s != [] {
      SortDescSorted(s[1..], key);
      InsertDescSorted(s[0], SortDesc(s[1..], key), key);
    }
  }

  /** The elements whose key is `k`. */
  function KeyIs<T>(key: T -> real, k: real): T -> bool
  {
    x => key(x) == k
  }

  /** Inserting passes only elements of greater key, so among equal keys `x` comes first. */
  lemma {:induction false} InsertDescStable<T>(x: T, s: seq<T>, key: T -> real, k: real)
    ensures Filter(InsertDesc(x, s, key), KeyIs(key, k)) == Filter([x] + s, KeyIs(key, k))
  {
    if s != [] && key(s[0]) > key(x) {
      InsertDescStable(x, s[1..], key, k);
      var p := KeyIs(key, k);
      var t := InsertDesc(x, s[1..], key);
      assert InsertDesc(x, s, key) == [s[0]] + t;
      assert ([s[0]] + t)[1..] == t;
      assert ([x] + s)[1..] == s;
      assert ([x] + s[1..])[1..] == s[1..];
      if key(x) == k {
        assert !p(s[0]);
      } else {
        assert !p(x);
      }
    }
  }

  /**
   * The sort is stable: the elements of any one key appear in the result in
   * the same order, and as often, as in the input.
   */
  lemma {:induction false} SortDescStable<T>(s: seq<T>, key: T -> real, k: real)
    ensures Filter(SortDesc(s, key), KeyIs(key, k)) == Filter(s, KeyIs(key, k))
  {
    if s != [] {
      var t := SortDesc(s[1..], key);
      SortDescStable(s[1..], key, k);
      InsertDescStable(s[0], t, key, k);
      assert ([s[0]] + t)[1..] == t;
    }
  }

  /** No two elements share a name. */
  predicate DistinctBy<T>(s: seq<T>, name: T -> string)
  {
    forall i, j :: 0 <= i < j < |s| ==> name(s[i]) != name(s[j])
  }

  lemma {:induction false} InsertDescDistinct<T>(x: T, s: seq<T>, key: T -> real, name: T -> string)
    requires DistinctBy(s, name)
    requires forall y :: y in s ==> name(y) != name(x)
    ensures DistinctBy(InsertDesc(x, s, key), name)
  {
    var r := InsertDesc(x, s, key);
    if s == [] || key(s[0]) <= key(x) {
      forall i, j | 0 <= i < j < |r| ensures name(r[i]) != name(r[j]) {
        assert r[j] == s[j - 1];
        if i > 0 { assert r[i] == s[i - 1]; }
      }
    } else {
      InsertDescDistinct(x, s[1..], key, name);
      var t := InsertDesc(x, s[1..], key);
      assert r == [s[0]] + t;
      forall i, j | 0 <= i < j < |r| ensures name(r[i]) != name(r[j]) {
        if i == 0 {
          assert r[j] == t[j - 1];
          assert r[j] in multiset(s[1..]) + multiset{x};
          if r[j] != x {
            assert r[j] in s[1..];
            var m :| 0 <= m < |s[1..]| && s[1..][m] == r[j];
            assert s[m + 1] == r[j];
          } else {
            assert s[0] in s;
          }
        } else {
          assert r[i] == t[i - 1] && r[j] == t[j - 1];
        }
      }
    }
  }

  /** Sorting keeps names distinct. */
  lemma {:induction false} SortDescDistinct<T>(s: seq<T>, key: T -> real, name: T -> string)
    requires DistinctBy(s, name)
    ensures DistinctBy(SortDesc(s, key), name)
  {
    if s != [] {
      assert DistinctBy(s[1..], name) by {
        forall i, j | 0 <= i < j < |s[1..]| ensures name(s[1..][i]) != name(s[1..][j]) {
          assert s[1..][i] == s[i + 1] && s[1..][j] == s[j + 1];
        }
      }
      SortDescDistinct(s[1..], key, name);
      var t := SortDesc(s[1..], key);
      forall y | y in t ensures name(y) != name(s[0]) {
        assert y in multiset(s[1..]);
        var m :| 0 <= m < |s[1..]| && s[1..][m] == y;
        assert s[m + 1] == y;
      }
      InsertDescDistinct(s[0], t, key, name);
    }
  }
}
