/**
 * LINQ's OrderByDescending with a key: a stable sort, greatest key first, elements with
 * equal keys in their original order. The CVNSS converter sorts its consonant table
 * with it (CvnssConverter.LoadFromJson and AlignConsonants).
 */
module StableSort {
  /** The element-wise image of xs under f (LINQ Select). */
  function Map<T, U>(f: T -> U, xs: seq<T>): (r: seq<U>)
    ensures |r| == |xs| && forall i | 0 <= i < |xs| :: r[i] == f(xs[i])
  {
    if |xs| == 0 then [] else [f(xs[0])] + Map(f, xs[1..])
  }

  /** x goes after every element of ys whose key is greater. */
  function Insert<T>(x: T, ys: seq<T>, key: T -> int): (r: seq<T>)
    ensures multiset(r) == multiset(ys) + multiset{x}
  {
    if |ys| == 0 || key(ys[0]) <= key(x) then [x] + ys
    else
      assert ys == [ys[0]] + ys[1..];
      [ys[0]] + Insert(x, ys[1..], key)
  }

  /** OrderByDescending(key), by insertion from the back. */
  function SortDesc<T>(xs: seq<T>, key: T -> int): (r: seq<T>)
    ensures multiset(r) == multiset(xs)
  {
    if |xs| == 0 then []
    else
      assert xs == [xs[0]] + xs[1..];
      Insert(xs[0], SortDesc(xs[1..], key), key)
  }

  /** A permutation has the same length and only elements of the original. */
  lemma PermutationMembers<T>(a: seq<T>, b: seq<T>)
    requires multiset(a) == multiset(b)
    ensures |a| == |b| && forall k | 0 <= k < |a| :: a[k] in b
  {
    assert |multiset(a)| == |multiset(b)|;
    forall k | 0 <= k < |a|
      ensures a[k] in b
    {
      assert a[k] in multiset(b);
    }
  }

  /** a may come before b: a greater key, or an equal key and an earlier rank. */
  predicate Before<T>(a: T, b: T, key: T -> int, rank: T -> int) {
    key(a) > key(b) || (key(a) == key(b) && rank(a) < rank(b))
  }

  /** Sorted by key, greatest first, and by rank among equal keys. */
  predicate StableFor<T>(xs: seq<T>, key: T -> int, rank: T -> int) {
    forall i, j | 0 <= i < j < |xs| :: Before(xs[i], xs[j], key, rank)
  }

  predicate Increasing<T>(xs: seq<T>, rank: T -> int) {
    forall i, j | 0 <= i < j < |xs| :: rank(xs[i]) < rank(xs[j])
  }

  lemma {:induction false} InsertStable<T>(x: T, ys: seq<T>, key: T -> int, rank: T -> int)
    requires StableFor(ys, key, rank)
    requires forall y | y in ys :: rank(x) < rank(y)
    ensures StableFor(Insert(x, ys, key), key, rank)
  {
    var r := Insert(x, ys, key);
    if |ys| == 0 || key(ys[0]) <= key(x) {
      forall i, j | 0 <= i < j < |r|
        ensures Before(r[i], r[j], key, rank)
      {
        assert r[j] == ys[j - 1];
        if i == 0 {
          assert ys[j - 1] in ys;
          if j > 1 {
            assert Before(ys[0], ys[j - 1], key, rank);
          }
        } else {
          assert r[i] == ys[i - 1];
        }
      }
    } else {
      var tail := Insert(x, ys[1..], key);
      assert forall y | y in ys[1..] :: y in ys;
      InsertStable(x, ys[1..], key, rank);
      assert r == [ys[0]] + tail;
      forall i, j | 0 <= i < j < |r|
        ensures Before(r[i], r[j], key, rank)
      {
        var z := tail[j - 1];
        assert r[j] == z;
        if i == 0 {
          assert z in multiset(tail);
          if z != x {
            assert z in multiset(ys[1..]);
            var m :| 0 <= m < |ys[1..]| && ys[1..][m] == z;
            assert ys[m + 1] == z;
          }
        } else {
          assert r[i] == tail[i - 1];
        }
      }
    }
  }

  /**
   * The sort is stable: when the ranks increase along the input (its original positions),
   * the output is ordered by key, greatest first, and by original position among equal keys.
   */
  lemma {:induction false} SortStable<T>(xs: seq<T>, key: T -> int, rank: T -> int)
    requires Increasing(xs, rank)
    ensures StableFor(SortDesc(xs, key), key, rank)
  {
    if |xs| > 0 {
      var rest := SortDesc(xs[1..], key);
      SortStable(xs[1..], key, rank);
      forall y | y in rest
        ensures rank(xs[0]) < rank(y)
      {
        assert y in multiset(xs[1..]);
        var m :| 0 <= m < |xs[1..]| && xs[1..][m] == y;
        assert xs[m + 1] == y;
      }
      InsertStable(xs[0], rest, key, rank);
    }
  }

  lemma {:induction false} InsertNatural<T, U>(x: T, ys: seq<T>, f: T -> U, key: T -> int, keyU: U -> int)
    requires forall t :: key(t) == keyU(f(t))
    ensures Map(f, Insert(x, ys, key)) == Insert(f(x), Map(f, ys), keyU)
  {
    if |ys| > 0 && key(ys[0]) > key(x) {
      InsertNatural(x, ys[1..], f, key, keyU);
      assert Map(f, ys)[1..] == Map(f, ys[1..]);
    }
  }

  /**
   * Sorting commutes with projecting when the key only looks at the projection: sorting
   * (cvn, cqn) pairs by the length of cvn and keeping cvn gives cvn sorted by length.
   */
  lemma {:induction false} SortNatural<T, U>(xs: seq<T>, f: T -> U, key: T -> int, keyU: U -> int)
    requires forall t :: key(t) == keyU(f(t))
    ensures Map(f, SortDesc(xs, key)) == SortDesc(Map(f, xs), keyU)
  {
    if |xs| > 0 {
      SortNatural(xs[1..], f, key, keyU);
      InsertNatural(xs[0], SortDesc(xs[1..], key), f, key, keyU);
      assert Map(f, xs)[1..] == Map(f, xs[1..]);
    }
  }
}
