/**
 * `xs.sort((a, b) => key(b) - key(a))`: a stable sort into non-increasing
 * key order, as the order history and the customer list apply it to
 * `createdAt`. `Array.prototype.sort` is stable, so elements with equal keys
 * keep their input order; `SortDescStable` states that of the model.
 */
module Sorting {
  import opened Seqs

  ghost predicate SortedDesc<T>(xs: seq<T>, key: T -> int) {
    forall i, j :: 0 <= i < j < |xs| ==> key(xs[i]) >= key(xs[j])
  }

  /** Places `x` before the first element whose key is not larger, so ahead of every element with its key. */
  function Insert<T>(x: T, xs: seq<T>, key: T -> int): (r: seq<T>)
    ensures multiset(r) == multiset(xs) + multiset{x}
    decreases |xs|
  {
    if |xs| == 0 || key(xs[0]) <= key(x) then [x] + xs
    else
      assert xs == [xs[0]] + xs[1..];
      [xs[0]] + Insert(x, xs[1..], key)
  }

  lemma {:induction false} InsertKeepsSorted<T>(x: T, xs: seq<T>, key: T -> int)
    requires SortedDesc(xs, key)
    ensures SortedDesc(Insert(x, xs, key), key)
    decreases |xs|
  {
    if |xs| > 0 && key(xs[0]) > key(x) {
      var rest := Insert(x, xs[1..], key);
      InsertKeepsSorted(x, xs[1..], key);
      forall k | 0 <= k < |rest|
        ensures key(xs[0]) >= key(rest[k])
      {
        assert rest[k] in multiset(rest);
        if rest[k] != x {
          assert rest[k] in multiset(xs[1..]);
          var j :| 0 <= j < |xs[1..]| && xs[1..][j] == rest[k];
          assert xs[j + 1] == rest[k];
        }
      }
    }
  }

  /** The order the source's comparator produces, on every input. */
  function SortDesc<T>(xs: seq<T>, key: T -> int): (r: seq<T>)
    ensures multiset(r) == multiset(xs)
    decreases |xs|
  {
    if |xs| == 0 then []
    else
      assert xs == [xs[0]] + xs[1..];
      Insert(xs[0], SortDesc(xs[1..], key), key)
  }

  /** The sorted result is a permutation of the input in non-increasing key order, of the same length. */
  lemma {:induction false} SortDescSorted<T>(xs: seq<T>, key: T -> int)
    ensures SortedDesc(SortDesc(xs, key), key)
    ensures multiset(SortDesc(xs, key)) == multiset(xs)
    ensures |SortDesc(xs, key)| == |xs|
    decreases |xs|
  {
    assert |multiset(SortDesc(xs, key))| == |multiset(xs)|;
    if |xs| > 0 {
      SortDescSorted(xs[1..], key);
      InsertKeepsSorted(xs[0], SortDesc(xs[1..], key), key);
    }
  }

  /** The elements whose key is `k`. */
  function KeyIs<T>(key: T -> int, k: int): T -> bool {
    (y: T) => key(y) == k
  }

  /** The ties `x` brings along: itself when its key is `k`, nothing otherwise. */
  function Ties<T>(x: T, key: T -> int, k: int): seq<T> {
    if key(x) == k then [x] else []
  }

  /** Inserting `x` puts it before every element of its own key and moves no other element of that key. */
  lemma {:induction false} InsertTies<T>(x: T, xs: seq<T>, key: T -> int, k: int)
    ensures Filter(Insert(x, xs, key), KeyIs(key, k)) == Ties(x, key, k) + Filter(xs, KeyIs(key, k))
    decreases |xs|
  {
    if |xs| == 0 || key(xs[0]) <= key(x) {
      FilterCons(x, xs, KeyIs(key, k));
    } else {
      InsertTies(x, xs[1..], key, k);
      InsertTiesPast(x, xs, key, k);
    }
  }

  /** The step past an element with a larger key, which cannot be a tie of `x`. */
  lemma InsertTiesPast<T>(x: T, xs: seq<T>, key: T -> int, k: int)
    requires |xs| > 0 && key(xs[0]) > key(x)
    requires Filter(Insert(x, xs[1..], key), KeyIs(key, k)) == Ties(x, key, k) + Filter(xs[1..], KeyIs(key, k))
    ensures Filter(Insert(x, xs, key), KeyIs(key, k)) == Ties(x, key, k) + Filter(xs, KeyIs(key, k))
  {
    var rest := Insert(x, xs[1..], key);
    assert Insert(x, xs, key) == [xs[0]] + rest;
    FilterCons(xs[0], rest, KeyIs(key, k));
    FilterHead(xs, KeyIs(key, k));
    if key(xs[0]) == k {
      PastTie(Ties(x, key, k), xs[0], Filter(rest, KeyIs(key, k)), Filter(xs[1..], KeyIs(key, k)));
    } else {
      PastOther(Ties(x, key, k), Filter(rest, KeyIs(key, k)), Filter(xs[1..], KeyIs(key, k)));
    }
  }

  lemma PastTie<T>(ties: seq<T>, y: T, a: seq<T>, b: seq<T>)
    requires ties == [] && a == ties + b
    ensures [y] + a == ties + ([y] + b)
  {
    assert a == b;
    assert ties + ([y] + b) == [y] + b;
  }

  lemma PastOther<T>(ties: seq<T>, a: seq<T>, b: seq<T>)
    requires a == ties + b
    ensures [] + a == ties + ([] + b)
  {
    assert [] + a == a;
    assert [] + b == b;
  }

  /** Stability: among elements with the same key, the sorted order is the input order. */
  lemma {:induction false} SortDescStable<T>(xs: seq<T>, key: T -> int, k: int)
    ensures Filter(SortDesc(xs, key), KeyIs(key, k)) == Filter(xs, KeyIs(key, k))
    decreases |xs|
  {
    if |xs| > 0 {
      SortDescStable(xs[1..], key, k);
      InsertTies(xs[0], SortDesc(xs[1..], key), key, k);
      FilterHead(xs, KeyIs(key, k));
      assert Ties(xs[0], key, k) == if KeyIs(key, k)(xs[0]) then [xs[0]] else [];
    }
  }
}
