/**
 * `Array.prototype.sort` with a numeric comparator, as the dashboard uses it:
 * `[...xs].sort((a, b) => key(b) - key(a))`. Since ES2019 the sort is stable,
 * so elements with equal keys keep their input order. It is modelled as a
 * stable insertion sort, descending by a real-valued key; an ascending sort is
 * the descending sort on the negated key.
 */
module Sorting {
  import opened Common

  /** Non-increasing by `key`. */
  predicate SortedDesc<T>(s: seq<T>, key: T -> real)
  {
    forall i, j :: 0 <= i < j < |s| ==> key(s[i]) >= key(s[j])
  }

  /** Non-decreasing by `key`. */
  predicate SortedAsc<T>(s: seq<T>, key: T -> real)
  {
    forall i, j :: 0 <= i < j < |s| ==> key(s[i]) <= key(s[j])
  }

  /**
   * Puts `x` after every element with a strictly larger key and before the
   * rest, so that `x` stays ahead of the elements whose key equals its own.
   */
  function Insert<T>(x: T, s: seq<T>, key: T -> real): (r: seq<T>)
    ensures |r| == |s| + 1
  {
    if s == [] || key(s[0]) <= key(x) then [x] + s
    else [s[0]] + Insert(x, s[1..], key)
  }

  /** `[...s].sort((a, b) => key(b) - key(a))`. */
  function SortDesc<T>(s: seq<T>, key: T -> real): (r: seq<T>)
    ensures |r| == |s|
  {
    if s == [] then [] else Insert(s[0], SortDesc(s[1..], key), key)
  }

  function Negated<T>(key: T -> real): T -> real
  {
    x => -key(x)
  }

  /** `[...s].sort((a, b) => key(a) - key(b))`. */
  function SortAsc<T>(s: seq<T>, key: T -> real): (r: seq<T>)
    ensures |r| == |s|
  {
    SortDesc(s, Negated(key))
  }

  /** Inserting into a sorted list keeps it sorted. */
  lemma {:induction false} InsertSorted<T>(x: T, s: seq<T>, key: T -> real)
    requires SortedDesc(s, key)
    ensures SortedDesc(Insert(x, s, key), key)
  {
    if s != [] && key(s[0]) > key(x) {
      InsertSorted(x, s[1..], key);
      var r := Insert(x, s, key);
      var rest := Insert(x, s[1..], key);
      assert r == [s[0]] + rest;
      InsertElements(x, s[1..], key);
      forall j | 0 < j < |r| ensures key(r[0]) >= key(r[j]) {
        assert r[j] == rest[j - 1];
        assert rest[j - 1] in multiset(s[1..]) + multiset{x};
        if rest[j - 1] != x {
          assert rest[j - 1] in s[1..];
        }
      }
    }
  }

  /** Inserting adds exactly the one element. */
  lemma {:induction false} InsertElements<T>(x: T, s: seq<T>, key: T -> real)
    ensures multiset(Insert(x, s, key)) == multiset(s) + multiset{x}
  {
    if s != [] && key(s[0]) > key(x) {
      InsertElements(x, s[1..], key);
      assert s == [s[0]] + s[1..];
    }
  }

  /** The descending sort is sorted. */
  lemma {:induction false} SortDescSorted<T>(s: seq<T>, key: T -> real)
    ensures SortedDesc(SortDesc(s, key), key)
  {
    if s != [] {
      SortDescSorted(s[1..], key);
      InsertSorted(s[0], SortDesc(s[1..], key), key);
    }
  }

  /** The descending sort is a permutation of its input. */
  lemma {:induction false} SortDescPermutation<T>(s: seq<T>, key: T -> real)
    ensures multiset(SortDesc(s, key)) == multiset(s)
  {
    if s != [] {
      SortDescPermutation(s[1..], key);
      InsertElements(s[0], SortDesc(s[1..], key), key);
      assert s == [s[0]] + s[1..];
    }
  }

  /** Every element of the sort comes from the input. */
  lemma SortDescSource<T>(s: seq<T>, key: T -> real, x: T) returns (i: nat)
    requires x in SortDesc(s, key)
    ensures i < |s| && s[i] == x
  {
    SortDescPermutation(s, key);
    assert x in multiset(SortDesc(s, key));
    i :| 0 <= i < |s| && s[i] == x;
  }

  /** Every element of the input is in the sort. */
  lemma SortDescKeeps<T>(s: seq<T>, key: T -> real, i: nat)
    requires i < |s|
    ensures s[i] in SortDesc(s, key)
  {
    var m := SortDescKeepsAt(s, key, i);
  }

  /** Where an element of the input lands in the sort. */
  lemma SortDescKeepsAt<T>(s: seq<T>, key: T -> real, i: nat) returns (m: nat)
    requires i < |s|
    ensures m < |s| && SortDesc(s, key)[m] == s[i]
  {
    SortDescPermutation(s, key);
    assert s[i] in multiset(s);
    assert s[i] in multiset(SortDesc(s, key));
    m :| 0 <= m < |s| && SortDesc(s, key)[m] == s[i];
  }

  /** The ascending sort is sorted and a permutation of its input. */
  lemma SortAscSpec<T>(s: seq<T>, key: T -> real)
    ensures SortedAsc(SortAsc(s, key), key)
    ensures multiset(SortAsc(s, key)) == multiset(s)
  {
    SortDescSorted(s, Negated(key));
    SortDescPermutation(s, Negated(key));
    var r := SortAsc(s, key);
    forall i, j | 0 <= i < j < |r| ensures key(r[i]) <= key(r[j]) {
      assert Negated(key)(r[i]) >= Negated(key)(r[j]);
    }
  }

  /** Holds of the elements whose key is `k`. */
  function KeyIs<T>(key: T -> real, k: real): T -> bool
  {
    x => key(x) == k
  }

  /** Insertion passes only elements with a larger key, so `x` keeps its place among equal keys. */
  lemma {:induction false} InsertStable<T>(x: T, s: seq<T>, key: T -> real, k: real)
    ensures Filter(Insert(x, s, key), KeyIs(key, k))
         == Filter([x], KeyIs(key, k)) + Filter(s, KeyIs(key, k))
  {
    var p := KeyIs(key, k);
    if s == [] || key(s[0]) <= key(x) {
      FilterAppend([x], s, p);
    } else {
      var y, t := s[0], s[1..];
      var rest := Insert(x, t, key);
      InsertStable(x, t, key, k);
      assert Insert(x, s, key) == [y] + rest;
      assert s == [y] + t;
      FilterAppend([y], rest, p);
      FilterAppend([y], t, p);
      var fx, fy, ft := Filter([x], p), Filter([y], p), Filter(t, p);
      assert fx == [] || fy == [] by {
        assert p(y) ==> !p(x);
      }
      assert fy + (fx + ft) == fx + (fy + ft);
    }
  }

  /** Stability: among elements with equal keys the sort keeps the input order. */
  lemma {:induction false} SortDescStable<T>(s: seq<T>, key: T -> real, k: real)
    ensures Filter(SortDesc(s, key), KeyIs(key, k)) == Filter(s, KeyIs(key, k))
  {
    if s != [] {
      SortDescStable(s[1..], key, k);
      InsertStable(s[0], SortDesc(s[1..], key), key, k);
      FilterAppend([s[0]], s[1..], KeyIs(key, k));
      assert s == [s[0]] + s[1..];
    }
  }

  /** The head of the descending sort is an input element with the largest key. */
  lemma SortDescHeadMax<T>(s: seq<T>, key: T -> real)
    requires s != []
    ensures SortDesc(s, key)[0] in s
    ensures forall i :: 0 <= i < |s| ==> key(s[i]) <= key(SortDesc(s, key)[0])
  {
    var r := SortDesc(s, key);
    SortDescSorted(s, key);
    SortDescPermutation(s, key);
    assert r[0] in multiset(r);
    forall i | 0 <= i < |s| ensures key(s[i]) <= key(r[0]) {
      assert s[i] in multiset(r);
      var j :| 0 <= j < |r| && r[j] == s[i];
    }
  }

  /**
   * The head of the descending sort is the first element of the input that
   * carries the largest key: ties go to the earlier element.
   */
  lemma SortDescHeadFirst<T>(s: seq<T>, key: T -> real) returns (i: nat)
    requires s != []
    ensures i < |s| && s[i] == SortDesc(s, key)[0]
    ensures forall j :: 0 <= j < |s| ==> key(s[j]) <= key(s[i])
    ensures forall j :: 0 <= j < i ==> key(s[j]) < key(s[i])
  {
    var r := SortDesc(s, key);
    var h := r[0];
    SortDescHeadMax(s, key);
    var p := KeyIs(key, key(h));
    SortDescStable(s, key, key(h));
    assert r == [h] + r[1..];
    FilterAppend([h], r[1..], p);
    assert Filter(s, p)[0] == h;
    i := FilterHead(s, p);
  }

  /** Inserting adds the inserted element's term to any sum. */
  lemma {:induction false} InsertSum<T>(x: T, s: seq<T>, key: T -> real, f: T -> int)
    ensures Sum(Insert(x, s, key), f) == f(x) + Sum(s, f)
  {
    assert [x][..0] == [];
    if s == [] || key(s[0]) <= key(x) {
      SumAppend([x], s, f);
    } else {
      InsertSum(x, s[1..], key, f);
      assert [s[0]][..0] == [];
      SumAppend([s[0]], Insert(x, s[1..], key), f);
      SumAppend([s[0]], s[1..], f);
      assert s == [s[0]] + s[1..];
    }
  }

  /** Sorting does not change a sum over the elements. */
  lemma {:induction false} SortDescSum<T>(s: seq<T>, key: T -> real, f: T -> int)
    ensures Sum(SortDesc(s, key), f) == Sum(s, f)
  {
    if s != [] {
      SortDescSum(s[1..], key, f);
      InsertSum(s[0], SortDesc(s[1..], key), key, f);
      assert [s[0]][..0] == [];
      SumAppend([s[0]], s[1..], f);
      assert s == [s[0]] + s[1..];
    }
  }

  /** No two elements share a value of `g`. */
  predicate DistinctBy<T, U(==)>(s: seq<T>, g: T -> U)
  {
    forall i, j :: 0 <= i < j < |s| ==> g(s[i]) != g(s[j])
  }

  /** Inserting an element whose `g` is new keeps the `g` values distinct. */
  lemma {:induction false} InsertDistinct<T, U>(x: T, s: seq<T>, key: T -> real, g: T -> U)
    requires DistinctBy(s, g)
    requires forall i :: 0 <= i < |s| ==> g(s[i]) != g(x)
    ensures DistinctBy(Insert(x, s, key), g)
  {
    if s != [] && key(s[0]) > key(x) {
      InsertDistinct(x, s[1..], key, g);
      var rest := Insert(x, s[1..], key);
      var r := Insert(x, s, key);
      assert r == [s[0]] + rest;
      InsertElements(x, s[1..], key);
      forall j | 0 < j < |r| ensures g(r[0]) != g(r[j]) {
        assert r[j] == rest[j - 1];
        assert rest[j - 1] in multiset(s[1..]) + multiset{x};
        if rest[j - 1] != x {
          var k :| 0 <= k < |s[1..]| && s[1..][k] == rest[j - 1];
          assert s[k + 1] == rest[j - 1];
        }
      }
    }
  }

  /** Sorting keeps the `g` values distinct. */
  lemma {:induction false} SortDescDistinct<T, U>(s: seq<T>, key: T -> real, g: T -> U)
    requires DistinctBy(s, g)
    ensures DistinctBy(SortDesc(s, key), g)
  {
    if s != [] {
      SortDescDistinct(s[1..], key, g);
      var t := SortDesc(s[1..], key);
      SortDescPermutation(s[1..], key);
      forall i | 0 <= i < |t| ensures g(t[i]) != g(s[0]) {
        assert t[i] in multiset(s[1..]);
        var k :| 0 <= k < |s[1..]| && s[1..][k] == t[i];
        assert s[k + 1] == t[i];
      }
      InsertDistinct(s[0], t, key, g);
    }
  }
}
