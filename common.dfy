/**
 * Small building blocks shared by every part of the model: optional values,
 * results with an error side, and the list reductions that the dashboard code
 * writes with Array.prototype.reduce / filter / map / slice.
 */
module Common {

  /** A value that may be absent: JavaScript's `null`/`undefined`, Go's "no row". */
  datatype Option<T> = None | Some(value: T)

  /** The outcome of an operation that can fail. */
  datatype Result<T, E> = Ok(value: T) | Err(error: E)

  function Max(a: int, b: int): (m: int)
    ensures m >= a && m >= b && (m == a || m == b)
  {
    if a >= b then a else b
  }

  function Min(a: int, b: int): (m: int)
    ensures m <= a && m <= b && (m == a || m == b)
  {
    if a <= b then a else b
  }

  /** `s.reduce((sum, x) => sum + f(x), 0)`: a left fold, so the last element is added last. */
  function Sum<T>(s: seq<T>, f: T -> int): int
  {
    if s == [] then 0 else Sum(s[..|s| - 1], f) + f(s[|s| - 1])
  }

  /** Summing a concatenation sums the parts. */
  lemma {:induction false} SumAppend<T>(a: seq<T>, b: seq<T>, f: T -> int)
    ensures Sum(a + b, f) == Sum(a, f) + Sum(b, f)
    decreases |b|
  {
    if b != [] {
      var b' := b[..|b| - 1];
      assert (a + b)[..|a + b| - 1] == a + b';
      assert (a + b)[|a + b| - 1] == b[|b| - 1];
      SumAppend(a, b', f);
    } else {
      assert a + b == a;
    }
  }

  /** A sum of non-negative terms is non-negative. */
  lemma {:induction false} SumNonNegative<T>(s: seq<T>, f: T -> int)
    requires forall i :: 0 <= i < |s| ==> f(s[i]) >= 0
    ensures Sum(s, f) >= 0
  {
    if s != [] {
      SumNonNegative(s[..|s| - 1], f);
    }
  }

  /** A sum of terms each at most `bound` is at most `|s| * bound`. */
  lemma {:induction false} SumBounded<T>(s: seq<T>, f: T -> int, bound: int)
    requires forall i :: 0 <= i < |s| ==> f(s[i]) <= bound
    ensures Sum(s, f) <= |s| * bound
  {
    if s != [] {
      SumBounded(s[..|s| - 1], f, bound);
    }
  }

  /** A pointwise smaller term gives a smaller sum. */
  lemma {:induction false} SumLeq<T>(s: seq<T>, f: T -> int, g: T -> int)
    requires forall i :: 0 <= i < |s| ==> f(s[i]) <= g(s[i])
    ensures Sum(s, f) <= Sum(s, g)
  {
    if s != [] {
      SumLeq(s[..|s| - 1], f, g);
    }
  }

  /** A term in front adds its value to the sum. */
  lemma SumCons<T>(x: T, s: seq<T>, f: T -> int)
    ensures Sum([x] + s, f) == f(x) + Sum(s, f)
  {
    SumAppend([x], s, f);
    assert [x][..0] == [];
  }

  /** The sum of the first `i + 1` terms is the sum of the first `i` plus term `i`. */
  lemma SumStep<T>(s: seq<T>, f: T -> int, i: nat)
    requires i < |s|
    ensures Sum(s[..i + 1], f) == Sum(s[..i], f) + f(s[i])
  {
    assert s[..i + 1][..i] == s[..i];
  }

  /** A sum of non-negative terms is zero exactly when every term is. */
  lemma {:induction false} SumZero<T>(s: seq<T>, f: T -> int)
    requires forall i :: 0 <= i < |s| ==> f(s[i]) >= 0
    ensures Sum(s, f) == 0 <==> forall i :: 0 <= i < |s| ==> f(s[i]) == 0
  {
    if s != [] {
      SumZero(s[..|s| - 1], f);
      SumNonNegative(s[..|s| - 1], f);
    }
  }

  /** Among non-negative terms, each term is at most the sum. */
  lemma TermWithinSum<T>(s: seq<T>, f: T -> int, i: nat)
    requires i < |s|
    requires forall k :: 0 <= k < |s| ==> f(s[k]) >= 0
    ensures 0 <= f(s[i]) <= Sum(s, f)
  {
    SumStep(s, f, i);
    assert forall k :: 0 <= k < i ==> s[..i][k] == s[k];
    SumNonNegative(s[..i], f);
    SumPrefixMonotone(s, f, i + 1);
  }

  /** Adding a non-negative term never decreases the sum of the first `i` terms. */
  lemma {:induction false} SumPrefixMonotone<T>(s: seq<T>, f: T -> int, i: nat)
    requires i <= |s|
    requires forall k :: 0 <= k < |s| ==> f(s[k]) >= 0
    ensures Sum(s[..i], f) <= Sum(s, f)
    decreases |s| - i
  {
    if i < |s| {
      SumPrefixMonotone(s, f, i + 1);
      assert s[..i + 1][..i] == s[..i];
    } else {
      assert s[..i] == s;
    }
  }

  /** `s.filter(p)`: the elements satisfying `p`, in their original order. */
  function Filter<T>(s: seq<T>, p: T -> bool): (r: seq<T>)
    ensures |r| <= |s|
    ensures forall i :: 0 <= i < |r| ==> p(r[i])
    ensures forall x :: x in r ==> x in s
  {
    if s == [] then []
    else (if p(s[0]) then [s[0]] else []) + Filter(s[1..], p)
  }

  /** Filtering keeps every occurrence of a value it accepts and none of one it rejects. */
  lemma {:induction false} FilterMultiplicity<T>(s: seq<T>, p: T -> bool)
    ensures forall x :: multiset(Filter(s, p))[x] == if p(x) then multiset(s)[x] else 0
  {
    if s != [] {
      FilterMultiplicity(s[1..], p);
      assert s == [s[0]] + s[1..];
    }
  }

  /** Filtering distributes over concatenation. */
  lemma {:induction false} FilterAppend<T>(a: seq<T>, b: seq<T>, p: T -> bool)
    ensures Filter(a + b, p) == Filter(a, p) + Filter(b, p)
  {
    if a != [] {
      assert (a + b)[1..] == a[1..] + b;
      FilterAppend(a[1..], b, p);
    } else {
      assert a + b == b;
    }
  }

  /** Every element of `s` satisfying `p` survives the filter. */
  lemma {:induction false} FilterKeeps<T>(s: seq<T>, p: T -> bool, x: T)
    requires x in s && p(x)
    ensures x in Filter(s, p)
  {
    if s[0] != x {
      FilterKeeps(s[1..], p, x);
    }
  }

  /** An element a filter kept satisfies its predicate. */
  lemma FilterHolds<T>(s: seq<T>, p: T -> bool, x: T)
    ensures x in Filter(s, p) ==> p(x)
  {
    if x in Filter(s, p) {
      var k :| 0 <= k < |Filter(s, p)| && Filter(s, p)[k] == x;
    }
  }

  /** A filter whose predicate holds everywhere returns its input. */
  lemma {:induction false} FilterAll<T>(s: seq<T>, p: T -> bool)
    requires forall i :: 0 <= i < |s| ==> p(s[i])
    ensures Filter(s, p) == s
  {
    if s != [] {
      FilterAll(s[1..], p);
    }
  }

  /** The conjunction of two predicates. */
  function Both<T>(p: T -> bool, q: T -> bool): T -> bool
  {
    x => p(x) && q(x)
  }

  /** Two filters in a row are one filter by the conjunction. */
  lemma {:induction false} FilterFilter<T>(s: seq<T>, p: T -> bool, q: T -> bool)
    ensures Filter(Filter(s, p), q) == Filter(s, Both(p, q))
  {
    if s != [] {
      FilterFilter(s[1..], p, q);
      assert Both(p, q)(s[0]) == (p(s[0]) && q(s[0]));
      if p(s[0]) {
        var fs := Filter(s, p);
        assert fs == [s[0]] + Filter(s[1..], p);
        assert fs[0] == s[0] && fs[1..] == Filter(s[1..], p);
        assert Filter(fs, q) == (if q(s[0]) then [s[0]] else []) + Filter(fs[1..], q);
      } else {
        assert Filter(s, p) == Filter(s[1..], p);
        assert Filter(s, Both(p, q)) == Filter(s[1..], Both(p, q));
      }
    }
  }

  /** The first element a filter keeps is the first element of `s` satisfying `p`. */
  lemma {:induction false} FilterHead<T>(s: seq<T>, p: T -> bool) returns (i: nat)
    requires Filter(s, p) != []
    ensures i < |s| && s[i] == Filter(s, p)[0] && p(s[i])
    ensures forall j :: 0 <= j < i ==> !p(s[j])
  {
    if p(s[0]) {
      i := 0;
    } else {
      var i' := FilterHead(s[1..], p);
      i := i' + 1;
    }
  }

  /** `s.filter(p).length`. */
  function Count<T>(s: seq<T>, p: T -> bool): nat
  {
    |Filter(s, p)|
  }

  /** The count of the first `i + 1` elements is the count of the first `i` plus one for element `i`. */
  lemma CountStep<T>(s: seq<T>, p: T -> bool, i: nat)
    requires i < |s|
    ensures Count(s[..i + 1], p) == Count(s[..i], p) + (if p(s[i]) then 1 else 0)
  {
    assert s[..i + 1] == s[..i] + [s[i]];
    FilterAppend(s[..i], [s[i]], p);
  }

  /** Nothing is counted exactly when no element satisfies the predicate. */
  lemma {:induction false} CountZero<T>(s: seq<T>, p: T -> bool)
    ensures Count(s, p) == 0 <==> forall i :: 0 <= i < |s| ==> !p(s[i])
  {
    if s != [] {
      CountZero(s[1..], p);
      if !p(s[0]) {
        forall i | 0 < i < |s| ensures s[i] == s[1..][i - 1] {}
      }
    }
  }

  /** A predicate that implies another is counted no more often. */
  lemma {:induction false} CountImplies<T>(s: seq<T>, p: T -> bool, q: T -> bool)
    requires forall i :: 0 <= i < |s| ==> p(s[i]) ==> q(s[i])
    ensures Count(s, p) <= Count(s, q)
  {
    if s != [] {
      CountImplies(s[1..], p, q);
    }
  }

  /** `s.map(f)`. */
  function Map<T, U>(s: seq<T>, f: T -> U): (r: seq<U>)
    ensures |r| == |s|
    ensures forall i :: 0 <= i < |s| ==> r[i] == f(s[i])
  {
    if s == [] then [] else [f(s[0])] + Map(s[1..], f)
  }

  /** Mapping distributes over concatenation. */
  lemma MapAppend<T, U>(a: seq<T>, b: seq<T>, f: T -> U)
    ensures Map(a + b, f) == Map(a, f) + Map(b, f)
  {
    assert forall i :: 0 <= i < |a + b| ==> Map(a + b, f)[i] == (Map(a, f) + Map(b, f))[i];
  }

  /** Extending the input by one element extends the image by that element's image. */
  lemma MapStep<T, U>(s: seq<T>, f: T -> U, i: nat)
    requires i < |s|
    ensures Map(s[..i + 1], f) == Map(s[..i], f) + [f(s[i])]
  {
    assert s[..i + 1] == s[..i] + [s[i]];
    MapAppend(s[..i], [s[i]], f);
  }

  /** Extending the input by one element extends the mapped filter by that element's image, if kept. */
  lemma MapFilterStep<T, U>(s: seq<T>, p: T -> bool, f: T -> U, i: nat)
    requires i < |s|
    ensures Map(Filter(s[..i + 1], p), f) == Map(Filter(s[..i], p), f) + (if p(s[i]) then [f(s[i])] else [])
  {
    assert s[..i + 1] == s[..i] + [s[i]];
    FilterAppend(s[..i], [s[i]], p);
    MapAppend(Filter(s[..i], p), Filter([s[i]], p), f);
  }

  /** The image of every kept element appears in the mapped filter. */
  lemma MapFilterKeeps<T, U>(s: seq<T>, p: T -> bool, f: T -> U, i: nat)
    requires i < |s| && p(s[i])
    ensures f(s[i]) in Map(Filter(s, p), f)
  {
    FilterKeeps(s, p, s[i]);
    var r := Filter(s, p);
    var j :| 0 <= j < |r| && r[j] == s[i];
    assert Map(r, f)[j] == f(s[i]);
  }

  /** Every element a filter keeps comes from some position of its input. */
  lemma {:induction false} FilterSource<T>(s: seq<T>, p: T -> bool, j: nat) returns (i: nat)
    requires j < |Filter(s, p)|
    ensures i < |s| && s[i] == Filter(s, p)[j]
  {
    var rest := Filter(s[1..], p);
    if p(s[0]) {
      assert Filter(s, p) == [s[0]] + rest;
      if j == 0 {
        i := 0;
      } else {
        var k := FilterSource(s[1..], p, j - 1);
        i := k + 1;
      }
    } else {
      assert Filter(s, p) == rest;
      var k := FilterSource(s[1..], p, j);
      i := k + 1;
    }
  }

  /** Every entry of the mapped filter is the image of a kept input element. */
  lemma MapFilterSource<T, U>(s: seq<T>, p: T -> bool, f: T -> U, j: nat) returns (i: nat)
    requires j < |Filter(s, p)|
    ensures i < |s| && p(s[i]) && f(s[i]) == Map(Filter(s, p), f)[j]
  {
    i := FilterSource(s, p, j);
  }

  /** Everything in the mapped filter is the image of some kept element. */
  lemma MapFilterOnly<T, U>(s: seq<T>, p: T -> bool, f: T -> U, y: U) returns (i: nat)
    requires y in Map(Filter(s, p), f)
    ensures i < |s| && p(s[i]) && f(s[i]) == y
  {
    var m := Map(Filter(s, p), f);
    var j :| 0 <= j < |m| && m[j] == y;
    i := MapFilterSource(s, p, f, j);
  }

  /** Mapping a filtered list gives an order-preserving subsequence of the mapped list. */
  lemma {:induction false} MapFilterSubsequence<T, U>(s: seq<T>, p: T -> bool, f: T -> U)
    ensures SubsequenceOf(Map(Filter(s, p), f), Map(s, f))
  {
    if s != [] {
      MapFilterSubsequence(s[1..], p, f);
      var ms := Map(s, f);
      var rest := Map(Filter(s[1..], p), f);
      assert ms[1..] == Map(s[1..], f);
      if p(s[0]) {
        assert Filter(s, p) == [s[0]] + Filter(s[1..], p);
        var mf := Map(Filter(s, p), f);
        assert mf[0] == ms[0];
        assert mf[1..] == rest;
      } else {
        assert Filter(s, p) == Filter(s[1..], p);
        SubsequenceSkip(rest, ms);
      }
    }
  }

  /** Dropping the head of the longer list keeps a subsequence of its tail a subsequence. */
  lemma {:induction false} SubsequenceSkip<T>(a: seq<T>, b: seq<T>)
    requires b != [] && SubsequenceOf(a, b[1..])
    ensures SubsequenceOf(a, b)
    decreases |b|, 0
  {
    if a != [] && a[0] == b[0] {
      assert SubsequenceOf(a[1..], b[1..]) by {
        SubsequenceTail(a, b[1..]);
      }
    }
  }

  /** A subsequence without its head is still a subsequence. */
  lemma {:induction false} SubsequenceTail<T>(a: seq<T>, b: seq<T>)
    requires a != [] && SubsequenceOf(a, b)
    ensures SubsequenceOf(a[1..], b)
    decreases |b|, 1
  {
    if a[0] == b[0] {
      SubsequenceSkip(a[1..], b);
    } else {
      SubsequenceTail(a, b[1..]);
      SubsequenceSkip(a[1..], b);
    }
  }

  /** Every list is a subsequence of itself. */
  lemma {:induction false} SubsequenceReflexive<T>(a: seq<T>)
    ensures SubsequenceOf(a, a)
  {
    if a != [] {
      SubsequenceReflexive(a[1..]);
    }
  }

  /** A subsequence of a subsequence is a subsequence. */
  lemma {:induction false} SubsequenceTransitive<T>(a: seq<T>, b: seq<T>, c: seq<T>)
    requires SubsequenceOf(a, b) && SubsequenceOf(b, c)
    ensures SubsequenceOf(a, c)
    decreases |c|
  {
    if a != [] {
      if b[0] == c[0] {
        if a[0] == b[0] {
          SubsequenceTransitive(a[1..], b[1..], c[1..]);
        } else {
          SubsequenceTransitive(a, b[1..], c[1..]);
          SubsequenceSkip(a, c);
        }
      } else {
        SubsequenceTransitive(a, b, c[1..]);
        SubsequenceSkip(a, c);
      }
    }
  }

  /** `s.slice(0, n)`: the first `n` elements, or all of them when there are fewer. */
  function Take<T>(s: seq<T>, n: nat): (r: seq<T>)
    ensures |r| == Min(n, |s|)
    ensures r == s[..|r|]
  {
    if n < |s| then s[..n] else s
  }

  /**
   * `a` can be obtained from `b` by deleting elements: an order-preserving
   * subsequence. Matches greedily from the front.
   */
  predicate SubsequenceOf<T(==)>(a: seq<T>, b: seq<T>)
    decreases |b|
  {
    if a == [] then true
    else if b == [] then false
    else if a[0] == b[0] then SubsequenceOf(a[1..], b[1..])
    else SubsequenceOf(a, b[1..])
  }

  /** A prefix is an order-preserving subsequence. */
  lemma {:induction false} PrefixIsSubsequence<T>(s: seq<T>, n: nat)
    requires n <= |s|
    ensures SubsequenceOf(s[..n], s)
  {
    if n > 0 {
      PrefixIsSubsequence(s[1..], n - 1);
      assert s[..n][1..] == s[1..][..n - 1];
    }
  }

  /** A filter result is an order-preserving subsequence of its input. */
  lemma {:induction false} FilterIsSubsequence<T>(s: seq<T>, p: T -> bool)
    ensures SubsequenceOf(Filter(s, p), s)
  {
    if s != [] {
      FilterIsSubsequence(s[1..], p);
      var fs := Filter(s, p);
      if p(s[0]) {
        assert fs == [s[0]] + Filter(s[1..], p);
        assert fs[0] == s[0];
        assert fs[1..] == Filter(s[1..], p);
        assert SubsequenceOf(fs[1..], s[1..]);
        assert SubsequenceOf(fs, s);
      } else if fs != [] {
        assert fs == Filter(s[1..], p);
        assert p(fs[0]) && fs[0] != s[0];
      }
    }
  }
}
