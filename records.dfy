/**
 * A plain JavaScript object used as a dictionary (`Record<string, number>`):
 * `obj[k] = v` overwrites the value of an existing key in place and appends a
 * new key at the end, and `Object.entries` lists the entries in that insertion
 * order. Keys are non-numeric strings throughout the dashboard (council ids,
 * incident types, time categories), so insertion order is the iteration order.
 */
module Records {
  import opened Common

  datatype Entry<V> = Entry(key: string, value: V)

  type Record<V> = seq<Entry<V>>

  function Keys<V>(r: Record<V>): set<string>
  {
    if r == [] then {} else {r[0].key} + Keys(r[1..])
  }

  /** No key is listed twice: the shape of every JavaScript object. */
  predicate DistinctKeys<V>(r: Record<V>)
  {
    forall i, j :: 0 <= i < j < |r| ==> r[i].key != r[j].key
  }

  /** A listed key sits at some index. */
  lemma {:induction false} KeyIndex<V>(r: Record<V>, k: string)
    requires k in Keys(r)
    ensures exists i :: 0 <= i < |r| && r[i].key == k
  {
    if r[0].key != k {
      KeyIndex(r[1..], k);
      var i :| 0 <= i < |r| - 1 && r[1..][i].key == k;
      assert r[i + 1].key == k;
    }
  }

  /** `obj[k]`, with `undefined` as `None`. */
  function Get<V>(r: Record<V>, k: string): (v: Option<V>)
    ensures v.Some? <==> k in Keys(r)
    ensures v.Some? ==> exists i :: 0 <= i < |r| && r[i] == Entry(k, v.value)
  {
    if r == [] then None
    else if r[0].key == k then Some(r[0].value)
    else
      var v := Get(r[1..], k);
      assert v.Some? ==> exists i :: 0 <= i < |r| - 1 && r[1..][i] == Entry(k, v.value);
      v
  }

  /** `obj[k] || 0` for a numeric dictionary. */
  function GetOrZero(r: Record<int>, k: string): int
  {
    match Get(r, k)
    case Some(v) => v
    case None => 0
  }

  /** `obj[k] = v`. */
  function Put<V>(r: Record<V>, k: string, v: V): (r': Record<V>)
    ensures Get(r', k) == Some(v)
    ensures forall k' :: k' != k ==> Get(r', k') == Get(r, k')
    ensures Keys(r') == Keys(r) + {k}
  {
    if r == [] then [Entry(k, v)]
    else if r[0].key == k then
      assert ([Entry(k, v)] + r[1..])[1..] == r[1..];
      [Entry(k, v)] + r[1..]
    else
      var rest := Put(r[1..], k, v);
      assert ([r[0]] + rest)[1..] == rest;
      [r[0]] + rest
  }

  /** `obj[k] = v` never lists a key twice. */
  lemma {:induction false} PutDistinct<V>(r: Record<V>, k: string, v: V)
    requires DistinctKeys(r)
    ensures DistinctKeys(Put(r, k, v))
  {
    if r == [] {
    } else if r[0].key != k {
      assert DistinctKeys(r[1..]);
      PutDistinct(r[1..], k, v);
      var rest := Put(r[1..], k, v);
      assert r[0].key !in Keys(r[1..]) by {
        if r[0].key in Keys(r[1..]) {
          KeyIndex(r[1..], r[0].key);
        }
      }
      PutRestFresh(r[0], rest);
    } else {
      var r' := Put(r, k, v);
      assert r' == [Entry(k, v)] + r[1..];
      forall i, j | 0 <= i < j < |r'| ensures r'[i].key != r'[j].key {
        assert r'[j] == r[j];
        if i > 0 {
          assert r'[i] == r[i];
        }
      }
    }
  }

  /** Prepending an entry whose key is not listed keeps the keys distinct. */
  lemma PutRestFresh<V>(e: Entry<V>, rest: Record<V>)
    requires DistinctKeys(rest)
    requires e.key !in Keys(rest)
    ensures DistinctKeys([e] + rest)
  {
    var r' := [e] + rest;
    forall i, j | 0 <= i < j < |r'| ensures r'[i].key != r'[j].key {
      assert r'[j] == rest[j - 1];
      if i == 0 {
        IndexKey(rest, j - 1);
      } else {
        assert r'[i] == rest[i - 1];
      }
    }
  }

  /** `obj[k] = v` on an existing key keeps the number of entries. */
  lemma {:induction false} PutExistingLength<V>(r: Record<V>, k: string, v: V)
    requires k in Keys(r)
    ensures |Put(r, k, v)| == |r|
  {
    if r[0].key != k {
      PutExistingLength(r[1..], k, v);
    }
  }

  /** `obj[k] = v` on a new key appends the entry at the end. */
  lemma {:induction false} PutNewAppends<V>(r: Record<V>, k: string, v: V)
    requires k !in Keys(r)
    ensures Put(r, k, v) == r + [Entry(k, v)]
  {
    if r != [] {
      var x, rest := r[0], r[1..];
      assert x.key != k && k !in Keys(rest);
      PutNewAppends(rest, k, v);
      assert Put(r, k, v) == [x] + Put(rest, k, v);
      ConsAppend(x, rest, Entry(k, v));
      assert r == [x] + rest;
    }
  }

  lemma ConsAppend<T>(x: T, s: seq<T>, y: T)
    ensures [x] + (s + [y]) == ([x] + s) + [y]
  {
  }

  /** The key at any index is listed. */
  lemma {:induction false} IndexKey<V>(r: Record<V>, i: nat)
    requires i < |r|
    ensures r[i].key in Keys(r)
  {
    if i > 0 {
      IndexKey(r[1..], i - 1);
    }
  }

  function ValueOf(e: Entry<int>): int
  {
    e.value
  }

  /** `Object.values(obj).reduce((a, b) => a + b, 0)`. */
  function SumValues(r: Record<int>): int
  {
    Sum(r, ValueOf)
  }

  /** Overwriting one value changes the total by the difference. */
  lemma {:induction false} SumValuesPut(r: Record<int>, k: string, v: int)
    requires DistinctKeys(r)
    ensures SumValues(Put(r, k, v)) == SumValues(r) - GetOrZero(r, k) + v
  {
    if r == [] {
      assert Put(r, k, v) == [Entry(k, v)];
    } else {
      SumAppend([r[0]], r[1..], ValueOf);
      assert r == [r[0]] + r[1..];
      assert Sum([r[0]], ValueOf) == r[0].value;
      if r[0].key == k {
        SumAppend([Entry(k, v)], r[1..], ValueOf);
        assert Sum([Entry(k, v)], ValueOf) == v;
      } else {
        assert DistinctKeys(r[1..]);
        SumValuesPut(r[1..], k, v);
        SumAppend([r[0]], Put(r[1..], k, v), ValueOf);
      }
    }
  }

  /** `m[k] += n` on a Go map, or `counts[k] = (counts[k] || 0) + n` on an object. */
  function Add(r: Record<int>, k: string, n: int): (r': Record<int>)
    ensures GetOrZero(r', k) == GetOrZero(r, k) + n
    ensures forall k' :: k' != k ==> GetOrZero(r', k') == GetOrZero(r, k')
    ensures Keys(r') == Keys(r) + {k}
  {
    Put(r, k, GetOrZero(r, k) + n)
  }

  /** Each addition adds exactly its amount to the total of the values. */
  lemma AddSum(r: Record<int>, k: string, n: int)
    requires DistinctKeys(r)
    ensures DistinctKeys(Add(r, k, n))
    ensures SumValues(Add(r, k, n)) == SumValues(r) + n
  {
    var v := GetOrZero(r, k) + n;
    assert Add(r, k, n) == Put(r, k, v);
    PutDistinct(r, k, v);
    SumValuesPut(r, k, v);
  }

  /** `for each (k, n) in rows: m[k] += n`. */
  function AddAll(r: Record<int>, rows: seq<Entry<int>>): Record<int>
  {
    if rows == [] then r
    else Add(AddAll(r, rows[..|rows| - 1]), rows[|rows| - 1].key, rows[|rows| - 1].value)
  }

  /** The amount a row adds under key `k`. */
  function AmountFor(k: string): Entry<int> -> int
  {
    (e: Entry<int>) => if e.key == k then e.value else 0
  }

  /** Adding all rows adds their total to the total of the values. */
  lemma {:induction false} AddAllSum(r: Record<int>, rows: seq<Entry<int>>)
    requires DistinctKeys(r)
    ensures DistinctKeys(AddAll(r, rows))
    ensures SumValues(AddAll(r, rows)) == SumValues(r) + Sum(rows, ValueOf)
  {
    if rows != [] {
      var last := rows[|rows| - 1];
      AddAllSum(r, rows[..|rows| - 1]);
      AddSum(AddAll(r, rows[..|rows| - 1]), last.key, last.value);
    }
  }

  /** After adding all rows, each key holds its old value plus the amounts of its rows. */
  lemma {:induction false} AddAllGet(r: Record<int>, rows: seq<Entry<int>>, k: string)
    ensures GetOrZero(AddAll(r, rows), k) == GetOrZero(r, k) + Sum(rows, AmountFor(k))
  {
    if rows != [] {
      AddAllGet(r, rows[..|rows| - 1], k);
    }
  }

  /**
   * `s.forEach(x => obj[id(x)] = val(x))` on an empty object: one entry per
   * distinct id, in order of first appearance, holding the value of the last
   * element with that id.
   */
  function IndexBy<T, V>(s: seq<T>, id: T -> string, val: T -> V): Record<V>
  {
    if s == [] then []
    else Put(IndexBy(s[..|s| - 1], id, val), id(s[|s| - 1]), val(s[|s| - 1]))
  }

  /** The entry for an id holds the value of the last element carrying it. */
  lemma {:induction false} IndexByLast<T, V>(s: seq<T>, id: T -> string, val: T -> V, i: nat)
    requires i < |s|
    requires forall j :: i < j < |s| ==> id(s[j]) != id(s[i])
    ensures Get(IndexBy(s, id, val), id(s[i])) == Some(val(s[i]))
  {
    if i < |s| - 1 {
      IndexByLast(s[..|s| - 1], id, val, i);
    }
  }

  /** An id no element carries has no entry. */
  lemma {:induction false} IndexByAbsent<T, V>(s: seq<T>, id: T -> string, val: T -> V, k: string)
    requires forall i :: 0 <= i < |s| ==> id(s[i]) != k
    ensures Get(IndexBy(s, id, val), k) == None
  {
    if s != [] {
      IndexByAbsent(s[..|s| - 1], id, val, k);
    }
  }

  /** The object built this way lists no key twice. */
  lemma {:induction false} IndexByDistinct<T, V>(s: seq<T>, id: T -> string, val: T -> V)
    ensures DistinctKeys(IndexBy(s, id, val))
  {
    if s != [] {
      IndexByDistinct(s[..|s| - 1], id, val);
      PutDistinct(IndexBy(s[..|s| - 1], id, val), id(s[|s| - 1]), val(s[|s| - 1]));
    }
  }

  /** After `obj[k] = v` every entry is an old one or the new one. */
  lemma {:induction false} PutEntries<V>(r: Record<V>, k: string, v: V, e: Entry<V>)
    requires e in Put(r, k, v)
    ensures e in r || e == Entry(k, v)
  {
    if r != [] && r[0].key != k {
      if e != r[0] {
        assert e in Put(r[1..], k, v);
        PutEntries(r[1..], k, v, e);
      }
    } else if r != [] && e != Entry(k, v) {
      assert e in r[1..];
    }
  }

  /** Every entry of the object built by `IndexBy` pairs some element's id with its value. */
  lemma {:induction false} IndexByEntries<T, V>(s: seq<T>, id: T -> string, val: T -> V, e: Entry<V>)
    returns (i: nat)
    requires e in IndexBy(s, id, val)
    ensures i < |s| && e == Entry(id(s[i]), val(s[i]))
  {
    var n := |s| - 1;
    PutEntries(IndexBy(s[..n], id, val), id(s[n]), val(s[n]), e);
    if e == Entry(id(s[n]), val(s[n])) {
      i := n;
    } else {
      i := IndexByEntries(s[..n], id, val, e);
    }
  }

  function KeyOf<V>(e: Entry<V>): string { e.key }

  /** The listed keys of a record are the keys of its entries. */
  lemma {:induction false} KeysAreEntryKeys<V>(r: Record<V>)
    ensures Keys(r) == set e | e in r :: e.key
  {
    if r != [] {
      KeysAreEntryKeys(r[1..]);
      assert r == [r[0]] + r[1..];
    }
  }

  /** In a record without repeated keys an entry holds the value its key maps to. */
  lemma EntryValue(r: Record<int>, e: Entry<int>)
    requires DistinctKeys(r) && e in r
    ensures GetOrZero(r, e.key) == e.value
  {
    var j :| 0 <= j < |r| && r[j] == e;
    IndexKey(r, j);
    var v := Get(r, e.key).value;
    var i :| 0 <= i < |r| && r[i] == Entry(e.key, v);
  }

  /** The values `key` takes over the elements. */
  function KeySet<T(==)>(s: seq<T>, key: T -> string): set<string>
  {
    set x | x in s :: key(x)
  }

  /** Holds of the elements whose `key` is `k`. */
  function KeyEquals<T>(key: T -> string, k: string): T -> bool
  {
    (x: T) => key(x) == k
  }

  /** Appending an element adds its key. */
  lemma KeySetStep<T>(s: seq<T>, key: T -> string)
    requires s != []
    ensures KeySet(s, key) == KeySet(s[..|s| - 1], key) + {key(s[|s| - 1])}
  {
    var n := |s| - 1;
    assert s == s[..n] + [s[n]];
    forall k | k in KeySet(s, key) ensures k in KeySet(s[..n], key) + {key(s[n])} {
      var x :| x in s && key(x) == k;
      var j :| 0 <= j < |s| && s[j] == x;
      if j < n {
        assert s[..n][j] == x;
      }
    }
  }

  /** There are no more distinct keys than elements. */
  lemma {:induction false} KeySetBound<T>(s: seq<T>, key: T -> string)
    ensures |KeySet(s, key)| <= |s|
  {
    if s != [] {
      KeySetBound(s[..|s| - 1], key);
      KeySetStep(s, key);
    }
  }

  /**
   * `s.forEach(x => counts[key(x)] = (counts[key(x)] || 0) + 1)` on an empty
   * object: how many elements carry each key, keys in order of first appearance.
   */
  function Tally<T>(s: seq<T>, key: T -> string): Record<int>
  {
    if s == [] then []
    else Add(Tally(s[..|s| - 1], key), key(s[|s| - 1]), 1)
  }

  /**
   * The tally lists each key of the elements once, holds for every key the
   * number of elements carrying it, and its counts add up to the number of
   * elements.
   */
  lemma {:induction false} TallySpec<T>(s: seq<T>, key: T -> string)
    ensures DistinctKeys(Tally(s, key))
    ensures Keys(Tally(s, key)) == KeySet(s, key)
    ensures SumValues(Tally(s, key)) == |s|
    ensures forall k :: GetOrZero(Tally(s, key), k) == Count(s, KeyEquals(key, k))
  {
    if s != [] {
      var n := |s| - 1;
      TallySpec(s[..n], key);
      AddSum(Tally(s[..n], key), key(s[n]), 1);
      assert s[..n + 1] == s;
      forall k ensures GetOrZero(Tally(s, key), k) == Count(s, KeyEquals(key, k)) {
        CountStep(s, KeyEquals(key, k), n);
      }
      KeySetStep(s, key);
    }
  }

  /** Every entry of the tally counts at least one element. */
  lemma TallyPositive<T>(s: seq<T>, key: T -> string, e: Entry<int>)
    requires e in Tally(s, key)
    ensures e.value == Count(s, KeyEquals(key, e.key)) && e.value >= 1
  {
    TallySpec(s, key);
    EntryValue(Tally(s, key), e);
    KeysAreEntryKeys(Tally(s, key));
    assert e.key in KeySet(s, key);
    var x :| x in s && key(x) == e.key;
    FilterKeeps(s, KeyEquals(key, e.key), x);
  }
}
