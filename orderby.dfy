/**
 * The `orderby item.Key` query used by VideoList.ShuffleFilePaths: a stable sort of
 * (key, value) pairs by their integer key.  It is modelled as a functional insertion sort;
 * its meaning is pinned down by the lemmas at the end: the result is a permutation of the
 * input, it is ordered by non-decreasing key, entries with equal keys keep their input order,
 * and any sequence with those three properties IS the result.
 */
module OrderBy {

  /** One element of the query's source: the C# `KeyValuePair<int, string>`. */
  datatype Keyed<V> = Keyed(key: int, value: V)

  /** Non-decreasing by key. */
  ghost predicate SortedByKey<V>(s: seq<Keyed<V>>) {
    forall i, j :: 0 <= i < j < |s| ==> s[i].key <= s[j].key
  }

  /** `r` lists the entries of `s` by non-decreasing key, each key's entries in their order in `s`. */
  ghost predicate IsStableSortOf<V>(r: seq<Keyed<V>>, s: seq<Keyed<V>>) {
    SortedByKey(r) && forall k :: WithKey(r, k) == WithKey(s, k)
  }

  /** The entries of `s` whose key is `k`, in the order in which they occur in `s`. */
  function WithKey<V>(s: seq<Keyed<V>>, k: int): seq<Keyed<V>> {
    if s == [] then []
    else (if s[0].key == k then [s[0]] else []) + WithKey(s[1..], k)
  }

  /** The values of `s`, in order. */
  function Values<V>(s: seq<Keyed<V>>): (r: seq<V>)
    ensures |r| == |s|
  {
    if s == [] then [] else [s[0].value] + Values(s[1..])
  }

  /** Pairs the i-th key with the i-th value. */
  function Zip<V>(keys: seq<int>, values: seq<V>): (r: seq<Keyed<V>>)
    requires |keys| == |values|
    ensures |r| == |values|
    ensures forall i :: 0 <= i < |r| ==> r[i] == Keyed(keys[i], values[i])
  {
    seq(|values|, i requires 0 <= i < |values| => Keyed(keys[i], values[i]))
  }

  /**
   * Inserts `p` into the sorted `s` in front of the first entry whose key is not smaller.
   * Since `p` precedes all of `s` in the input, putting it before equal keys keeps the sort stable.
   */
  function Insert<V>(p: Keyed<V>, s: seq<Keyed<V>>): (r: seq<Keyed<V>>)
    requires SortedByKey(s)
    ensures |r| == |s| + 1
    ensures SortedByKey(r)
    ensures multiset(r) == multiset{p} + multiset(s)
    ensures r[0] == if s == [] || p.key <= s[0].key then p else s[0]
  {
    if s == [] || p.key <= s[0].key then
      SortedCons(p, s);
      [p] + s
    else
      var rest := Insert(p, s[1..]);
      assert s == [s[0]] + s[1..];
      assert s[0].key <= rest[0].key;
      SortedCons(s[0], rest);
      [s[0]] + rest
  }

  /** Putting an entry whose key is at most the first key in front keeps a sequence sorted. */
  lemma SortedCons<V>(x: Keyed<V>, t: seq<Keyed<V>>)
    requires SortedByKey(t) && (t == [] || x.key <= t[0].key)
    ensures SortedByKey([x] + t)
  {
    forall i, j | 0 <= i < j < |[x] + t|
      ensures ([x] + t)[i].key <= ([x] + t)[j].key
    {
      if i > 0 {
        assert ([x] + t)[i] == t[i - 1];
      } else if j > 1 {
        assert t[0].key <= t[j - 1].key;
      }
    }
  }

  /** The query `from item in list orderby item.Key select item`. */
  function SortByKey<V>(s: seq<Keyed<V>>): (r: seq<Keyed<V>>)
    ensures |r| == |s|
    ensures SortedByKey(r)
    ensures multiset(r) == multiset(s)
  {
    if s == [] then []
    else
      assert s == [s[0]] + s[1..];
      Insert(s[0], SortByKey(s[1..]))
  }

  /** Every entry picked by `WithKey(s, k)` is an entry of `s` and has key `k`. */
  lemma {:induction false} WithKeyMembers<V>(s: seq<Keyed<V>>, k: int)
    ensures forall q :: q in WithKey(s, k) ==> q in s && q.key == k
  {
    if s != [] {
      WithKeyMembers(s[1..], k);
    }
  }

  lemma WithKeyCons<V>(x: Keyed<V>, t: seq<Keyed<V>>, k: int)
    ensures WithKey([x] + t, k) == (if x.key == k then [x] else []) + WithKey(t, k)
  {
    assert ([x] + t)[0] == x;
    assert ([x] + t)[1..] == t;
  }

  /** Inserting `p` adds `p` at the FRONT of its key group: earlier input stays earlier. */
  lemma {:induction false} InsertWithKey<V>(p: Keyed<V>, s: seq<Keyed<V>>, k: int)
    requires SortedByKey(s)
    ensures WithKey(Insert(p, s), k) == (if p.key == k then [p] else []) + WithKey(s, k)
  {
    if s == [] || p.key <= s[0].key {
      WithKeyCons(p, s, k);
    } else {
      var rest := Insert(p, s[1..]);
      WithKeyCons(s[0], rest, k);
      InsertWithKey(p, s[1..], k);
      WithKeyCons(s[0], s[1..], k);
      assert s == [s[0]] + s[1..];
    }
  }

  /** Stability: within every key, the sorted output lists the entries in input order. */
  lemma {:induction false} SortByKeyStable<V>(s: seq<Keyed<V>>, k: int)
    ensures WithKey(SortByKey(s), k) == WithKey(s, k)
  {
    if s != [] {
      SortByKeyStable(s[1..], k);
      InsertWithKey(s[0], SortByKey(s[1..]), k);
    }
  }

  /** Two key-sorted sequences that agree on every key group are equal. */
  lemma {:induction false} StableOrderUnique<V>(a: seq<Keyed<V>>, b: seq<Keyed<V>>)
    requires SortedByKey(a) && SortedByKey(b)
    requires forall k :: WithKey(a, k) == WithKey(b, k)
    ensures a == b
  {
    if a == [] || b == [] {
      if a + b != [] {
        assert WithKey(a, (a + b)[0].key) != WithKey(b, (a + b)[0].key);
        assert false;
      }
    } else {
      var ka, kb := a[0].key, b[0].key;
      // a[0] is in b's group ka, so b[0] (b's smallest key) is at most ka; symmetrically.
      assert a[0] in WithKey(a, ka);
      WithKeyMembers(b, ka);
      var j :| 0 <= j < |b| && b[j] == a[0];
      assert kb <= ka;
      assert b[0] in WithKey(b, kb);
      WithKeyMembers(a, kb);
      var i :| 0 <= i < |a| && a[i] == b[0];
      assert ka <= kb;
      assert WithKey(a, ka)[0] == a[0];
      assert WithKey(b, ka)[0] == b[0];
      assert a[0] == b[0];
      forall k
        ensures WithKey(a[1..], k) == WithKey(b[1..], k)
      {
        var head := if ka == k then [a[0]] else [];
        assert WithKey(a, k) == head + WithKey(a[1..], k);
        assert WithKey(b, k) == head + WithKey(b[1..], k);
        assert WithKey(a[1..], k) == WithKey(a, k)[|head|..];
        assert WithKey(b[1..], k) == WithKey(b, k)[|head|..];
      }
      StableOrderUnique(a[1..], b[1..]);
      assert a == [a[0]] + a[1..];
      assert b == [b[0]] + b[1..];
    }
  }

  /**
   * The reference definition of a stable sort by key: `r` is the query's result exactly when
   * it is ordered by key and agrees with the input on the order within each key.
   */
  lemma SortByKeyCharacterized<V>(s: seq<Keyed<V>>, r: seq<Keyed<V>>)
    ensures r == SortByKey(s) <==> IsStableSortOf(r, s)
  {
    forall k
      ensures WithKey(SortByKey(s), k) == WithKey(s, k)
    {
      SortByKeyStable(s, k);
    }
    assert IsStableSortOf(SortByKey(s), s);
    if IsStableSortOf(r, s) {
      StableOrderUnique(r, SortByKey(s));
    }
  }

  lemma {:induction false} ValuesAppend<V>(a: seq<Keyed<V>>, b: seq<Keyed<V>>)
    ensures Values(a + b) == Values(a) + Values(b)
  {
    if a != [] {
      assert (a + b)[0] == a[0];
      assert (a + b)[1..] == a[1..] + b;
      ValuesAppend(a[1..], b);
    } else {
      assert a + b == b;
    }
  }

  /** Reading the values back out of `Zip` gives the values that went in. */
  lemma {:induction false} ValuesOfZip<V>(keys: seq<int>, values: seq<V>)
    requires |keys| == |values|
    ensures Values(Zip(keys, values)) == values
  {
    if values != [] {
      assert Zip(keys, values)[1..] == Zip(keys[1..], values[1..]);
      ValuesOfZip(keys[1..], values[1..]);
    }
  }

  lemma {:induction false} ValuesOfInsert<V>(p: Keyed<V>, s: seq<Keyed<V>>)
    requires SortedByKey(s)
    ensures multiset(Values(Insert(p, s))) == multiset{p.value} + multiset(Values(s))
  {
    if s == [] || p.key <= s[0].key {
      assert ([p] + s)[1..] == s;
    } else {
      var rest := Insert(p, s[1..]);
      assert ([s[0]] + rest)[1..] == rest;
      ValuesOfInsert(p, s[1..]);
      assert Values(s) == [s[0].value] + Values(s[1..]);
    }
  }

  /** The sort only reorders: the values come out with the same multiplicities. */
  lemma {:induction false} SortByKeyPermutesValues<V>(s: seq<Keyed<V>>)
    ensures multiset(Values(SortByKey(s))) == multiset(Values(s))
  {
    if s != [] {
      SortByKeyPermutesValues(s[1..]);
      ValuesOfInsert(s[0], SortByKey(s[1..]));
    }
  }
}
