/** Python dictionaries as association lists.  A Python `dict` remembers insertion
    order, and several parts of the source iterate over one, so a dictionary is a
    sequence of (key, value) pairs; a well-formed one has distinct keys. */
module Dicts {
  import opened Wrappers

  type Dict<K, V> = seq<(K, V)>

  function Keys<K, V>(d: Dict<K, V>): (ks: seq<K>)
    ensures |ks| == |d|
    ensures forall i :: 0 <= i < |d| ==> ks[i] == d[i].0
  {
    seq(|d|, i requires 0 <= i < |d| => d[i].0)
  }

  function Values<K, V>(d: Dict<K, V>): (vs: seq<V>)
    ensures |vs| == |d|
    ensures forall i :: 0 <= i < |d| ==> vs[i] == d[i].1
  {
    seq(|d|, i requires 0 <= i < |d| => d[i].1)
  }

  predicate Distinct<T(==)>(s: seq<T>) {
    forall i, j :: 0 <= i < j < |s| ==> s[i] != s[j]
  }

  /** A dictionary as Python builds it: no key twice. */
  predicate UniqueKeys<K(==), V>(d: Dict<K, V>) {
    Distinct(Keys(d))
  }

  predicate HasKey<K(==), V>(d: Dict<K, V>, k: K) {
    k in Keys(d)
  }

  /** `d.get(k)`: the value of the first entry with key k. */
  function Get<K(==), V>(d: Dict<K, V>, k: K): (r: Option<V>)
    ensures r.Some? <==> HasKey(d, k)
    ensures r.Some? ==> (k, r.value) in d
  {
    if |d| == 0 then None
    else if d[0].0 == k then Some(d[0].1)
    else Get(d[1..], k)
  }

  lemma KeysCons<K, V>(x: (K, V), rest: Dict<K, V>)
    ensures Keys([x] + rest) == [x.0] + Keys(rest)
  {
  }

  /** `d[k] = v`: an existing key keeps its position, a new key goes last. */
  function Put<K(==,!new), V>(d: Dict<K, V>, k: K, v: V): (r: Dict<K, V>)
    ensures Keys(r) == if HasKey(d, k) then Keys(d) else Keys(d) + [k]
  {
    if |d| == 0 then [(k, v)]
    else if d[0].0 == k then
      KeysCons((k, v), d[1..]);
      KeysCons(d[0], d[1..]);
      assert d == [d[0]] + d[1..];
      [(k, v)] + d[1..]
    else
      var rest := Put(d[1..], k, v);
      KeysCons(d[0], rest);
      KeysCons(d[0], d[1..]);
      assert d == [d[0]] + d[1..];
      [d[0]] + rest
  }

  /** After `d[k] = v`, looking up k gives v and every other key is as it was. */
  lemma {:induction false} PutGet<K(!new), V>(d: Dict<K, V>, k: K, v: V)
    ensures Get(Put(d, k, v), k) == Some(v)
    ensures forall k' :: k' != k ==> Get(Put(d, k, v), k') == Get(d, k')
    decreases |d|
  {
    if |d| > 0 {
      if d[0].0 == k {
        assert ([(k, v)] + d[1..])[1..] == d[1..];
      } else {
        PutGet(d[1..], k, v);
        assert ([d[0]] + Put(d[1..], k, v))[1..] == Put(d[1..], k, v);
      }
    }
  }

  /** Looking up in a dictionary extended by a new key. */
  lemma {:induction false} GetSnoc<K, V>(d: Dict<K, V>, k: K, v: V, k': K)
    requires !HasKey(d, k)
    ensures Get(d + [(k, v)], k') == if k' == k then Some(v) else Get(d, k')
    decreases |d|
  {
    if |d| > 0 {
      KeysCons(d[0], d[1..]);
      assert d == [d[0]] + d[1..];
      assert (d + [(k, v)])[1..] == d[1..] + [(k, v)];
      GetSnoc(d[1..], k, v, k');
    }
  }

  /** In a dictionary without repeated keys, each entry is what looking up its key gives. */
  lemma {:induction false} GetAt<K, V>(d: Dict<K, V>, i: nat)
    requires UniqueKeys(d) && i < |d|
    ensures Get(d, d[i].0) == Some(d[i].1)
    decreases i
  {
    if i > 0 {
      assert Keys(d)[0] != Keys(d)[i];
      forall a, b | 0 <= a < b < |d| - 1 ensures Keys(d[1..])[a] != Keys(d[1..])[b] {
        assert Keys(d)[a + 1] != Keys(d)[b + 1];
      }
      GetAt(d[1..], i - 1);
    }
  }

  /** Writing a key the dictionary does not hold appends the entry. */
  lemma {:induction false} PutNew<K(!new), V>(d: Dict<K, V>, k: K, v: V)
    requires !HasKey(d, k)
    ensures Put(d, k, v) == d + [(k, v)]
    decreases |d|
  {
    if |d| > 0 {
      KeysCons(d[0], d[1..]);
      assert d == [d[0]] + d[1..];
      PutNew(d[1..], k, v);
      assert [d[0]] + (d[1..] + [(k, v)]) == d + [(k, v)];
    }
  }

  lemma PrefixUniqueKeys<K, V>(d: Dict<K, V>, n: nat)
    requires UniqueKeys(d) && n <= |d|
    ensures UniqueKeys(d[..n])
  {
    forall a, b | 0 <= a < b < n ensures Keys(d[..n])[a] != Keys(d[..n])[b] {
      assert Keys(d)[a] != Keys(d)[b];
    }
  }

  lemma SnocUniqueKeys<K, V>(d: Dict<K, V>, x: (K, V))
    requires UniqueKeys(d) && !HasKey(d, x.0)
    ensures UniqueKeys(d + [x])
  {
    var e := d + [x];
    forall a, b | 0 <= a < b < |e| ensures Keys(e)[a] != Keys(e)[b] {
      if b == |d| {
        assert Keys(d)[a] == d[a].0;
      } else {
        assert Keys(d)[a] != Keys(d)[b];
      }
    }
  }

  /** The entry after a prefix of a dictionary without repeated keys has a key the prefix lacks. */
  lemma PrefixLacksNext<K, V>(d: Dict<K, V>, n: nat)
    requires UniqueKeys(d) && n < |d|
    ensures UniqueKeys(d[..n]) && !HasKey(d[..n], d[n].0)
  {
    PrefixUniqueKeys(d, n);
    forall i | 0 <= i < n ensures Keys(d[..n])[i] != d[n].0 {
      assert Keys(d)[i] != Keys(d)[n];
    }
  }

  lemma PutUniqueKeys<K(!new), V>(d: Dict<K, V>, k: K, v: V)
    requires UniqueKeys(d)
    ensures UniqueKeys(Put(d, k, v))
  {
  }

  /** The dictionary as a map; on a repeated key the first entry decides, as Get does. */
  function ToMap<K(==), V>(d: Dict<K, V>): (m: map<K, V>)
    ensures m.Keys == set k | k in Keys(d)
    ensures forall k :: k in m ==> Get(d, k) == Some(m[k])
  {
    if |d| == 0 then map[]
    else
      var rest := ToMap(d[1..]);
      assert Keys(d) == [d[0].0] + Keys(d[1..]);
      rest[d[0].0 := d[0].1]
  }

  /** `{k: v for k, v in d.items() if k not in drop}` */
  function Without<K(==,!new), V>(d: Dict<K, V>, drop: set<K>): (r: Dict<K, V>)
    ensures forall k :: Get(r, k) == if k in drop then None else Get(d, k)
    ensures forall k :: HasKey(r, k) <==> HasKey(d, k) && k !in drop
  {
    if |d| == 0 then []
    else
      var rest := Without(d[1..], drop);
      KeysCons(d[0], d[1..]);
      assert d == [d[0]] + d[1..];
      if d[0].0 in drop then rest
      else
        KeysCons(d[0], rest);
        assert ([d[0]] + rest)[1..] == rest;
        assert forall k :: HasKey([d[0]] + rest, k) <==> k == d[0].0 || HasKey(rest, k);
        [d[0]] + rest
  }

  lemma {:induction false} WithoutUniqueKeys<K(!new), V>(d: Dict<K, V>, drop: set<K>)
    requires UniqueKeys(d)
    ensures UniqueKeys(Without(d, drop))
    decreases |d|
  {
    if |d| > 0 {
      KeysCons(d[0], d[1..]);
      assert d == [d[0]] + d[1..];
      WithoutUniqueKeys(d[1..], drop);
      if d[0].0 !in drop {
        KeysCons(d[0], Without(d[1..], drop));
      }
    }
  }
}
