/**
 * Python's dict: a finite map whose keys keep the order of their first insertion.
 * Writing to a key already present replaces its value in place.
 */
module Dicts {

  datatype RawDict<K, V> = RawDict(keys: seq<K>, entries: map<K, V>)

  /** The keys are listed once each, and exactly the keys of the map are listed. */
  ghost predicate WellFormed<K, V>(d: RawDict<K, V>)
  {
    && (forall i, j :: 0 <= i < j < |d.keys| ==> d.keys[i] != d.keys[j])
    && (forall k :: k in d.entries ==> k in d.keys)
    && (forall k :: k in d.keys ==> k in d.entries)
  }

  type Dict<K, V> = d: RawDict<K, V> | WellFormed(d) witness RawDict([], map[])

  function Empty<K, V>(): Dict<K, V>
  {
    RawDict([], map[])
  }

  /** `d[k] = v` */
  function Put<K, V>(d: Dict<K, V>, k: K, v: V): (r: Dict<K, V>)
    ensures r.entries == d.entries[k := v]
  {
    if k in d.entries then RawDict(d.keys, d.entries[k := v])
    else RawDict(d.keys + [k], d.entries[k := v])
  }

  /** `list(d.values())`: the values in key order. */
  function Values<K, V>(d: Dict<K, V>): (vs: seq<V>)
    ensures |vs| == |d.keys|
  {
    seq(|d.keys|, i requires 0 <= i < |d.keys| => d.entries[d.keys[i]])
  }

  /** Every stored value is listed by `Values`. */
  lemma ValuesListEveryEntry<K, V>(d: Dict<K, V>)
    ensures forall k :: k in d.entries ==> d.entries[k] in Values(d)
  {
    forall k | k in d.entries
      ensures d.entries[k] in Values(d)
    {
      var i := ValueAtKey(d, k);
    }
  }

  /** Overwriting a key keeps its position and the number of entries; only its value changes. */
  lemma PutExisting<K, V>(d: Dict<K, V>, k: K, v: V, i: nat)
    requires i < |d.keys| && d.keys[i] == k
    ensures Put(d, k, v).keys == d.keys
    ensures Put(d, k, v).entries[k] == v
    ensures Values(Put(d, k, v)) == Values(d)[i := v]
  {
    var r := Put(d, k, v);
    forall j | 0 <= j < |d.keys|
      ensures Values(r)[j] == Values(d)[i := v][j]
    {
      if j != i {
        assert d.keys[j] != k;
      }
    }
  }

  /** Writing a new key appends exactly one entry at the end. */
  lemma PutFresh<K, V>(d: Dict<K, V>, k: K, v: V)
    requires k !in d.entries
    ensures Put(d, k, v).keys == d.keys + [k]
    ensures Put(d, k, v).entries[k] == v
    ensures Values(Put(d, k, v)) == Values(d) + [v]
  {
    var r := Put(d, k, v);
    forall j | 0 <= j < |d.keys|
      ensures Values(r)[j] == Values(d)[j]
    {
      assert d.keys[j] in d.entries;
    }
  }

  /** A one-entry dict. */
  lemma PutOne<K, V>(k: K, v: V)
    ensures Put(Empty(), k, v) == RawDict([k], map[k := v])
    ensures Values(Put(Empty(), k, v)) == [v]
  {
    PutFresh(Empty<K, V>(), k, v);
  }

  /** A two-entry dict, for distinct keys, lists them in insertion order. */
  lemma PutTwo<K, V>(k1: K, v1: V, k2: K, v2: V)
    requires k1 != k2
    ensures Put(Put(Empty(), k1, v1), k2, v2) == RawDict([k1, k2], map[k1 := v1, k2 := v2])
    ensures Values(Put(Put(Empty(), k1, v1), k2, v2)) == [v1, v2]
  {
    PutOne(k1, v1);
    var d1 := Put(Empty(), k1, v1);
    PutFresh(d1, k2, v2);
    assert Put(d1, k2, v2).keys == [k1] + [k2];
    assert Values(Put(d1, k2, v2)) == [v1] + [v2];
  }

  /** Every key of the map sits at some position of the order, where its value is listed. */
  lemma ValueAtKey<K, V>(d: Dict<K, V>, k: K) returns (i: nat)
    requires k in d.entries
    ensures i < |d.keys| && d.keys[i] == k && Values(d)[i] == d.entries[k]
  {
    i := 0;
    while d.keys[i] != k
      invariant i < |d.keys|
      invariant k !in d.keys[..i]
      decreases |d.keys| - i
    {
      assert k in d.keys[i + 1..] by {
        assert d.keys == d.keys[..i + 1] + d.keys[i + 1..];
      }
      i := i + 1;
    }
  }
}
