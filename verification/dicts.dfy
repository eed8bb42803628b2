/**
 * Python's `dict` with string keys, which remembers the order in which keys were
 * first inserted. Iterating over `data`, over the stored results and over a
 * conversation follows that order, so the scripts' outputs depend on it.
 */
module Dicts {

  datatype RawDict<V> = RawDict(keys: seq<string>, vals: map<string, V>)

  ghost predicate Distinct(ks: seq<string>)
  {
    forall i, j :: 0 <= i < j < |ks| ==> ks[i] != ks[j]
  }

  ghost predicate WellFormed<V>(d: RawDict<V>)
  {
    Distinct(d.keys) && d.vals.Keys == set k | k in d.keys
  }

  /** Every key occurs once in `keys`, and `keys` lists exactly the keys of `vals`. */
  type Dict<V> = d: RawDict<V> | WellFormed(d) witness RawDict([], map[])

  function Empty<V>(): Dict<V>
  {
    RawDict([], map[])
  }

  /** Python's `d[k] = v`: a new key goes to the end, an existing key keeps its place. */
  function Put<V>(d: Dict<V>, k: string, v: V): (r: Dict<V>)
    ensures r.vals == d.vals[k := v]
    ensures k in d.vals ==> r.keys == d.keys
    ensures k !in d.vals ==> r.keys == d.keys + [k]
  {
    if k in d.vals then RawDict(d.keys, d.vals[k := v])
    else
      var r := RawDict(d.keys + [k], d.vals[k := v]);
      assert r.vals.Keys == set x | x in r.keys;
      r
  }

  /** The values stored under `keys`, in that order. */
  function ValuesAt<V>(keys: seq<string>, vals: map<string, V>): (vs: seq<V>)
    requires forall k :: k in keys ==> k in vals
    ensures |vs| == |keys|
    ensures forall i :: 0 <= i < |keys| ==> vs[i] == vals[keys[i]]
  {
    if keys == [] then [] else ValuesAt(keys[..|keys| - 1], vals) + [vals[keys[|keys| - 1]]]
  }

  /** Python's `list(d.values())`. */
  function Values<V>(d: Dict<V>): (vs: seq<V>)
    ensures |vs| == |d.keys|
    ensures forall i :: 0 <= i < |d.keys| ==> vs[i] == d.vals[d.keys[i]]
  {
    assert forall k :: k in d.keys ==> k in d.vals by {
      assert d.vals.Keys == set k | k in d.keys;
    }
    ValuesAt(d.keys, d.vals)
  }

  /** A key's position in `keys`. */
  lemma KeyIndex<V>(d: Dict<V>, k: string) returns (i: nat)
    requires k in d.vals
    ensures i < |d.keys| && d.keys[i] == k
  {
    assert k in set x | x in d.keys;
    i :| i < |d.keys| && d.keys[i] == k;
  }

  /** The key list and the map agree on which keys there are. */
  lemma KeysListed<V>(d: Dict<V>)
    ensures forall k :: k in d.keys <==> k in d.vals
  {
    assert d.vals.Keys == set k | k in d.keys;
  }

  /** In a list of distinct keys, a key does not occur before its own position. */
  lemma DistinctAt(ks: seq<string>, i: nat)
    requires Distinct(ks) && i < |ks|
    ensures ks[i] !in ks[..i]
  {
    forall j | 0 <= j < i ensures ks[..i][j] != ks[i] {
      assert ks[..i][j] == ks[j];
    }
  }

  /** In a list of distinct keys, a key does not occur after its own position. */
  lemma DistinctAfter(ks: seq<string>, i: nat)
    requires Distinct(ks) && i < |ks|
    ensures ks[i] !in ks[i + 1..]
  {
    var tail := ks[i + 1..];
    forall j | 0 <= j < |tail| ensures tail[j] != ks[i] {
      assert tail[j] == ks[i + 1 + j];
    }
  }

  /** A list of distinct keys has as many elements as the set of its keys. */
  lemma {:induction false} DistinctCard(ks: seq<string>)
    requires Distinct(ks)
    ensures |set k | k in ks| == |ks|
  {
    if ks != [] {
      var init := ks[..|ks| - 1];
      DistinctCard(init);
      assert ks == init + [ks[|ks| - 1]];
      assert (set k | k in ks) == (set k | k in init) + {ks[|ks| - 1]};
    }
  }
}
