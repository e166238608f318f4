/** Python's `dict` with string keys, as the application uses it: an association
    list in insertion order. Assigning to a present key replaces its value where
    it stands; assigning to a new key appends it. */
module Dicts {

  type Dict<V> = seq<(string, V)>

  /** `list(d.keys())`. */
  function Keys<V>(d: Dict<V>): (ks: seq<string>)
    ensures |ks| == |d| && forall i :: 0 <= i < |d| ==> ks[i] == d[i].0
  {
    seq(|d|, i requires 0 <= i < |d| => d[i].0)
  }

  /** `list(d.values())`. */
  function Values<V>(d: Dict<V>): (vs: seq<V>)
    ensures |vs| == |d| && forall i :: 0 <= i < |d| ==> vs[i] == d[i].1
  {
    seq(|d|, i requires 0 <= i < |d| => d[i].1)
  }

  /** What every Python dict satisfies: no key occurs twice. */
  predicate DistinctKeys<V>(d: Dict<V>) {
    forall i, j :: 0 <= i < j < |d| ==> d[i].0 != d[j].0
  }

  /** Where `k` sits in `d`: the first position holding it, or `|d|` when it is absent. */
  function IndexOf<V>(d: Dict<V>, k: string): (i: nat)
    ensures i <= |d|
    decreases |d|
  {
    if d == [] then 0
    else if d[0].0 == k then 0
    else 1 + IndexOf(d[1..], k)
  }

  /** The position found holds `k`, and no earlier one does. */
  lemma {:induction false} IndexOfSpec<V>(d: Dict<V>, k: string)
    ensures forall j :: 0 <= j < IndexOf(d, k) ==> d[j].0 != k
    ensures IndexOf(d, k) < |d| ==> d[IndexOf(d, k)].0 == k
    decreases |d|
  {
    if d != [] && d[0].0 != k {
      IndexOfSpec(d[1..], k);
    }
  }

  /** `k in d`. */
  predicate HasKey<V>(d: Dict<V>, k: string) {
    IndexOf(d, k) < |d|
  }

  /** `d.get(k, default)`. */
  function Get<V>(d: Dict<V>, k: string, default: V): V {
    var i := IndexOf(d, k);
    if i < |d| then d[i].1 else default
  }

  /** `d[k] = v`: a present key keeps its place and takes the new value, a new key goes last. */
  function Set<V>(d: Dict<V>, k: string, v: V): Dict<V> {
    var i := IndexOf(d, k);
    if i == |d| then d + [(k, v)] else d[i := (k, v)]
  }

  /** A new key goes last; a present key leaves the key order as it was; keys stay distinct. */
  lemma SetSpec<V>(d: Dict<V>, k: string, v: V)
    ensures !HasKey(d, k) ==> Set(d, k, v) == d + [(k, v)]
    ensures HasKey(d, k) ==> Keys(Set(d, k, v)) == Keys(d)
    ensures DistinctKeys(d) ==> DistinctKeys(Set(d, k, v))
  {
    IndexOfSpec(d, k);
  }

  /** Assigning a key that no entry holds appends it. */
  lemma SetAbsent<V>(d: Dict<V>, k: string, v: V)
    requires forall j :: 0 <= j < |d| ==> d[j].0 != k
    ensures Set(d, k, v) == d + [(k, v)]
  {
    IndexOfAt(d, |d|, k);
  }

  /** Reading a key just assigned gives the assigned value. */
  lemma GetSetSame<V>(d: Dict<V>, k: string, v: V, default: V)
    ensures Get(Set(d, k, v), k, default) == v
  {
    var i := IndexOf(d, k);
    var r := Set(d, k, v);
    IndexOfSpec(d, k);
    assert IndexOf(r, k) == i by {
      IndexOfAt(r, i, k);
    }
  }

  /** Assigning one key leaves every other key's value as it was. */
  lemma GetSetOther<V>(d: Dict<V>, k: string, v: V, other: string, default: V)
    requires other != k
    ensures Get(Set(d, k, v), other, default) == Get(d, other, default)
  {
    var i := IndexOf(d, other);
    var r := Set(d, k, v);
    IndexOfSpec(d, k);
    IndexOfSpec(d, other);
    if i < |d| {
      IndexOfAt(r, i, other);
    } else {
      IndexOfAt(r, |r|, other);
    }
  }

  /** The position of a key is pinned down by its two defining properties. */
  lemma {:induction false} IndexOfAt<V>(d: Dict<V>, i: nat, k: string)
    requires i <= |d| && (forall j :: 0 <= j < i ==> d[j].0 != k) && (i < |d| ==> d[i].0 == k)
    ensures IndexOf(d, k) == i
    decreases |d|
  {
    if d != [] && d[0].0 != k {
      IndexOfAt(d[1..], i - 1, k);
    }
  }

  /** With distinct keys, `get` finds the value stored at the key's position. */
  lemma GetAt<V>(d: Dict<V>, i: nat, default: V)
    requires DistinctKeys(d) && i < |d|
    ensures Get(d, d[i].0, default) == d[i].1
  {
    IndexOfAt(d, i, d[i].0);
  }
}
