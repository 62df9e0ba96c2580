/**
 * A Python dict with string keys, as the sequence of its items in insertion
 * order: looking a key up, assigning `d[k] = v` (an existing key keeps its
 * position and takes the new value, a new key goes last) and the
 * `dict(list(d.items())[:n])` prefix.
 */
module Dicts {
  import opened Results

  type Dict<V> = seq<(string, V)>

  function Keys<V>(d: Dict<V>): (ks: seq<string>)
    ensures |ks| == |d| && forall i :: 0 <= i < |d| ==> ks[i] == d[i].0
  {
    seq(|d|, i requires 0 <= i < |d| => d[i].0)
  }

  /** Every Python dict satisfies this: a key occurs once. */
  predicate DistinctKeys<V>(d: Dict<V>) {
    forall i, j :: 0 <= i < j < |d| ==> d[i].0 != d[j].0
  }

  /** `d.get(k)`: None stands for the KeyError of `d[k]`. */
  function Get<V>(d: Dict<V>, k: string): Option<V>
    decreases |d|
  {
    if |d| == 0 then None
    else if d[0].0 == k then Some(d[0].1)
    else Get(d[1..], k)
  }

  /** `d[k] = v`. */
  function Set<V>(d: Dict<V>, k: string, v: V): Dict<V>
    decreases |d|
  {
    if |d| == 0 then [(k, v)]
    else if d[0].0 == k then [(k, v)] + d[1..]
    else [d[0]] + Set(d[1..], k, v)
  }

  /** `dict(list(d.items())[:n])`. */
  function Take<V>(d: Dict<V>, n: nat): (r: Dict<V>)
    ensures |r| == if |d| < n then |d| else n
    ensures forall i :: 0 <= i < |r| ==> r[i] == d[i]
  {
    if |d| < n then d else d[..n]
  }

  /** A key is found exactly when it is one of the keys, and then with the value stored beside it. */
  lemma {:induction false} GetAt<V>(d: Dict<V>, k: string)
    requires DistinctKeys(d)
    ensures Get(d, k).None? <==> k !in Keys(d)
    ensures forall i :: 0 <= i < |d| && d[i].0 == k ==> Get(d, k) == Some(d[i].1)
    decreases |d|
  {
    if |d| > 0 {
      GetAt(d[1..], k);
      assert Keys(d) == [d[0].0] + Keys(d[1..]);
      forall i | 1 <= i < |d| && d[i].0 == k
        ensures Get(d, k) == Some(d[i].1)
      {
        assert d[1..][i - 1] == d[i];
      }
    }
  }

  /** After `d[k] = v`, `d[k]` is `v` and every other key reads as before. */
  lemma {:induction false} GetSet<V>(d: Dict<V>, k: string, v: V, other: string)
    ensures Get(Set(d, k, v), k) == Some(v)
    ensures other != k ==> Get(Set(d, k, v), other) == Get(d, other)
    decreases |d|
  {
    if |d| > 0 && d[0].0 != k {
      GetSet(d[1..], k, v, other);
    }
  }

  /** Setting a key the dict has at position `j` changes no key. */
  lemma {:induction false} SetKeepsKeys<V>(d: Dict<V>, k: string, v: V, j: nat)
    requires j < |d| && d[j].0 == k
    ensures |Set(d, k, v)| == |d| && forall i :: 0 <= i < |d| ==> Set(d, k, v)[i].0 == d[i].0
    decreases |d|
  {
    if d[0].0 != k {
      SetKeepsKeys(d[1..], k, v, j - 1);
      var r := Set(d, k, v);
      forall i | 1 <= i < |d|
        ensures r[i].0 == d[i].0
      {
        assert r[i] == Set(d[1..], k, v)[i - 1];
      }
    }
  }

  /** `d[k] = v` keeps the key order, adding a new key at the end. */
  lemma SetKeysOrder<V>(d: Dict<V>, k: string, v: V)
    ensures Keys(Set(d, k, v)) == if k in Keys(d) then Keys(d) else Keys(d) + [k]
  {
    if k in Keys(d) {
      var j :| 0 <= j < |Keys(d)| && Keys(d)[j] == k;
      SetKeepsKeys(d, k, v, j);
      assert Keys(Set(d, k, v)) == Keys(d);
    } else {
      SetAppends(d, k, v);
      assert Keys(d + [(k, v)]) == Keys(d) + [k];
    }
  }

  /** The keys before `d[k] = v` are a prefix of the keys after it. */
  lemma SetKeysExtend<V>(d: Dict<V>, k: string, v: V)
    ensures Keys(d) <= Keys(Set(d, k, v))
  {
    SetKeysOrder(d, k, v);
  }

  /** `d[k] = v` keeps the key order, adding a new key at the end, and keeps the keys distinct. */
  lemma SetKeys<V>(d: Dict<V>, k: string, v: V)
    requires DistinctKeys(d)
    ensures Keys(Set(d, k, v)) == if k in Keys(d) then Keys(d) else Keys(d) + [k]
    ensures DistinctKeys(Set(d, k, v))
  {
    SetKeysOrder(d, k, v);
    var r := Set(d, k, v);
    var ks := Keys(r);
    forall i, j | 0 <= i < j < |r|
      ensures r[i].0 != r[j].0
    {
      assert r[i].0 == ks[i] && r[j].0 == ks[j];
      if k !in Keys(d) && j == |d| {
        assert Keys(d)[i] == ks[i];
      } else {
        assert ks[i] == Keys(d)[i] && ks[j] == Keys(d)[j];
      }
    }
  }

  /** Setting a key the dict does not have appends the pair. */
  lemma {:induction false} SetAppends<V>(d: Dict<V>, k: string, v: V)
    requires k !in Keys(d)
    ensures Set(d, k, v) == d + [(k, v)]
    decreases |d|
  {
    if |d| > 0 {
      assert Keys(d) == [d[0].0] + Keys(d[1..]);
      SetAppends(d[1..], k, v);
      assert [d[0]] + (d[1..] + [(k, v)]) == d + [(k, v)];
    }
  }
}
