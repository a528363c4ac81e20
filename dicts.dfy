/**
 * Python dictionaries with string keys as ordered association lists.
 *
 * A `dict` in the handler is iterated in insertion order, and that order is
 * visible in the order of the calls made on the inventory. `Put` updates an
 * existing key in place and appends a new key at the end, as assignment to
 * `d[k]` does; `Get` looks a key up.
 */
module Dicts {
  import opened Wrappers

  type Dict<V> = seq<(string, V)>

  function Keys<V>(d: Dict<V>): (ks: seq<string>)
    ensures |ks| == |d|
    ensures forall i :: 0 <= i < |d| ==> ks[i] == d[i].0
  {
    seq(|d|, i requires 0 <= i < |d| => d[i].0)
  }

  /** No key occurs twice, as in every real dictionary. */
  predicate UniqueKeys<V>(d: Dict<V>) {
    var ks := Keys(d);
    forall i, j :: 0 <= i < j < |ks| ==> ks[i] != ks[j]
  }

  function Get<V>(d: Dict<V>, k: string): Option<V> {
    if d == [] then None
    else if d[0].0 == k then Some(d[0].1)
    else Get(d[1..], k)
  }

  /** A key is found exactly when it is one of the keys. */
  lemma {:induction false} GetSome<V>(d: Dict<V>, k: string)
    ensures Get(d, k).Some? <==> k in Keys(d)
  {
    if d != [] && d[0].0 != k {
      GetSome(d[1..], k);
      assert Keys(d) == [d[0].0] + Keys(d[1..]);
    }
  }

  /** The value under `k`, or the empty list: a `defaultdict(list)` read. */
  function ListAt<V>(d: Dict<seq<V>>, k: string): seq<V> {
    Get(d, k).GetOr([])
  }

  /** `d[k] = v`: replace the binding of `k` where it stands, or append it. */
  function Put<V>(d: Dict<V>, k: string, v: V): (r: Dict<V>)
    ensures Get(r, k) == Some(v)
    ensures forall k' :: k' != k ==> Get(r, k') == Get(d, k')
  {
    if d == [] then [(k, v)]
    else if d[0].0 == k then [(k, v)] + d[1..]
    else
      var t := Put(d[1..], k, v);
      assert ([d[0]] + t)[1..] == t;
      [d[0]] + t
  }

  /** Assignment keeps the order of the keys and appends a new one at the end. */
  lemma {:induction false} PutKeys<V>(d: Dict<V>, k: string, v: V)
    ensures Keys(Put(d, k, v)) == Keys(d) + (if k in Keys(d) then [] else [k])
  {
    if d != [] && d[0].0 != k {
      PutKeys(d[1..], k, v);
      assert Keys(d) == [d[0].0] + Keys(d[1..]);
      assert Keys(Put(d, k, v)) == [d[0].0] + Keys(Put(d[1..], k, v));
    }
  }

  /** Assignment keeps a dictionary free of duplicate keys. */
  lemma PutKeepsUniqueKeys<V>(d: Dict<V>, k: string, v: V)
    requires UniqueKeys(d)
    ensures UniqueKeys(Put(d, k, v))
  {
    PutKeys(d, k, v);
    var ks, ks' := Keys(d), Keys(Put(d, k, v));
    if k !in ks {
      forall i, j | 0 <= i < j < |ks'| ensures ks'[i] != ks'[j] {
        if j == |ks| { assert ks'[i] == ks[i]; }
      }
    }
  }

  /** Writing the same key twice leaves only the second value. */
  lemma {:induction false} PutPut<V>(d: Dict<V>, k: string, v1: V, v2: V)
    ensures Put(Put(d, k, v1), k, v2) == Put(d, k, v2)
  {
    if d != [] && d[0].0 != k {
      PutPut(d[1..], k, v1, v2);
      assert Put(d, k, v1)[1..] == Put(d[1..], k, v1);
    }
  }

  /** In a dictionary without duplicate keys, every pair is what its key looks up. */
  lemma {:induction false} GetAt<V>(d: Dict<V>, m: nat)
    requires UniqueKeys(d) && m < |d|
    ensures Get(d, d[m].0) == Some(d[m].1)
  {
    if m > 0 {
      assert Keys(d)[0] != Keys(d)[m];
      assert forall i :: 0 <= i < |d| - 1 ==> Keys(d[1..])[i] == Keys(d)[i + 1];
      GetAt(d[1..], m - 1);
    }
  }
}
