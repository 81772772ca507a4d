/** A map that remembers insertion order: overwriting keeps a key's place, a new key goes last. */
module OrderedMap {
  import opened Prelude

  type OMap<K, V> = seq<(K, V)>

  ghost predicate UniqueKeys<K, V>(m: OMap<K, V>) {
    forall i, j :: 0 <= i < j < |m| ==> m[i].0 != m[j].0
  }

  /** The place of `k`, or the length when absent. */
  function Find<K(==), V>(m: OMap<K, V>, k: K): (i: nat)
    ensures i <= |m| && (i < |m| ==> m[i].0 == k)
    ensures forall j :: 0 <= j < i ==> m[j].0 != k
  {
    if |m| == 0 then 0
    else if m[0].0 == k then 0
    else 1 + Find(m[1..], k)
  }

  function Get<K(==), V>(m: OMap<K, V>, k: K): Option<V> {
    var i := Find(m, k);
    if i < |m| then Some(m[i].1) else None
  }

  function Put<K(==), V>(m: OMap<K, V>, k: K, v: V): OMap<K, V> {
    var i := Find(m, k);
    if i < |m| then m[i := (k, v)] else m + [(k, v)]
  }

  function Keys<K, V>(m: OMap<K, V>): seq<K> {
    seq(|m|, i requires 0 <= i < |m| => m[i].0)
  }

  lemma GetAt<K, V>(m: OMap<K, V>, i: nat)
    requires UniqueKeys(m) && i < |m|
    ensures Find(m, m[i].0) == i && Get(m, m[i].0) == Some(m[i].1)
  {
  }

  lemma PutGet<K, V>(m: OMap<K, V>, k: K, v: V, k': K)
    ensures Get(Put(m, k, v), k') == if k' == k then Some(v) else Get(m, k')
  {
    var i, m' := Find(m, k), Put(m, k, v);
    var j, j' := Find(m, k'), Find(m', k');
    if k' == k {
      assert i < |m'| && m'[i].0 == k;
    } else if j < |m| {
      assert m'[j].0 == k';
      assert j' == j;
    }
  }

  lemma PutUnique<K, V>(m: OMap<K, V>, k: K, v: V)
    requires UniqueKeys(m)
    ensures UniqueKeys(Put(m, k, v))
    ensures |Put(m, k, v)| == if Find(m, k) < |m| then |m| else |m| + 1
    ensures forall i :: 0 <= i < |m| ==> Put(m, k, v)[i].0 == m[i].0
  {
  }
}
