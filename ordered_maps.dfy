/**
 Insertion-ordered dictionaries with string keys, which is how a Python `dict`
 behaves: its entries are kept in the order their keys were first inserted, and
 assigning to a key that is already present changes its value in place without
 moving it.
 */
module OrderedMaps {

  datatype Entry<V> = Entry(key: string, value: V)

  /** The entries of a dictionary in first-insertion order. */
  type OrderedMap<V> = seq<Entry<V>>

  ghost predicate DistinctKeys<V>(m: OrderedMap<V>)
  {
    forall i, j :: 0 <= i < j < |m| ==> m[i].key != m[j].key
  }

  /** The position of key `k` in `m`, or `|m|` when `k` is not a key of `m`. */
  function Find<V>(m: OrderedMap<V>, k: string): (i: nat)
    ensures i <= |m|
    ensures i < |m| ==> m[i].key == k
    ensures forall j :: 0 <= j < i ==> m[j].key != k
  {
    if |m| == 0 then 0
    else if m[0].key == k then 0
    else 1 + Find(m[1..], k)
  }

  /** `k in d` */
  predicate Contains<V>(m: OrderedMap<V>, k: string)
  {
    Find(m, k) < |m|
  }

  /** `d[k]` */
  function Get<V>(m: OrderedMap<V>, k: string): V
    requires Contains(m, k)
  {
    m[Find(m, k)].value
  }

  /** `next(iter(d.values()))`: the value of the first-inserted key. */
  function First<V>(m: OrderedMap<V>): V
    requires |m| > 0
  {
    m[0].value
  }

  /** `v in d.values()` */
  ghost predicate HasValue<V>(m: OrderedMap<V>, v: V)
  {
    exists j :: 0 <= j < |m| && m[j].value == v
  }

  /** A position that satisfies the contract of `Find` is the one `Find` returns. */
  lemma FindUnique<V>(m: OrderedMap<V>, k: string, i: nat)
    requires i <= |m|
    requires i < |m| ==> m[i].key == k
    requires forall j :: 0 <= j < i ==> m[j].key != k
    ensures Find(m, k) == i
  {
  }

  /** Two dictionaries with the same keys at the same positions find every key at the same position. */
  lemma SameKeysSameFind<V>(m: OrderedMap<V>, r: OrderedMap<V>)
    requires |m| == |r|
    requires forall j :: 0 <= j < |m| ==> m[j].key == r[j].key
    ensures forall k :: Find(m, k) == Find(r, k)
  {
    forall k ensures Find(m, k) == Find(r, k) {
      FindUnique(r, k, Find(m, k));
    }
  }

  /** Every key that occurs in `m` is found. */
  lemma ContainsAt<V>(m: OrderedMap<V>, j: nat)
    requires j < |m|
    ensures Contains(m, m[j].key) && Find(m, m[j].key) <= j
  {
  }

  /** Each position after a write holds the written entry or the one that was there before. */
  lemma PutEntry<V>(m: OrderedMap<V>, k: string, v: V, j: nat)
    requires j < |Put(m, k, v)|
    ensures Put(m, k, v)[j] == Entry(k, v) || (j < |m| && Put(m, k, v)[j] == m[j])
  {
  }

  /** Writing a key never changes the key in first position. */
  lemma PutKeepsFirstKey<V>(m: OrderedMap<V>, k: string, v: V)
    requires |m| > 0
    ensures Put(m, k, v)[0].key == m[0].key
  {
    if Find(m, k) == 0 {
      assert m[0].key == k;
    }
  }

  /** `d[k] = v`: an existing key keeps its position and gets the new value; a new key is appended. */
  function Put<V>(m: OrderedMap<V>, k: string, v: V): (r: OrderedMap<V>)
    ensures Contains(r, k) && Get(r, k) == v
    ensures forall k' :: k' != k ==> Contains(r, k') == Contains(m, k')
    ensures forall k' :: k' != k && Contains(m, k') ==> Get(r, k') == Get(m, k')
    ensures |r| == if Contains(m, k) then |m| else |m| + 1
    ensures forall j :: 0 <= j < |m| ==> r[j] == if j == Find(m, k) then Entry(k, v) else m[j]
    ensures !Contains(m, k) ==> r[|m|] == Entry(k, v)
    ensures DistinctKeys(m) ==> DistinctKeys(r)
  {
    var i := Find(m, k);
    if i < |m| then
      var r := m[i := Entry(k, v)];
      SameKeysSameFind(m, r);
      r
    else
      var r := m + [Entry(k, v)];
      FindUnique(r, k, |m|);
      assert forall k' :: k' != k ==> Find(r, k') == Find(m, k') + (if Contains(m, k') then 0 else 1) by {
        forall k' | k' != k ensures Find(r, k') == Find(m, k') + (if Contains(m, k') then 0 else 1) {
          var f := Find(m, k');
          FindUnique(r, k', if f < |m| then f else |r|);
        }
      }
      r
  }
}
