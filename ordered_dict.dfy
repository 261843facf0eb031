/**
 * Python's built-in dict as the source uses it: key/value pairs kept in
 * insertion order, each key at most once. Assigning to a present key keeps
 * its position; assigning to a new key appends; deleting removes the pair.
 */
module OrderedDicts {
  import opened Wrappers

  type Dict<K, V> = seq<(K, V)>

  /** The keys in iteration order (list(d.keys())). */
  function Keys<K, V>(d: Dict<K, V>): (r: seq<K>)
    ensures |r| == |d| && forall i :: 0 <= i < |d| ==> r[i] == d[i].0
  {
    seq(|d|, i requires 0 <= i < |d| => d[i].0)
  }

  /** The values in iteration order (list(d.values())). */
  function Values<K, V>(d: Dict<K, V>): (r: seq<V>)
    ensures |r| == |d| && forall i :: 0 <= i < |d| ==> r[i] == d[i].1
  {
    seq(|d|, i requires 0 <= i < |d| => d[i].1)
  }

  /** `k in d`. */
  predicate HasKey<K(==), V>(d: Dict<K, V>, k: K) {
    k in Keys(d)
  }

  ghost predicate DistinctKeys<K, V>(d: Dict<K, V>) {
    forall i, j :: 0 <= i < j < |d| ==> d[i].0 != d[j].0
  }

  /** The position of `k` in iteration order. */
  function IndexOf<K(==), V>(d: Dict<K, V>, k: K): (i: nat)
    requires HasKey(d, k)
    ensures i < |d| && d[i].0 == k
    ensures forall j :: 0 <= j < i ==> d[j].0 != k
  {
    if d[0].0 == k then 0
    else
      assert Keys(d) == [d[0].0] + Keys(d[1..]);
      1 + IndexOf(d[1..], k)
  }

  /** `d[k]` for a present key. */
  function Get<K(==), V>(d: Dict<K, V>, k: K): V
    requires HasKey(d, k)
  {
    d[IndexOf(d, k)].1
  }

  /** `d.get(k, default)`. */
  function GetOr<K(==), V>(d: Dict<K, V>, k: K, default: V): V {
    if HasKey(d, k) then Get(d, k) else default
  }

  /** `d[k] = v`. */
  function Put<K(==), V>(d: Dict<K, V>, k: K, v: V): Dict<K, V> {
    if HasKey(d, k) then d[IndexOf(d, k) := (k, v)] else d + [(k, v)]
  }

  /** `del d[k]` for a present key. */
  function Remove<K(==), V>(d: Dict<K, V>, k: K): Dict<K, V>
    requires HasKey(d, k)
  {
    var i := IndexOf(d, k);
    d[..i] + d[i + 1..]
  }

  /** In a dict with distinct keys, the position of each key is the only one holding it. */
  lemma IndexOfUnique<K, V>(d: Dict<K, V>, i: nat)
    requires DistinctKeys(d) && i < |d|
    ensures HasKey(d, d[i].0) && IndexOf(d, d[i].0) == i
  {
    assert Keys(d)[i] == d[i].0;
  }

  /** `d[k] = v` keeps keys distinct, makes `k` map to `v`, leaves every other key alone and
      grows the dict exactly when `k` is new, appending it at the end. */
  lemma PutLookup<K, V>(d: Dict<K, V>, k: K, v: V)
    requires DistinctKeys(d)
    ensures DistinctKeys(Put(d, k, v))
    ensures HasKey(Put(d, k, v), k) && Get(Put(d, k, v), k) == v
    ensures forall k' :: k' != k ==>
      (HasKey(Put(d, k, v), k') <==> HasKey(d, k')) &&
      (HasKey(d, k') ==> Get(Put(d, k, v), k') == Get(d, k'))
    ensures |Put(d, k, v)| == if HasKey(d, k) then |d| else |d| + 1
    ensures Keys(Put(d, k, v)) == if HasKey(d, k) then Keys(d) else Keys(d) + [k]
  {
    var d' := Put(d, k, v);
    if HasKey(d, k) {
      var i := IndexOf(d, k);
      assert Keys(d') == Keys(d);
      IndexOfUnique(d', i);
      forall k' | k' != k && HasKey(d, k')
        ensures Get(d', k') == Get(d, k')
      {
        var j := IndexOf(d, k');
        IndexOfUnique(d', j);
      }
    } else {
      assert Keys(d') == Keys(d) + [k];
      IndexOfUnique(d', |d|);
      forall k' | k' != k && HasKey(d, k')
        ensures Get(d', k') == Get(d, k')
      {
        var j := IndexOf(d, k');
        IndexOfUnique(d', j);
      }
    }
  }

  /** `d[k] = v` keeps the keys distinct and makes `k` present. */
  lemma PutKeeps<K, V>(d: Dict<K, V>, k: K, v: V)
    requires DistinctKeys(d)
    ensures DistinctKeys(Put(d, k, v)) && HasKey(Put(d, k, v), k)
  {
    PutLookup(d, k, v);
  }

  /** `d[k] = v` leaves the presence and the value of any other key alone. */
  lemma PutOther<K, V>(d: Dict<K, V>, k: K, v: V, k': K)
    requires DistinctKeys(d) && k' != k
    ensures HasKey(Put(d, k, v), k') <==> HasKey(d, k')
    ensures HasKey(d, k') ==> Get(Put(d, k, v), k') == Get(d, k')
  {
    PutLookup(d, k, v);
  }

  /** Removing the entry at position i shifts the later entries down by one. */
  lemma RemoveShift<K, V>(d: Dict<K, V>, k: K)
    requires HasKey(d, k)
    ensures var i := IndexOf(d, k);
      |Remove(d, k)| == |d| - 1 &&
      (forall j :: 0 <= j < i ==> Remove(d, k)[j] == d[j]) &&
      (forall j :: i <= j < |d| - 1 ==> Remove(d, k)[j] == d[j + 1])
  {
  }

  /** `del d[k]` keeps keys distinct, drops exactly `k` and shrinks the dict by one. */
  lemma RemoveLookup<K, V>(d: Dict<K, V>, k: K)
    requires DistinctKeys(d) && HasKey(d, k)
    ensures DistinctKeys(Remove(d, k))
    ensures !HasKey(Remove(d, k), k)
    ensures forall k' :: k' != k ==>
      (HasKey(Remove(d, k), k') <==> HasKey(d, k')) &&
      (HasKey(d, k') ==> Get(Remove(d, k), k') == Get(d, k'))
    ensures |Remove(d, k)| == |d| - 1
  {
    var i := IndexOf(d, k);
    var d' := Remove(d, k);
    RemoveShift(d, k);
    if HasKey(d', k) {
      var j := IndexOf(d', k);
      assert false;
    }
    forall k' | k' != k
      ensures HasKey(d', k') <==> HasKey(d, k')
      ensures HasKey(d, k') ==> Get(d', k') == Get(d, k')
    {
      RemoveOther(d, k, k');
    }
  }

  /** After `del d[k]`, any other key is present and bound exactly as before. */
  lemma RemoveOther<K, V>(d: Dict<K, V>, k: K, k': K)
    requires DistinctKeys(d) && HasKey(d, k) && k' != k
    ensures HasKey(Remove(d, k), k') <==> HasKey(d, k')
    ensures HasKey(d, k') ==> Get(Remove(d, k), k') == Get(d, k')
  {
    var i := IndexOf(d, k);
    var d' := Remove(d, k);
    RemoveShift(d, k);
    if HasKey(d, k') {
      var j := IndexOf(d, k');
      var j' := if j < i then j else j - 1;
      assert d'[j'] == d[j];
      assert DistinctKeys(d') by { RemoveDistinct(d, k); }
      IndexOfUnique(d', j');
    }
    if HasKey(d', k') {
      var j' := IndexOf(d', k');
      assert Keys(d)[if j' < i then j' else j' + 1] == k';
    }
  }

  /** `del d[k]` keeps the keys distinct. */
  lemma RemoveDistinct<K, V>(d: Dict<K, V>, k: K)
    requires DistinctKeys(d) && HasKey(d, k)
    ensures DistinctKeys(Remove(d, k))
  {
    RemoveShift(d, k);
  }

  /** The first k + 1 entries of a dict with distinct keys are the first k with entry k put
      at the end: its key is new to the prefix. */
  lemma PrefixPut<K, V>(d: Dict<K, V>, k: nat)
    requires DistinctKeys(d) && k < |d|
    ensures DistinctKeys(d[..k]) && !HasKey(d[..k], d[k].0)
    ensures d[..k + 1] == Put(d[..k], d[k].0, d[k].1)
  {
    assert Keys(d[..k]) == Keys(d)[..k];
  }
}
