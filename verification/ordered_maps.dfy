/**
 * JavaScript's `Map`, as the server and client use it: entries kept in insertion order,
 * `get` finding the entry with the key, `set` overwriting an existing key in place or
 * appending a new one, `delete` removing the key, and iteration visiting entries in order.
 * The order matters here because several handlers stop at the FIRST matching entry.
 */
module OrderedMaps {
  import opened Options

  type Entries<K, V> = seq<(K, V)>

  /** The keys of a `Map` are distinct; every map built with `Set` and `Delete` keeps this. */
  predicate DistinctKeys<K(==), V>(m: Entries<K, V>) {
    forall i, j :: 0 <= i < j < |m| ==> m[i].0 != m[j].0
  }

  predicate HasKey<K(==), V>(m: Entries<K, V>, k: K) {
    exists i :: 0 <= i < |m| && m[i].0 == k
  }

  /** Position of the first entry with key `k`, or `|m|` when there is none. */
  function IndexOf<K(==), V>(m: Entries<K, V>, k: K): (i: nat)
    ensures i <= |m|
    ensures i < |m| ==> m[i].0 == k
    ensures forall j :: 0 <= j < i ==> m[j].0 != k
    ensures i == |m| <==> !HasKey(m, k)
    decreases |m|
  {
    if |m| == 0 || m[0].0 == k then 0 else 1 + IndexOf(m[1..], k)
  }

  /** The first position satisfying the characterisation of `IndexOf` is the one it returns. */
  lemma IndexOfUnique<K, V>(m: Entries<K, V>, k: K, i: nat)
    requires i <= |m|
    requires i < |m| ==> m[i].0 == k
    requires forall j :: 0 <= j < i ==> m[j].0 != k
    ensures IndexOf(m, k) == i
  {
  }

  /** `Map.prototype.get`. */
  function Get<K(==), V(!new)>(m: Entries<K, V>, k: K): (r: Option<V>)
    ensures r.Some? <==> HasKey(m, k)
    ensures r.Some? ==> (k, r.value) in m
    ensures DistinctKeys(m) ==> forall v :: (k, v) in m <==> r == Some(v)
  {
    var i := IndexOf(m, k);
    if i < |m| then Some(m[i].1) else None
  }

  /** `Map.prototype.set`: an existing key keeps its position and takes the new value;
      a new key is appended after every existing entry. */
  function Set<K(==,!new), V(!new)>(m: Entries<K, V>, k: K, v: V): (r: Entries<K, V>)
    ensures Get(r, k) == Some(v)
    ensures forall k' :: k' != k ==> Get(r, k') == Get(m, k')
    ensures forall e :: e in r ==> e == (k, v) || e in m
    ensures HasKey(m, k) ==> |r| == |m| && forall k' :: IndexOf(r, k') == IndexOf(m, k')
    ensures !HasKey(m, k) ==> r == m + [(k, v)]
    ensures Get(m, k) == Some(v) ==> r == m
    ensures forall k' :: HasKey(r, k') <==> k' == k || HasKey(m, k')
    ensures DistinctKeys(m) ==> DistinctKeys(r)
  {
    var i := IndexOf(m, k);
    if i < |m| then
      var r := m[i := (k, v)];
      IndexOfUnique(r, k, i);
      forall k' ensures k' != k ==> Get(r, k') == Get(m, k')
        ensures HasKey(r, k') <==> k' == k || HasKey(m, k')
        ensures IndexOf(r, k') == IndexOf(m, k')
      {
        if k' != k {
          IndexOfUnique(r, k', IndexOf(m, k'));
        }
      }
      r
    else
      var r := m + [(k, v)];
      IndexOfUnique(r, k, i);
      forall k' ensures k' != k ==> Get(r, k') == Get(m, k')
        ensures HasKey(r, k') <==> k' == k || HasKey(m, k')
      {
        if k' != k {
          var j := IndexOf(m, k');
          if j < |m| {
            IndexOfUnique(r, k', j);
          } else {
            IndexOfUnique(r, k', |r|);
          }
        }
      }
      r
  }

  /** `Map.prototype.delete`: removes the entry with key `k`, keeping the order of the rest. */
  function Delete<K(==,!new), V(!new)>(m: Entries<K, V>, k: K): (r: Entries<K, V>)
    ensures DistinctKeys(m) ==> !HasKey(r, k)
    ensures forall k' :: k' != k ==> Get(r, k') == Get(m, k')
    ensures forall e :: e in r ==> e in m
    ensures HasKey(m, k) ==> |r| == |m| - 1
    ensures !HasKey(m, k) ==> r == m
    ensures forall k' :: k' != k ==> (HasKey(r, k') <==> HasKey(m, k'))
    ensures DistinctKeys(m) ==> DistinctKeys(r)
  {
    var i := IndexOf(m, k);
    if i < |m| then
      var r := m[..i] + m[i + 1..];
      RemoveAtShape(m, i);
      forall k' | k' != k ensures Get(r, k') == Get(m, k') && (HasKey(r, k') <==> HasKey(m, k')) {
        RemoveAtKeepsOthers(m, i, r, k');
      }
      RemoveAtDistinct(m, i);
      r
    else
      m
  }

  lemma RemoveAtShape<K, V>(m: Entries<K, V>, i: nat)
    requires i < |m|
    ensures |m[..i] + m[i + 1..]| == |m| - 1
    ensures forall j :: 0 <= j < |m| - 1 ==> (m[..i] + m[i + 1..])[j] == if j < i then m[j] else m[j + 1]
    ensures forall e :: e in m[..i] + m[i + 1..] ==> e in m
  {
  }

  lemma RemoveAtDistinct<K, V>(m: Entries<K, V>, i: nat)
    requires i < |m|
    ensures DistinctKeys(m) ==> DistinctKeys(m[..i] + m[i + 1..])
    ensures DistinctKeys(m) ==> !HasKey(m[..i] + m[i + 1..], m[i].0)
  {
    RemoveAtShape(m, i);
  }

  lemma RemoveAtKeepsOthers<K(!new), V(!new)>(m: Entries<K, V>, i: nat, r: Entries<K, V>, k': K)
    requires i < |m| && m[i].0 != k'
    requires r == m[..i] + m[i + 1..]
    ensures Get(r, k') == Get(m, k')
  {
    var j := IndexOf(m, k');
    var jr := if j < i then j else j - 1;
    RemoveAtIndex(m, i, k');
    GetAt(m, k', j);
    GetAt(r, k', jr);
  }

  lemma GetAt<K, V(!new)>(m: Entries<K, V>, k: K, j: nat)
    requires IndexOf(m, k) == j
    ensures Get(m, k) == if j < |m| then Some(m[j].1) else None
  {
  }

  /** Removing the entry at `i`, whose key is not `k'`, shifts the first `k'` entry down by
      one when it came after `i`. */
  lemma RemoveAtIndex<K, V>(m: Entries<K, V>, i: nat, k': K)
    requires i < |m| && m[i].0 != k'
    ensures var j := IndexOf(m, k');
      var jr := if j < i then j else j - 1;
      && IndexOf(m[..i] + m[i + 1..], k') == jr
      && (jr < |m| - 1 <==> j < |m|)
      && (jr < |m| - 1 ==> (m[..i] + m[i + 1..])[jr] == m[j])
  {
    var r := m[..i] + m[i + 1..];
    var j := IndexOf(m, k');
    var jr := if j < i then j else j - 1;
    assert |r| == |m| - 1;
    if j < i {
      assert r[jr] == m[j];
      forall t | 0 <= t < jr ensures r[t].0 != k' {
        assert r[t] == m[t];
      }
    } else {
      if jr < |r| {
        assert r[jr] == m[j];
      }
      forall t | 0 <= t < jr ensures r[t].0 != k' {
        if t < i {
          assert r[t] == m[t];
        } else {
          assert r[t] == m[t + 1];
        }
      }
    }
    IndexOfUnique(r, k', jr);
  }

  /** Position of the first entry whose value satisfies `p` (`Array.prototype.find` over
      `map.values()`), or `|m|` when there is none. */
  function FindIndex<K, V>(m: Entries<K, V>, p: V -> bool): (i: nat)
    ensures i <= |m|
    ensures i < |m| ==> p(m[i].1)
    ensures forall j :: 0 <= j < i ==> !p(m[j].1)
    decreases |m|
  {
    if |m| == 0 || p(m[0].1) then 0 else 1 + FindIndex(m[1..], p)
  }
}
