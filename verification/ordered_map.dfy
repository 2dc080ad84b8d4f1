/**
 * A JavaScript `Map`: a finite map that also remembers the order in which
 * its keys were first inserted. Iteration (`for ... of map`, `entries()`)
 * follows that order; `set` on a key already present keeps its position,
 * `delete` removes the key from the order.
 */
module OrderedMap {

  datatype OMap<K, V> = OMap(keys: seq<K>, entries: map<K, V>)

  ghost predicate Distinct<K(!new)>(s: seq<K>) {
    forall i, j :: 0 <= i < j < |s| ==> s[i] != s[j]
  }

  /** The order lists every key exactly once. */
  ghost predicate Valid<K(!new), V>(m: OMap<K, V>) {
    && Distinct(m.keys)
    && (forall k :: k in m.entries <==> k in m.keys)
  }

  function Empty<K(==, !new), V>(): (m: OMap<K, V>)
    ensures Valid(m)
    ensures m.entries == map[] && m.keys == []
  {
    OMap([], map[])
  }

  /** `map.set(k, v)`. */
  function Put<K(==, !new), V>(m: OMap<K, V>, k: K, v: V): (r: OMap<K, V>)
    ensures Valid(m) ==> Valid(r)
    ensures k in r.entries && r.entries[k] == v
    ensures forall j :: j != k ==> (j in r.entries <==> j in m.entries)
    ensures forall j :: j != k && j in m.entries ==> r.entries[j] == m.entries[j]
    ensures k in m.entries ==> r.keys == m.keys
    ensures k !in m.entries ==> r.keys == m.keys + [k]
  {
    var keys := if k in m.entries then m.keys else m.keys + [k];
    OMap(keys, m.entries[k := v])
  }

  /** The order `s` with `k` taken out, everything else kept in place. */
  function RemoveKey<K(==, !new)>(s: seq<K>, k: K): (r: seq<K>)
    ensures forall x :: x in r <==> x in s && x != k
    ensures Distinct(s) ==> Distinct(r)
    ensures k !in s ==> r == s
  {
    if |s| == 0 then []
    else if s[0] == k then RemoveKey(s[1..], k)
    else
      var rest := RemoveKey(s[1..], k);
      assert Distinct(s) ==> s[0] !in s[1..];
      [s[0]] + rest
  }

  /** `map.delete(k)`; deleting an absent key changes nothing. */
  function Delete<K(==, !new), V>(m: OMap<K, V>, k: K): (r: OMap<K, V>)
    ensures Valid(m) ==> Valid(r)
    ensures k !in r.entries
    ensures forall j :: j != k ==> (j in r.entries <==> j in m.entries)
    ensures forall j :: j != k && j in m.entries ==> r.entries[j] == m.entries[j]
    ensures k !in m.entries && k !in m.keys ==> r == m
    ensures r.keys == RemoveKey(m.keys, k)
  {
    OMap(RemoveKey(m.keys, k), m.entries - {k})
  }

  /**
   * Taking a key out of an order that lists it once cuts exactly that one
   * position: the keys before it and after it stay, in the same order.
   */
  lemma {:induction false} RemoveKeyKeepsOrder<K(!new)>(s: seq<K>, k: K)
    requires Distinct(s) && k in s
    ensures exists i :: 0 <= i < |s| && s[i] == k && RemoveKey(s, k) == s[..i] + s[i + 1..]
    decreases |s|
  {
    if s[0] == k {
      assert k !in s[1..];
      assert RemoveKey(s, k) == s[..0] + s[0 + 1..];
    } else {
      var t := s[1..];
      assert Distinct(t);
      assert k in t;
      RemoveKeyKeepsOrder(t, k);
      var i :| 0 <= i < |t| && t[i] == k && RemoveKey(t, k) == t[..i] + t[i + 1..];
      assert RemoveKey(s, k) == [s[0]] + RemoveKey(t, k);
      assert [s[0]] + (t[..i] + t[i + 1..]) == s[..i + 1] + s[i + 2..];
      assert s[i + 1] == k;
    }
  }

  /** `map.delete(k)` on a present key leaves the other keys in their insertion order. */
  lemma DeleteKeepsOrder<K(!new), V>(m: OMap<K, V>, k: K)
    requires Valid(m) && k in m.entries
    ensures exists i :: 0 <= i < |m.keys| && m.keys[i] == k && Delete(m, k).keys == m.keys[..i] + m.keys[i + 1..]
  {
    RemoveKeyKeepsOrder(m.keys, k);
  }
}
