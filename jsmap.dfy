/** A JavaScript `Map`: a finite map that remembers the order in which its keys
    were first inserted. `set` on a present key keeps the key's position,
    `set` on a new key appends it, `delete` removes it, and `forEach` visits
    the keys in that order. */
module JsMap {

  /** No element occurs twice. */
  ghost predicate Distinct<K>(s: seq<K>) {
    forall i, j :: 0 <= i < j < |s| ==> s[i] != s[j]
  }

  /** The raw pair; `OrderedMap` below keeps the two halves in agreement. */
  datatype RawMap<K, V> = RawMap(keys: seq<K>, entries: map<K, V>)

  ghost predicate WellFormed<K(!new), V>(m: RawMap<K, V>) {
    Distinct(m.keys) && forall k :: k in m.keys <==> k in m.entries
  }

  type OrderedMap<K(==, !new), V> = m: RawMap<K, V> | WellFormed(m) witness RawMap([], map[])

  /** `new Map()`. */
  function Empty<K(==, !new), V>(): (m: OrderedMap<K, V>)
    ensures m.entries == map[]
  {
    RawMap([], map[])
  }

  /** `s` with every occurrence of `k` removed, the rest in order. */
  function Without<K(==, !new)>(s: seq<K>, k: K): (r: seq<K>)
    ensures forall x :: x in r <==> x in s && x != k
    ensures k !in s ==> r == s
    ensures Distinct(s) ==> Distinct(r)
    ensures |r| <= |s|
  {
    if s == [] then []
    else if s[0] == k then Without(s[1..], k)
    else
      var rest := Without(s[1..], k);
      assert Distinct(s) ==> s[0] !in s[1..];
      [s[0]] + rest
  }

  /** `r` is `s` with the element at one position, which is `k`, cut out:
      the elements before and after it keep their order. */
  ghost predicate CutAt<K>(s: seq<K>, k: K, r: seq<K>) {
    exists i :: 0 <= i < |s| && s[i] == k && r == s[..i] + s[i + 1..]
  }

  /** In a sequence without repeats, `k` is removed from its one position. */
  lemma {:induction false} WithoutSplits<K(!new)>(s: seq<K>, k: K)
    requires Distinct(s) && k in s
    ensures CutAt(s, k, Without(s, k))
  {
    if s[0] == k {
      assert s[0] !in s[1..];
      assert Without(s, k) == s[..0] + s[1..];
      assert CutAt(s, k, Without(s, k));
    } else {
      var tail := s[1..];
      assert Distinct(tail);
      WithoutSplits(tail, k);
      var j :| 0 <= j < |tail| && tail[j] == k && Without(tail, k) == tail[..j] + tail[j + 1..];
      var before, after := tail[..j], tail[j + 1..];
      assert Without(s, k) == [s[0]] + (before + after);
      assert [s[0]] + (before + after) == ([s[0]] + before) + after;
      assert [s[0]] + before == s[..j + 1];
      assert after == s[j + 2..];
      assert s[j + 1] == k;
      assert CutAt(s, k, Without(s, k));
    }
  }

  /** `m.set(k, v)`. */
  function Set<K(==, !new), V>(m: OrderedMap<K, V>, k: K, v: V): (r: OrderedMap<K, V>)
    ensures r.entries == m.entries[k := v]
    ensures k in m.entries ==> r.keys == m.keys
    ensures k !in m.entries ==> r.keys == m.keys + [k]
  {
    if k in m.entries then RawMap(m.keys, m.entries[k := v])
    else RawMap(m.keys + [k], m.entries[k := v])
  }

  /** `m.delete(k)`: a missing key leaves the map as it is. */
  function Delete<K(==, !new), V>(m: OrderedMap<K, V>, k: K): (r: OrderedMap<K, V>)
    ensures r.entries == m.entries - {k}
    ensures forall x :: x in r.keys <==> x in m.keys && x != k
    ensures k !in m.entries ==> r == m
    ensures k in m.entries ==> CutAt(m.keys, k, r.keys)
  {
    if k !in m.entries then m
    else
      var keys := Without(m.keys, k);
      WithoutSplits(m.keys, k);
      RawMap(keys, m.entries - {k})
  }

  /** `m.size === 0`. */
  predicate IsEmpty<K(==, !new), V>(m: OrderedMap<K, V>)
    ensures IsEmpty(m) <==> m.entries == map[]
  {
    if m.keys == [] then
      assert m.entries.Keys == {};
      true
    else
      assert m.keys[0] in m.entries;
      false
  }

  /** Storing a key's own value again changes nothing. */
  lemma SetUnchanged<K(!new), V>(m: OrderedMap<K, V>, k: K)
    requires k in m.entries
    ensures Set(m, k, m.entries[k]) == m
  {
    assert m.entries[k := m.entries[k]] == m.entries;
  }
}
