/** The JavaScript `Map`: a dictionary that remembers the order in which its keys
    were first inserted and iterates in that order. `set` on a present key keeps
    its position; `delete` removes it from the order. */
module OrderedMaps {
  import opened Wrappers
  import opened Seqs

  predicate Distinct<K(==)>(s: seq<K>) {
    forall i, j :: 0 <= i < j < |s| ==> s[i] != s[j]
  }

  /** The insertion order after `delete(k)`. */
  function RemoveKey<K(==)>(s: seq<K>, k: K): seq<K> {
    if s == [] then []
    else if s[0] == k then RemoveKey(s[1..], k)
    else [s[0]] + RemoveKey(s[1..], k)
  }

  /** Deleting removes exactly the key: every other key stays, no key is repeated. */
  lemma {:induction false} RemoveKeyFacts<K>(s: seq<K>, k: K)
    ensures var r := RemoveKey(s, k);
      && (forall i :: 0 <= i < |r| ==> r[i] in s && r[i] != k)
      && (forall i :: 0 <= i < |s| && s[i] != k ==> s[i] in r)
      && (Distinct(s) ==> Distinct(r))
      && |r| <= |s|
  {
    if s != [] {
      RemoveKeyFacts(s[1..], k);
      var rest := RemoveKey(s[1..], k);
      if s[0] != k {
        var r := [s[0]] + rest;
        forall i | 0 <= i < |r| ensures r[i] in s && r[i] != k {
          if i > 0 {
            assert r[i] == rest[i - 1];
          }
        }
        forall i | 0 <= i < |s| && s[i] != k ensures s[i] in r {
          if i > 0 {
            assert s[i] == s[1..][i - 1];
          }
        }
        if Distinct(s) {
          forall i, j | 0 <= i < j < |r| ensures r[i] != r[j] {
            if i == 0 {
              assert r[j] == rest[j - 1];
              assert rest[j - 1] in s[1..];
            }
            else {
              assert r[i] == rest[i - 1] && r[j] == rest[j - 1];
            }
          }
        }
      } else {
        forall i | 0 <= i < |s| && s[i] != k ensures s[i] in rest {
          assert s[i] == s[1..][i - 1];
        }
      }
    }
  }

  /** Every key listed has an entry. */
  predicate KeysIn<K, V>(keys: seq<K>, entries: map<K, V>) {
    forall i :: 0 <= i < |keys| ==> keys[i] in entries
  }

  lemma KeysInPrefix<K, V>(keys: seq<K>, entries: map<K, V>, i: nat)
    requires KeysIn(keys, entries) && i <= |keys|
    ensures KeysIn(keys[..i], entries)
  {
    assert forall j :: 0 <= j < i ==> keys[..i][j] == keys[j];
  }

  /** The keys met by a walk over the first `i` positions of an insertion order. */
  function Visited<K>(keys: seq<K>, i: nat): set<K>
    requires i <= |keys|
  {
    set j | 0 <= j < i :: keys[j]
  }

  lemma {:induction false} RemoveKeyAbsent<K>(s: seq<K>, k: K)
    requires k !in s
    ensures RemoveKey(s, k) == s
  {
    if s != [] {
      RemoveKeyAbsent(s[1..], k);
      assert s == [s[0]] + s[1..];
    }
  }

  /** Deleting a key that occurs once, between two runs that do not hold it, closes the gap. */
  lemma RemoveKeyBetween<K>(a: seq<K>, k: K, b: seq<K>)
    requires k !in a && k !in b
    ensures RemoveKey(a + [k] + b, k) == a + b
  {
    RemoveKeyAppend(a + [k], b, k);
    RemoveKeyAppend(a, [k], k);
    RemoveKeyCons(k, [], k);
    assert [k] + [] == [k];
    RemoveKeyAbsent(a, k);
    RemoveKeyAbsent(b, k);
    RightUnit(a);
  }

  /** Deleting from a concatenation deletes from each part. */
  lemma {:induction false} RemoveKeyAppend<K>(a: seq<K>, b: seq<K>, k: K)
    ensures RemoveKey(a + b, k) == RemoveKey(a, k) + RemoveKey(b, k)
  {
    if a == [] {
      assert a + b == b;
    } else {
      var head := if a[0] == k then [] else [a[0]];
      RemoveKeyAppend(a[1..], b, k);
      assert a + b == [a[0]] + (a[1..] + b);
      RemoveKeyCons(a[0], a[1..] + b, k);
      assert RemoveKey(a, k) == head + RemoveKey(a[1..], k);
      Associative(head, RemoveKey(a[1..], k), RemoveKey(b, k));
    }
  }

  lemma RemoveKeyCons<K>(x: K, s: seq<K>, k: K)
    ensures RemoveKey([x] + s, k) == if x == k then RemoveKey(s, k) else [x] + RemoveKey(s, k)
  {
    assert ([x] + s)[0] == x && ([x] + s)[1..] == s;
  }

  datatype OrderedMap<K, V> = OrderedMap(keys: seq<K>, entries: map<K, V>) {

    /** The insertion order lists every key exactly once. */
    predicate Valid() {
      && Distinct(keys)
      && (forall k | k in entries :: k in keys)
      && (forall i | 0 <= i < |keys| :: keys[i] in entries)
    }

    predicate Has(k: K) {
      k in entries
    }

    /** `m.get(k)`: undefined for a missing key. */
    function Get(k: K): (r: Option<V>)
      ensures r.Some? <==> k in entries
      ensures r.Some? ==> r.value == entries[k]
    {
      if k in entries then Some(entries[k]) else None
    }

    /** `m.set(k, v)`: a new key goes to the end of the order, a present key keeps its place. */
    function Set(k: K, v: V): (r: OrderedMap<K, V>)
      requires Valid()
      ensures r.Valid()
      ensures r.entries == entries[k := v]
      ensures k in entries ==> r.keys == keys
      ensures k !in entries ==> r.keys == keys + [k]
    {
      if k in entries then OrderedMap(keys, entries[k := v])
      else OrderedMap(keys + [k], entries[k := v])
    }

    /** `m.delete(k)`. */
    function Delete(k: K): (r: OrderedMap<K, V>)
      requires Valid()
      ensures r.Valid()
      ensures r.entries == entries - {k}
      ensures r.keys == RemoveKey(keys, k)
    {
      RemoveKeyFacts(keys, k);
      OrderedMap(RemoveKey(keys, k), entries - {k})
    }

    /** `Array.from(m.values())`: the values in insertion order. */
    function Values(): (r: seq<V>)
      requires Valid()
      ensures |r| == |keys|
      ensures forall i :: 0 <= i < |keys| ==> r[i] == entries[keys[i]]
    {
      seq(|keys|, i requires 0 <= i < |keys| => entries[keys[i]])
    }

    /** `m.size`. */
    function Size(): (n: nat)
      requires Valid()
      ensures n == |entries|
    {
      SizeIsKeyCount(keys, entries);
      |keys|
    }
  }

  function Empty<K, V>(): (r: OrderedMap<K, V>)
    ensures r.Valid() && r.entries == map[] && r.keys == []
  {
    OrderedMap([], map[])
  }

  lemma {:induction false} SizeIsKeyCount<K, V>(keys: seq<K>, entries: map<K, V>)
    requires Distinct(keys)
    requires forall k | k in entries :: k in keys
    requires forall i | 0 <= i < |keys| :: keys[i] in entries
    ensures |keys| == |entries|
  {
    if keys != [] {
      var last := keys[|keys| - 1];
      var rest := keys[..|keys| - 1];
      forall k | k in entries - {last} ensures k in rest {
        var i :| 0 <= i < |keys| && keys[i] == k;
        assert i < |keys| - 1;
        assert rest[i] == k;
      }
      forall i | 0 <= i < |rest| ensures rest[i] in entries - {last} {
        assert keys[i] == rest[i];
      }
      SizeIsKeyCount(rest, entries - {last});
    }
  }

  // ---------------------------------------------------------------------------
  // Deleting while iterating: `for (const [k, v] of m.entries()) if (drop(v)) m.delete(k)`.
  // Deleting the current entry of a `Map` iteration is allowed and does not disturb
  // the visit of the remaining entries.

  /** The keys whose values are kept, in insertion order. */
  function KeptKeys<K, V>(keys: seq<K>, entries: map<K, V>, drop: V -> bool): seq<K>
    requires KeysIn(keys, entries)
  {
    if keys == [] then []
    else
      var last := keys[|keys| - 1];
      KeptKeys(keys[..|keys| - 1], entries, drop) + (if drop(entries[last]) then [] else [last])
  }

  lemma {:induction false} KeptKeysMembers<K, V>(keys: seq<K>, entries: map<K, V>, drop: V -> bool)
    requires KeysIn(keys, entries)
    ensures forall k :: k in KeptKeys(keys, entries, drop) <==> k in keys && !drop(entries[k])
  {
    if keys != [] {
      var init := keys[..|keys| - 1];
      KeptKeysMembers(init, entries, drop);
      assert keys == init + [keys[|keys| - 1]];
    }
  }

  lemma {:induction false} KeptKeysDistinct<K, V>(keys: seq<K>, entries: map<K, V>, drop: V -> bool)
    requires KeysIn(keys, entries) && Distinct(keys)
    ensures Distinct(KeptKeys(keys, entries, drop))
  {
    if keys != [] {
      var init, last := keys[..|keys| - 1], keys[|keys| - 1];
      assert forall j :: 0 <= j < |init| ==> init[j] == keys[j];
      KeptKeysDistinct(init, entries, drop);
      KeptKeysMembers(init, entries, drop);
      var kept := KeptKeys(init, entries, drop);
      if !drop(entries[last]) {
        var r := kept + [last];
        forall i, j | 0 <= i < j < |r| ensures r[i] != r[j] {
          if j == |kept| {
            assert r[i] in kept;
          }
        }
      }
    }
  }

  /** The map after deleting every entry whose value satisfies `drop`. */
  function Without<K(!new), V>(m: OrderedMap<K, V>, drop: V -> bool): (r: OrderedMap<K, V>)
    requires m.Valid()
    ensures r.Valid()
    ensures forall k :: k in r.entries <==> k in m.entries && !drop(m.entries[k])
    ensures forall k :: k in r.entries ==> r.entries[k] == m.entries[k]
  {
    var kept := KeptKeys(m.keys, m.entries, drop);
    var entries := map k | k in m.entries && !drop(m.entries[k]) :: m.entries[k];
    KeptKeysMembers(m.keys, m.entries, drop);
    KeptKeysDistinct(m.keys, m.entries, drop);
    forall i | 0 <= i < |kept| ensures kept[i] in entries {
      assert kept[i] in kept;
    }
    forall k | k in entries ensures k in kept {
      assert k in m.keys;
    }
    OrderedMap(kept, entries)
  }

  /** The entries part-way through the walk: the visited doomed ones are gone. */
  function Unvisited<K, V>(entries: map<K, V>, visited: set<K>, drop: V -> bool): map<K, V> {
    map k | k in entries && (k in visited ==> !drop(entries[k])) :: entries[k]
  }

  /** One step of the walk. */
  function DropAt<K, V>(m: OrderedMap<K, V>, k: K, drop: V -> bool): (r: OrderedMap<K, V>)
    requires m.Valid()
    ensures r.Valid()
  {
    if k in m.entries && drop(m.entries[k]) then m.Delete(k) else m
  }

  /** The key visited at step `i` occurs nowhere else in the order. */
  lemma KeyUnique<K>(kept: seq<K>, keys: seq<K>, i: nat)
    requires i < |keys| && Distinct(kept + keys[i..])
    ensures keys[i..] == [keys[i]] + keys[i + 1..]
    ensures keys[i] !in kept && keys[i] !in keys[i + 1..]
  {
    var k := keys[i];
    var rest := keys[i + 1..];
    assert keys[i..] == [k] + rest;
    var all := kept + keys[i..];
    assert all[|kept|] == k;
    forall j | 0 <= j < |kept| ensures kept[j] != k {
      assert all[j] == kept[j];
    }
    forall j | 0 <= j < |rest| ensures rest[j] != k {
      assert all[|kept| + 1 + j] == rest[j];
    }
  }

  lemma KeptKeysStep<K, V>(keys: seq<K>, entries: map<K, V>, i: nat, drop: V -> bool)
    requires i < |keys| && KeysIn(keys, entries)
    ensures KeptKeys(keys[..i + 1], entries, drop)
         == KeptKeys(keys[..i], entries, drop) + (if drop(entries[keys[i]]) then [] else [keys[i]])
  {
    assert keys[..i + 1][..i] == keys[..i];
  }

  lemma UnvisitedStep<K, V>(entries: map<K, V>, visited: set<K>, k: K, drop: V -> bool)
    requires k in entries && k !in visited
    ensures drop(entries[k]) ==> Unvisited(entries, visited, drop) - {k} == Unvisited(entries, visited + {k}, drop)
    ensures !drop(entries[k]) ==> Unvisited(entries, visited, drop) == Unvisited(entries, visited + {k}, drop)
  {
  }

  /** After the first `i` keys of the snapshot are visited, the map holds the kept
      ones among them followed by the unvisited ones; one more visit keeps this. */
  lemma DropAdvance<K, V>(keys: seq<K>, entries: map<K, V>, i: nat, m: OrderedMap<K, V>, drop: V -> bool)
    requires OrderedMap(keys, entries).Valid() && i < |keys| && m.Valid()
    requires m.keys == KeptKeys(keys[..i], entries, drop) + keys[i..]
    requires m.entries == Unvisited(entries, Visited(keys, i), drop)
    ensures DropAt(m, keys[i], drop).keys == KeptKeys(keys[..i + 1], entries, drop) + keys[i + 1..]
    ensures DropAt(m, keys[i], drop).entries == Unvisited(entries, Visited(keys, i + 1), drop)
  {
    var k := keys[i];
    assert k !in Visited(keys, i) by {
      forall j | 0 <= j < i ensures keys[j] != k { }
    }
    assert Visited(keys, i + 1) == Visited(keys, i) + {k};
    UnvisitedStep(entries, Visited(keys, i), k, drop);
    assert m.entries[k] == entries[k];
    DropAdvanceKeys(keys, entries, i, m, drop);
  }

  lemma DropAdvanceKeys<K, V>(keys: seq<K>, entries: map<K, V>, i: nat, m: OrderedMap<K, V>, drop: V -> bool)
    requires OrderedMap(keys, entries).Valid() && i < |keys| && m.Valid()
    requires m.keys == KeptKeys(keys[..i], entries, drop) + keys[i..]
    requires keys[i] in m.entries && m.entries[keys[i]] == entries[keys[i]]
    ensures DropAt(m, keys[i], drop).keys == KeptKeys(keys[..i + 1], entries, drop) + keys[i + 1..]
  {
    var k := keys[i];
    var kept := KeptKeys(keys[..i], entries, drop);
    var rest := keys[i + 1..];
    KeyUnique(kept, keys, i);
    KeptKeysStep(keys, entries, i, drop);
    Associative(kept, [k], rest);
    if drop(entries[k]) {
      assert DropAt(m, k, drop).keys == RemoveKey(m.keys, k);
      RemoveKeyBetween(kept, k, rest);
      RightUnit(kept);
    }
  }

  lemma DropDone<K(!new), V>(keys: seq<K>, entries: map<K, V>, drop: V -> bool)
    requires OrderedMap(keys, entries).Valid()
    ensures OrderedMap(KeptKeys(keys, entries, drop) + keys[|keys|..], Unvisited(entries, Visited(keys, |keys|), drop))
         == Without(OrderedMap(keys, entries), drop)
  {
    assert KeptKeys(keys, entries, drop) + keys[|keys|..] == KeptKeys(keys, entries, drop);
    forall k | k in entries ensures k in Visited(keys, |keys|) {
      var j :| 0 <= j < |keys| && keys[j] == k;
    }
    assert Unvisited(entries, Visited(keys, |keys|), drop) == map k | k in entries && !drop(entries[k]) :: entries[k];
  }

  lemma DropStart<K, V>(keys: seq<K>, entries: map<K, V>, drop: V -> bool)
    ensures KeysIn(keys[..0], entries)
    ensures KeptKeys(keys[..0], entries, drop) + keys[0..] == keys
    ensures entries == Unvisited(entries, Visited(keys, 0), drop)
  {
    assert keys[..0] == [] && keys[0..] == keys;
  }

  /** The walk itself, over a snapshot of the key order. */
  method DeleteWhere<K(!new), V>(m0: OrderedMap<K, V>, drop: V -> bool) returns (m: OrderedMap<K, V>)
    requires m0.Valid()
    ensures m.Valid() && m == Without(m0, drop)
  {
    m := m0;
    var keys := m0.keys;
    var entries := m0.entries;
    var i := 0;
    DropStart(keys, entries, drop);
    while i < |keys|
      invariant 0 <= i <= |keys| && m.Valid()
      invariant OrderedMap(keys, entries).Valid() && KeysIn(keys[..i], entries)
      invariant m.keys == KeptKeys(keys[..i], entries, drop) + keys[i..]
      invariant m.entries == Unvisited(entries, Visited(keys, i), drop)
    {
      DropAdvance(keys, entries, i, m, drop);
      m := DropAt(m, keys[i], drop);
      i := i + 1;
      KeysInPrefix(keys, entries, i);
    }
    assert keys[..i] == keys;
    DropDone(keys, entries, drop);
  }
}
