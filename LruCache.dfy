/**
 * The least-recently-used cache decorator. The access-ordered LinkedHashMap that tracks keys is
 * a sequence, least recently used first; the decorated cache is a map.
 */
module LruCache {
  import opened Wrappers

  /** The capacity the decorator starts with. */
  const DefaultSize: int := 1024

  predicate Distinct<K(==,!new)>(s: seq<K>) {
    forall i, j :: 0 <= i < j < |s| ==> s[i] != s[j]
  }

  /** The sequence without k, order kept. */
  function Without<K(==,!new)>(s: seq<K>, k: K): (r: seq<K>)
    ensures forall x :: x in r <==> x in s && x != k
    ensures Distinct(s) ==> Distinct(r)
    ensures Distinct(s) && k in s ==> |r| == |s| - 1
    ensures k !in s ==> r == s
  {
    if |s| == 0 then []
    else
      var rest := Without(s[1..], k);
      assert Distinct(s) ==> s[0] !in s[1..];
      if s[0] == k then rest else [s[0]] + rest
  }

  /** An access: the key moves to the most-recently-used end. */
  function Touch<K(==,!new)>(keys: seq<K>, k: K): seq<K> {
    Without(keys, k) + [k]
  }

  /**
   * `cycleKeyList(key)` on the tracker: `keyMap.put(key, key)`. A tracked key is only moved
   * (LinkedHashMap reports no eldest entry for an existing key); a new key is appended, and
   * when that takes the tracker over capacity its eldest key is dropped and reported.
   */
  function CycleKeys<K(==,!new)>(keys: seq<K>, k: K, capacity: int): (seq<K>, Option<K>) {
    if k in keys then (Touch(keys, k), None)
    else
      var grown := keys + [k];
      if |grown| > capacity then (grown[1..], Some(grown[0])) else (grown, None)
  }

  /** Tracking keeps keys distinct, within capacity, and evicts exactly the least recently used key. */
  lemma CycleKeysSpec<K(!new)>(keys: seq<K>, k: K, capacity: int)
    requires Distinct(keys) && 0 <= capacity && |keys| <= capacity
    ensures var (r, eldest) := CycleKeys(keys, k, capacity);
      Distinct(r) && |r| <= capacity &&
      (eldest.Some? <==> k !in keys && |keys| == capacity) &&
      (eldest.Some? ==> eldest.value == (keys + [k])[0] && r == (keys + [k])[1..]) &&
      (eldest.None? ==> r[|r| - 1] == k && forall x :: x in r <==> x in keys || x == k) &&
      (capacity >= 1 ==> k in r && (eldest.Some? ==> eldest.value != k)) &&
      (capacity == 0 ==> eldest == Some(k) && r == [])
  {
    if k !in keys {
      var grown := keys + [k];
      assert Distinct(grown) by {
        forall i, j | 0 <= i < j < |grown|
          ensures grown[i] != grown[j]
        {
          if j == |keys| {
            assert grown[i] == keys[i];
          }
        }
      }
      if capacity >= 1 && |grown| > capacity {
        assert |grown| >= 2;
        assert grown[1..][|grown| - 2] == k;
      }
    }
  }

  /** An access to a tracked key moves it to the end and keeps the others in their order. */
  lemma TouchSpec<K(!new)>(keys: seq<K>, k: K)
    requires Distinct(keys)
    ensures k in keys ==> var r := Touch(keys, k);
      Distinct(r) && |r| == |keys| && r[|r| - 1] == k && (forall x :: x in r <==> x in keys) &&
      r[..|r| - 1] == Without(keys, k)
  {
    if k in keys {
      var r := Touch(keys, k);
      var w := Without(keys, k);
      assert r[..|w|] == w;
      assert Distinct(r) by {
        forall i, j | 0 <= i < j < |r|
          ensures r[i] != r[j]
        {
          if j == |w| {
            assert r[i] == w[i];
          }
        }
      }
    }
  }

  class LruCache<K(==,!new), V> {
    /** The decorated cache. */
    var delegate: map<K, V>
    /** The tracked keys, least recently used first. */
    var keyMap: seq<K>
    var eldestKey: Option<K>
    /** The capacity the tracker was created with by the last `setSize`. */
    var size: int

    ghost predicate Valid()
      reads this
    {
      Distinct(keyMap) && 0 <= size && |keyMap| <= size && eldestKey.None?
    }

    constructor (delegate: map<K, V>)
      ensures Valid()
      ensures this.delegate == delegate && keyMap == [] && size == DefaultSize
    {
      this.delegate := delegate;
      keyMap := [];
      eldestKey := None;
      size := DefaultSize;
    }

    /** `getSize`: the decorated cache's size. */
    function GetSize(): (n: nat)
      reads this
      ensures n == |delegate.Keys|
    {
      |delegate.Keys|
    }

    /** `setSize`: a new, empty tracker of the given capacity; a negative capacity is rejected. */
    method SetSize(newSize: int) returns (r: Outcome<string>)
      modifies this
      ensures newSize < 0 ==> r.Fail? && keyMap == old(keyMap) && size == old(size)
      ensures newSize >= 0 ==> r.Pass? && keyMap == [] && size == newSize
      ensures delegate == old(delegate) && eldestKey == old(eldestKey)
    {
      if newSize < 0 {
        return Fail("Illegal initial capacity: " + "negative");
      }
      keyMap := [];
      size := newSize;
      return Pass;
    }

    /** `putObject`: write through, then record the key and evict the eldest key if over capacity. */
    method PutObject(key: K, value: V)
      requires Valid()
      modifies this
      ensures Valid()
      ensures keyMap == CycleKeys(old(keyMap), key, size).0
      ensures var eldest := CycleKeys(old(keyMap), key, size).1;
        delegate == (if eldest.Some? then old(delegate)[key := value] - {eldest.value} else old(delegate)[key := value])
      ensures size == old(size)
    {
      delegate := delegate[key := value];
      CycleKeyList(key);
    }

    /** `cycleKeyList` */
    method CycleKeyList(key: K)
      requires Valid()
      modifies this
      ensures Valid()
      ensures keyMap == CycleKeys(old(keyMap), key, size).0
      ensures var eldest := CycleKeys(old(keyMap), key, size).1;
        delegate == (if eldest.Some? then old(delegate) - {eldest.value} else old(delegate))
      ensures size == old(size)
    {
      CycleKeysSpec(keyMap, key, size);
      var (keys, eldest) := CycleKeys(keyMap, key, size);
      keyMap := keys;
      eldestKey := eldest;
      if eldestKey.Some? {
        delegate := delegate - {eldestKey.value};
        eldestKey := None;
      }
    }

    /** `getObject`: touch the key in the tracker (only if tracked), then read the decorated cache. */
    method GetObject(key: K) returns (v: Option<V>)
      requires Valid()
      modifies this
      ensures Valid()
      ensures keyMap == (if key in old(keyMap) then Touch(old(keyMap), key) else old(keyMap))
      ensures v == (if key in delegate then Some(delegate[key]) else None)
      ensures delegate == old(delegate) && size == old(size)
    {
      TouchSpec(keyMap, key);
      if key in keyMap {
        keyMap := Touch(keyMap, key);
      }
      v := if key in delegate then Some(delegate[key]) else None;
    }

    /** `removeObject`: only the decorated cache; recency tracking is unchanged. */
    method RemoveObject(key: K) returns (v: Option<V>)
      modifies this
      ensures v == (if key in old(delegate) then Some(old(delegate)[key]) else None)
      ensures delegate == old(delegate) - {key}
      ensures keyMap == old(keyMap) && size == old(size) && eldestKey == old(eldestKey)
    {
      v := if key in delegate then Some(delegate[key]) else None;
      delegate := delegate - {key};
    }

    /** `clear`: both the decorated cache and the tracker. */
    method Clear()
      modifies this
      ensures delegate == map[] && keyMap == []
      ensures size == old(size) && eldestKey == old(eldestKey)
    {
      delegate := map[];
      keyMap := [];
    }
  }
}
