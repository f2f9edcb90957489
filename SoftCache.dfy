/**
 * The soft-reference cache decorator. Each stored value sits in a SoftEntry (an entry of the
 * ledger `entries`, with its key and its referent); the garbage collector is the `Collect`
 * method, which clears an entry's referent and puts the entry on the reference queue. Recently
 * read values are kept strongly reachable by the hard-link deque, front first.
 */
module SoftCache {
  import opened Wrappers

  /** The number of hard links the decorator starts with. */
  const DefaultHardLinks: int := 256

  type EntryId = nat

  /** A SoftEntry: the key it was stored under and its referent, None once reclaimed. */
  datatype SoftEntry<K, V> = SoftEntry(key: K, referent: Option<V>)

  /** `addFirst(value)`, then `removeLast()` if the deque is over its bound. */
  function PushHardLink<V>(links: seq<V>, v: V, bound: int): seq<V> {
    var grown := [v] + links;
    if |grown| > bound then grown[..|grown| - 1] else grown
  }

  /** The pushed value is at the front, the others keep their order, and a size within bound stays within. */
  lemma PushHardLinkSpec<V>(links: seq<V>, v: V, bound: int)
    ensures var r := PushHardLink(links, v, bound);
      (|links| <= bound ==> |r| <= bound) &&
      (bound >= 1 ==> |r| >= 1 && r[0] == v) &&
      r == ([v] + links)[..|r|] &&
      (|links| + 1 > bound ==> |r| == |links|) &&
      (|links| + 1 <= bound ==> |r| == |links| + 1)
  {
  }

  /** The keys of the reclaimed entries on the queue. */
  function QueueKeys<K, V>(entries: map<EntryId, SoftEntry<K, V>>, queue: seq<EntryId>): set<K>
    requires forall i :: 0 <= i < |queue| ==> queue[i] in entries
  {
    set i | 0 <= i < |queue| :: entries[queue[i]].key
  }

  /** Every stored key names an entry made for that key. */
  ghost predicate StoreSound<K, V>(delegate: map<K, EntryId>, entries: map<EntryId, SoftEntry<K, V>>) {
    forall k :: k in delegate ==> delegate[k] in entries && entries[delegate[k]].key == k
  }

  /** Every queued entry is reclaimed, and is still the entry of its key if that key is stored. */
  ghost predicate QueueSound<K, V>(delegate: map<K, EntryId>, entries: map<EntryId, SoftEntry<K, V>>, queue: seq<EntryId>) {
    forall i :: 0 <= i < |queue| ==>
      queue[i] in entries && entries[queue[i]].referent.None? &&
      (entries[queue[i]].key in delegate ==> delegate[entries[queue[i]].key] == queue[i])
  }

  /** Draining the queue removes only keys whose entries were reclaimed. */
  lemma QueueKeysReclaimed<K, V>(delegate: map<K, EntryId>, entries: map<EntryId, SoftEntry<K, V>>, queue: seq<EntryId>)
    requires StoreSound(delegate, entries) && QueueSound(delegate, entries, queue)
    ensures forall k :: k in delegate && k in QueueKeys(entries, queue) ==> entries[delegate[k]].referent.None?
  {
    forall k | k in delegate && k in QueueKeys(entries, queue)
      ensures entries[delegate[k]].referent.None?
    {
      var i :| 0 <= i < |queue| && entries[queue[i]].key == k;
      assert delegate[k] == queue[i];
    }
  }

  class SoftCache<K(==), V(==)> {
    /** The decorated cache, holding entries. */
    var delegate: map<K, EntryId>
    /** Every SoftEntry made so far. */
    var entries: map<EntryId, SoftEntry<K, V>>
    var nextEntry: EntryId
    /** The reference queue: reclaimed entries not yet polled. */
    var queueOfGarbageCollectedEntries: seq<EntryId>
    var hardLinksToAvoidGarbageCollection: seq<V>
    var numberOfHardLinks: int

    ghost predicate Valid()
      reads this
    {
      StoreSound(delegate, entries) &&
      QueueSound(delegate, entries, queueOfGarbageCollectedEntries) &&
      (forall id :: id in entries ==> id < nextEntry)
    }

    constructor (delegate: map<K, EntryId>, entries: map<EntryId, SoftEntry<K, V>>, nextEntry: EntryId)
      requires StoreSound(delegate, entries)
      requires forall id :: id in entries ==> id < nextEntry
      ensures Valid()
      ensures this.delegate == delegate && this.entries == entries && this.nextEntry == nextEntry
      ensures numberOfHardLinks == DefaultHardLinks
      ensures hardLinksToAvoidGarbageCollection == [] && queueOfGarbageCollectedEntries == []
    {
      this.delegate := delegate;
      this.entries := entries;
      this.nextEntry := nextEntry;
      numberOfHardLinks := DefaultHardLinks;
      hardLinksToAvoidGarbageCollection := [];
      queueOfGarbageCollectedEntries := [];
    }

    /**
     * The garbage collector reclaims the entry stored under `key`: its referent must still be
     * set and must not be strongly reachable through the hard links. The entry is cleared and
     * enqueued. (An entry the decorated cache no longer holds is itself unreachable and is
     * never enqueued.)
     */
    method Collect(key: K)
      requires Valid()
      requires key in delegate && entries[delegate[key]].referent.Some?
      requires entries[delegate[key]].referent.value !in hardLinksToAvoidGarbageCollection
      modifies this
      ensures Valid()
      ensures var id := old(delegate)[key];
        entries == old(entries)[id := SoftEntry(key, None)] &&
        queueOfGarbageCollectedEntries == old(queueOfGarbageCollectedEntries) + [id]
      ensures delegate == old(delegate) && hardLinksToAvoidGarbageCollection == old(hardLinksToAvoidGarbageCollection)
      ensures nextEntry == old(nextEntry) && numberOfHardLinks == old(numberOfHardLinks)
    {
      var id := delegate[key];
      entries := entries[id := SoftEntry(key, None)];
      queueOfGarbageCollectedEntries := queueOfGarbageCollectedEntries + [id];
    }

    /** `removeGarbageCollectedItems`: poll every reclaimed entry and remove its key. */
    method RemoveGarbageCollectedItems()
      requires Valid()
      modifies this
      ensures Valid()
      ensures delegate == old(delegate) - QueueKeys(old(entries), old(queueOfGarbageCollectedEntries))
      ensures forall k :: k in old(delegate) && k !in delegate ==> old(entries)[old(delegate)[k]].referent.None?
      ensures queueOfGarbageCollectedEntries == []
      ensures entries == old(entries) && nextEntry == old(nextEntry)
      ensures hardLinksToAvoidGarbageCollection == old(hardLinksToAvoidGarbageCollection)
      ensures numberOfHardLinks == old(numberOfHardLinks)
    {
      QueueKeysReclaimed(delegate, entries, queueOfGarbageCollectedEntries);
      ghost var queue := queueOfGarbageCollectedEntries;
      ghost var polled := 0;
      while queueOfGarbageCollectedEntries != []
        invariant 0 <= polled <= |queue|
        invariant QueueSound(old(delegate), entries, queue)
        invariant queueOfGarbageCollectedEntries == queue[polled..]
        invariant delegate == old(delegate) - QueueKeys(entries, queue[..polled])
        invariant StoreSound(delegate, entries)
        invariant forall k :: k in delegate ==> k in old(delegate) && delegate[k] == old(delegate)[k]
        invariant entries == old(entries) && nextEntry == old(nextEntry)
        invariant hardLinksToAvoidGarbageCollection == old(hardLinksToAvoidGarbageCollection)
        invariant numberOfHardLinks == old(numberOfHardLinks)
        decreases |queueOfGarbageCollectedEntries|
      {
        var sv := queueOfGarbageCollectedEntries[0];
        queueOfGarbageCollectedEntries := queueOfGarbageCollectedEntries[1..];
        assert QueueKeys(entries, queue[..polled + 1]) == QueueKeys(entries, queue[..polled]) + {entries[sv].key} by {
          assert queue[..polled + 1] == queue[..polled] + [sv];
          assert forall i :: 0 <= i < polled ==> queue[..polled + 1][i] == queue[..polled][i];
        }
        delegate := delegate - {entries[sv].key};
        polled := polled + 1;
      }
      assert queue[..polled] == queue;
    }

    /** `getSize`: reclaimed keys are removed first. */
    method GetSize() returns (n: nat)
      requires Valid()
      modifies this
      ensures Valid()
      ensures delegate == old(delegate) - QueueKeys(old(entries), old(queueOfGarbageCollectedEntries))
      ensures queueOfGarbageCollectedEntries == [] && entries == old(entries)
      ensures hardLinksToAvoidGarbageCollection == old(hardLinksToAvoidGarbageCollection)
      ensures n == |delegate.Keys|
    {
      RemoveGarbageCollectedItems();
      n := |delegate.Keys|;
    }

    /** `setSize`: the hard-link bound. */
    method SetSize(size: int)
      modifies this
      ensures numberOfHardLinks == size
      ensures delegate == old(delegate) && entries == old(entries) && nextEntry == old(nextEntry)
      ensures queueOfGarbageCollectedEntries == old(queueOfGarbageCollectedEntries)
      ensures hardLinksToAvoidGarbageCollection == old(hardLinksToAvoidGarbageCollection)
    {
      numberOfHardLinks := size;
    }

    /**
     * `putObject`: remove reclaimed keys, then store the value in a new SoftEntry. A null value
     * (None) makes an entry whose referent is already absent, so it reads as reclaimed.
     */
    method PutObject(key: K, value: Option<V>)
      requires Valid()
      modifies this
      ensures Valid()
      ensures var id := old(nextEntry);
        entries == old(entries)[id := SoftEntry(key, value)] && nextEntry == id + 1 &&
        delegate == (old(delegate) - QueueKeys(old(entries), old(queueOfGarbageCollectedEntries)))[key := id]
      ensures queueOfGarbageCollectedEntries == []
      ensures hardLinksToAvoidGarbageCollection == old(hardLinksToAvoidGarbageCollection)
      ensures numberOfHardLinks == old(numberOfHardLinks)
    {
      RemoveGarbageCollectedItems();
      var id := nextEntry;
      nextEntry := nextEntry + 1;
      entries := entries[id := SoftEntry(key, value)];
      delegate := delegate[key := id];
    }

    /**
     * `getObject`: a reclaimed entry's key is removed and null returned; a live value is pushed
     * onto the hard links; an absent key changes nothing.
     */
    method GetObject(key: K) returns (result: Option<V>)
      requires Valid()
      modifies this
      ensures Valid()
      ensures key !in old(delegate) ==>
        result.None? && delegate == old(delegate) &&
        hardLinksToAvoidGarbageCollection == old(hardLinksToAvoidGarbageCollection)
      ensures key in old(delegate) && old(entries)[old(delegate)[key]].referent.None? ==>
        result.None? && delegate == old(delegate) - {key} &&
        hardLinksToAvoidGarbageCollection == old(hardLinksToAvoidGarbageCollection)
      ensures key in old(delegate) && old(entries)[old(delegate)[key]].referent.Some? ==>
        result == old(entries)[old(delegate)[key]].referent && delegate == old(delegate) &&
        hardLinksToAvoidGarbageCollection ==
          PushHardLink(old(hardLinksToAvoidGarbageCollection), result.value, numberOfHardLinks)
      ensures entries == old(entries) && nextEntry == old(nextEntry)
      ensures queueOfGarbageCollectedEntries == old(queueOfGarbageCollectedEntries)
      ensures numberOfHardLinks == old(numberOfHardLinks)
    {
      result := None;
      if key in delegate {
        var softReference := entries[delegate[key]];
        result := softReference.referent;
        if result.None? {
          delegate := delegate - {key};
        } else {
          hardLinksToAvoidGarbageCollection := [result.value] + hardLinksToAvoidGarbageCollection;
          if |hardLinksToAvoidGarbageCollection| > numberOfHardLinks {
            hardLinksToAvoidGarbageCollection :=
              hardLinksToAvoidGarbageCollection[..|hardLinksToAvoidGarbageCollection| - 1];
          }
        }
      }
    }

    /** `removeObject`: remove reclaimed keys, then the key; the removed SoftEntry is returned. */
    method RemoveObject(key: K) returns (removed: Option<EntryId>)
      requires Valid()
      modifies this
      ensures Valid()
      ensures var drained := old(delegate) - QueueKeys(old(entries), old(queueOfGarbageCollectedEntries));
        delegate == drained - {key} && removed == (if key in drained then Some(drained[key]) else None)
      ensures queueOfGarbageCollectedEntries == [] && entries == old(entries)
      ensures hardLinksToAvoidGarbageCollection == old(hardLinksToAvoidGarbageCollection)
    {
      RemoveGarbageCollectedItems();
      removed := if key in delegate then Some(delegate[key]) else None;
      delegate := delegate - {key};
    }

    /** `clear`: the hard links, the queue and the decorated cache are emptied. */
    method Clear()
      requires Valid()
      modifies this
      ensures Valid()
      ensures hardLinksToAvoidGarbageCollection == [] && queueOfGarbageCollectedEntries == [] && delegate == map[]
      ensures entries == old(entries) && numberOfHardLinks == old(numberOfHardLinks)
    {
      hardLinksToAvoidGarbageCollection := [];
      RemoveGarbageCollectedItems();
      delegate := map[];
    }
  }
}
