/**
 * The second-level cache's transactional buffer. Adds are staged until commit; keys that missed
 * the cache are remembered so that commit or rollback makes one delegate call per such key (a
 * blocking delegate releases its per-key lock on that call). The delegate is a map whose values
 * may be null (`None`); every call made on it is also appended to a trace.
 */
module TransactionalCache {
  import opened Wrappers

  datatype DelegateCall<K, V> =
    | PutCall(key: K, value: Option<V>)
    | RemoveCall(key: K)
    | ClearCall

  /** `delegate.getObject(key)`: null for an absent key or a stored null. */
  function Lookup<K, V>(delegate: map<K, Option<V>>, key: K): Option<V> {
    if key in delegate then delegate[key] else None
  }

  /** The keys the calls of a trace are about. */
  function CallKeys<K, V>(t: seq<DelegateCall<K, V>>): set<K> {
    set i | 0 <= i < |t| && !t[i].ClearCall? :: t[i].key
  }

  predicate DistinctKeys<K(==), V>(t: seq<DelegateCall<K, V>>) {
    forall i, j :: 0 <= i < j < |t| && !t[i].ClearCall? && !t[j].ClearCall? ==> t[i].key != t[j].key
  }

  /** The trace writes the entry of `m` for each key of `keys` exactly once, in some order, and nothing else. */
  predicate PutsOf<K(==), V(==)>(t: seq<DelegateCall<K, V>>, m: map<K, Option<V>>, keys: set<K>) {
    (forall i :: 0 <= i < |t| ==> t[i].PutCall? && t[i].key in m && t[i].value == m[t[i].key]) &&
    DistinctKeys(t) && CallKeys(t) == keys
  }

  /** The trace writes every entry of `m` exactly once, in some order, and nothing else. */
  predicate PutsExactly<K(==), V(==)>(t: seq<DelegateCall<K, V>>, m: map<K, Option<V>>) {
    PutsOf(t, m, m.Keys)
  }

  /** The entries of `m` whose keys are in `s`. */
  function Restrict<K, V>(m: map<K, V>, s: set<K>): map<K, V> {
    map k | k in s && k in m :: m[k]
  }

  lemma RestrictAll<K, V>(m: map<K, V>)
    ensures Restrict(m, m.Keys) == m
  {
  }

  lemma UnionUpdate<K, V>(d: map<K, V>, r: map<K, V>, k: K, v: V)
    ensures (d + r)[k := v] == d + r[k := v]
  {
  }

  /** The trace removes every key of `s` exactly once, in some order, and nothing else. */
  predicate RemovesExactly<K(==), V>(t: seq<DelegateCall<K, V>>, s: set<K>) {
    (forall i :: 0 <= i < |t| ==> t[i].RemoveCall?) && DistinctKeys(t) && CallKeys(t) == s
  }

  /** A null for each missed key that was not staged. */
  function NullFill<K, V>(missed: set<K>, staged: map<K, Option<V>>): map<K, Option<V>> {
    map k | k in missed && k !in staged :: None
  }

  /** The delegate after `commit`: cleared if asked, then the staged entries, then the nulls. */
  function Committed<K, V>(delegate: map<K, Option<V>>, clearOnCommit: bool, staged: map<K, Option<V>>, missed: set<K>): map<K, Option<V>> {
    (if clearOnCommit then map[] else delegate) + staged + NullFill(missed, staged)
  }

  /** What a read of the delegate sees after commit. */
  lemma CommittedLookup<K, V>(delegate: map<K, Option<V>>, clearOnCommit: bool, staged: map<K, Option<V>>, missed: set<K>, key: K)
    ensures var d := Committed(delegate, clearOnCommit, staged, missed);
      (key in d <==> key in staged || key in missed || (!clearOnCommit && key in delegate)) &&
      Lookup(d, key) ==
        (if key in staged then staged[key]
         else if key in missed || clearOnCommit then None
         else Lookup(delegate, key))
  {
  }

  lemma CallKeysConcat<K, V>(t1: seq<DelegateCall<K, V>>, t2: seq<DelegateCall<K, V>>)
    ensures CallKeys(t1 + t2) == CallKeys(t1) + CallKeys(t2)
  {
    var t := t1 + t2;
    forall k | k in CallKeys(t1) + CallKeys(t2)
      ensures k in CallKeys(t)
    {
      if k in CallKeys(t1) {
        var i :| 0 <= i < |t1| && !t1[i].ClearCall? && t1[i].key == k;
        assert t[i] == t1[i];
      } else {
        var i :| 0 <= i < |t2| && !t2[i].ClearCall? && t2[i].key == k;
        assert t[|t1| + i] == t2[i];
      }
    }
  }

  lemma CallKeysSingle<K, V>(c: DelegateCall<K, V>)
    requires !c.ClearCall?
    ensures CallKeys([c]) == {c.key}
  {
    assert [c][0] == c;
  }

  /** Appending the write of one more key keeps a trace a listing of the keys written so far. */
  lemma PutsOfStep<K, V>(t: seq<DelegateCall<K, V>>, m: map<K, Option<V>>, keys: set<K>, k: K)
    requires PutsOf(t, m, keys) && k in m && k !in keys
    ensures PutsOf(t + [PutCall(k, m[k])], m, keys + {k})
    ensures Restrict(m, keys + {k}) == Restrict(m, keys)[k := m[k]]
  {
    var c := PutCall(k, m[k]);
    CallKeysConcat(t, [c]);
    CallKeysSingle(c);
    var t' := t + [c];
    forall i | 0 <= i < |t'|
      ensures t'[i].PutCall? && t'[i].key in m && t'[i].value == m[t'[i].key]
    {
      if i < |t| {
        assert t'[i] == t[i];
      }
    }
    forall i, j | 0 <= i < j < |t'|
      ensures t'[i].key != t'[j].key
    {
      assert t'[i] == t[i];
      if j == |t| {
        assert t[i].key in CallKeys(t);
      } else {
        assert t'[j] == t[j];
      }
    }
  }

  /** Appending the removal of one more key keeps a trace a listing of the keys removed so far. */
  lemma RemovesStep<K, V>(t: seq<DelegateCall<K, V>>, keys: set<K>, k: K)
    requires RemovesExactly(t, keys) && k !in keys
    ensures RemovesExactly(t + [RemoveCall(k)], keys + {k})
  {
    var c: DelegateCall<K, V> := RemoveCall(k);
    CallKeysConcat(t, [c]);
    CallKeysSingle(c);
    var t' := t + [c];
    forall i | 0 <= i < |t'|
      ensures t'[i].RemoveCall?
    {
      if i < |t| {
        assert t'[i] == t[i];
      }
    }
    forall i, j | 0 <= i < j < |t'|
      ensures t'[i].key != t'[j].key
    {
      assert t'[i] == t[i];
      if j == |t| {
        assert t[i].key in CallKeys(t);
      } else {
        assert t'[j] == t[j];
      }
    }
  }

  /** Commit makes exactly one delegate call for every missed key, so a blocked key is always released. */
  lemma CommitReleasesMissed<K, V>(t1: seq<DelegateCall<K, V>>, t2: seq<DelegateCall<K, V>>, staged: map<K, Option<V>>, missed: set<K>)
    requires PutsExactly(t1, staged) && PutsExactly(t2, NullFill(missed, staged))
    ensures missed <= CallKeys(t1 + t2)
    ensures forall i :: 0 <= i < |t1 + t2| ==> (t1 + t2)[i].PutCall?
    ensures DistinctKeys(t1 + t2)
  {
    CallKeysConcat(t1, t2);
    var t := t1 + t2;
    forall i, j | 0 <= i < j < |t|
      ensures t[i].key != t[j].key
    {
      if i < |t1| && j >= |t1| {
        assert t[i] == t1[i] && t[j] == t2[j - |t1|];
        assert t1[i].key in staged;
        assert t2[j - |t1|].key !in staged;
      } else if i >= |t1| {
        assert t[i] == t2[i - |t1|] && t[j] == t2[j - |t1|];
      } else {
        assert t[i] == t1[i] && t[j] == t1[j];
      }
    }
  }

  /** The loop of `flushPendingEntries`'s writes: one put per entry of `m`, in some order. */
  method PutEntries<K, V>(d0: map<K, Option<V>>, m: map<K, Option<V>>)
    returns (d: map<K, Option<V>>, t: seq<DelegateCall<K, V>>)
    ensures d == d0 + m && PutsExactly(t, m)
  {
    d := d0;
    t := [];
    var remaining := m.Keys;
    while remaining != {}
      invariant remaining <= m.Keys
      invariant d == d0 + Restrict(m, m.Keys - remaining)
      invariant PutsOf(t, m, m.Keys - remaining)
      decreases |remaining|
    {
      var k :| k in remaining;
      PutsOfStep(t, m, m.Keys - remaining, k);
      UnionUpdate(d0, Restrict(m, m.Keys - remaining), k, m[k]);
      assert m.Keys - remaining + {k} == m.Keys - (remaining - {k});
      d := d[k := m[k]];
      t := t + [PutCall(k, m[k])];
      remaining := remaining - {k};
    }
    assert m.Keys - remaining == m.Keys;
    RestrictAll(m);
  }

  /** The loop of `unlockMissedEntries`: one removal per missed key; a removal that throws changes nothing. */
  method RemoveEntries<K, V>(d0: map<K, Option<V>>, missed: set<K>, failing: set<K>)
    returns (d: map<K, Option<V>>, t: seq<DelegateCall<K, V>>)
    ensures d == d0 - (missed - failing) && RemovesExactly(t, missed)
  {
    d := d0;
    t := [];
    var remaining := missed;
    while remaining != {}
      invariant remaining <= missed
      invariant d == d0 - ((missed - remaining) - failing)
      invariant RemovesExactly(t, missed - remaining)
      decreases |remaining|
    {
      var k :| k in remaining;
      RemovesStep(t, missed - remaining, k);
      assert missed - remaining + {k} == missed - (remaining - {k});
      t := t + [RemoveCall(k)];
      if k !in failing {
        d := d - {k};
      }
      remaining := remaining - {k};
    }
    assert missed - remaining == missed;
  }

  class TransactionalCache<K(==), V(==)> {
    /** The second-level cache this buffer writes to. */
    var delegate: map<K, Option<V>>
    /** Every call made on the delegate, oldest first. */
    var calls: seq<DelegateCall<K, V>>
    var clearOnCommit: bool
    var entriesToAddOnCommit: map<K, Option<V>>
    var entriesMissedInCache: set<K>

    constructor (delegate: map<K, Option<V>>)
      ensures this.delegate == delegate && calls == []
      ensures !clearOnCommit && entriesToAddOnCommit == map[] && entriesMissedInCache == {}
    {
      this.delegate := delegate;
      calls := [];
      clearOnCommit := false;
      entriesToAddOnCommit := map[];
      entriesMissedInCache := {};
    }

    /** `getObject`: a miss is remembered; nothing is visible once a clear is pending. */
    method GetObject(key: K) returns (result: Option<V>)
      modifies this
      ensures entriesMissedInCache ==
        (if Lookup(old(delegate), key).None? then old(entriesMissedInCache) + {key} else old(entriesMissedInCache))
      ensures result == (if clearOnCommit then None else Lookup(delegate, key))
      ensures delegate == old(delegate) && calls == old(calls)
      ensures clearOnCommit == old(clearOnCommit) && entriesToAddOnCommit == old(entriesToAddOnCommit)
    {
      var value := Lookup(delegate, key);
      if value.None? {
        entriesMissedInCache := entriesMissedInCache + {key};
      }
      if clearOnCommit {
        result := None;
      } else {
        result := value;
      }
    }

    /** `putObject`: staged only; the delegate is untouched. */
    method PutObject(key: K, value: Option<V>)
      modifies this
      ensures entriesToAddOnCommit == old(entriesToAddOnCommit)[key := value]
      ensures delegate == old(delegate) && calls == old(calls)
      ensures clearOnCommit == old(clearOnCommit) && entriesMissedInCache == old(entriesMissedInCache)
    {
      entriesToAddOnCommit := entriesToAddOnCommit[key := value];
    }

    /** `removeObject`: ignored; always null. */
    method RemoveObject(key: K) returns (result: Option<V>)
      ensures result.None?
    {
      result := None;
    }

    /** `clear`: remember to clear the delegate at commit and drop the staged adds; the delegate is untouched. */
    method Clear()
      modifies this
      ensures clearOnCommit && entriesToAddOnCommit == map[]
      ensures delegate == old(delegate) && calls == old(calls) && entriesMissedInCache == old(entriesMissedInCache)
    {
      clearOnCommit := true;
      entriesToAddOnCommit := map[];
    }

    /** `commit`: clear the delegate if a clear is pending, publish the staged adds and the misses, reset. */
    method Commit()
      modifies this
      ensures delegate == Committed(old(delegate), old(clearOnCommit), old(entriesToAddOnCommit), old(entriesMissedInCache))
      ensures var start := if old(clearOnCommit) then old(calls) + [ClearCall] else old(calls);
        |start| <= |calls| && calls[..|start|] == start &&
        exists n ::
          (|start| <= n <= |calls| &&
           PutsExactly(calls[|start|..n], old(entriesToAddOnCommit)) &&
           PutsExactly(calls[n..], NullFill(old(entriesMissedInCache), old(entriesToAddOnCommit))))
      ensures !clearOnCommit && entriesToAddOnCommit == map[] && entriesMissedInCache == {}
    {
      if clearOnCommit {
        delegate := map[];
        calls := calls + [ClearCall];
      }
      FlushPendingEntries();
      Reset();
    }

    /** `rollback`: release every missed key on the delegate, then reset. */
    method Rollback(failing: set<K>)
      modifies this
      ensures delegate == old(delegate) - (old(entriesMissedInCache) - failing)
      ensures |old(calls)| <= |calls| && calls[..|old(calls)|] == old(calls) &&
        RemovesExactly(calls[|old(calls)|..], old(entriesMissedInCache))
      ensures !clearOnCommit && entriesToAddOnCommit == map[] && entriesMissedInCache == {}
    {
      UnlockMissedEntries(failing);
      Reset();
    }

    /** `reset` */
    method Reset()
      modifies this
      ensures !clearOnCommit && entriesToAddOnCommit == map[] && entriesMissedInCache == {}
      ensures delegate == old(delegate) && calls == old(calls)
    {
      clearOnCommit := false;
      entriesToAddOnCommit := map[];
      entriesMissedInCache := {};
    }

    /** `flushPendingEntries`: every staged entry, then a null for every missed key not staged. */
    method FlushPendingEntries()
      modifies this
      ensures delegate == old(delegate) + old(entriesToAddOnCommit) + NullFill(old(entriesMissedInCache), old(entriesToAddOnCommit))
      ensures |old(calls)| <= |calls| && calls[..|old(calls)|] == old(calls)
      ensures exists n ::
        (|old(calls)| <= n <= |calls| &&
         PutsExactly(calls[|old(calls)|..n], old(entriesToAddOnCommit)) &&
         PutsExactly(calls[n..], NullFill(old(entriesMissedInCache), old(entriesToAddOnCommit))))
      ensures clearOnCommit == old(clearOnCommit) && entriesToAddOnCommit == old(entriesToAddOnCommit)
      ensures entriesMissedInCache == old(entriesMissedInCache)
    {
      var t1 := PutAll(entriesToAddOnCommit);
      var nulls := NullFill(entriesMissedInCache, entriesToAddOnCommit);
      var t2 := PutAll(nulls);
      assert calls == old(calls) + t1 + t2;
      assert calls[|old(calls)|..|old(calls)| + |t1|] == t1;
      assert calls[|old(calls)| + |t1|..] == t2;
    }

    /** Write every entry of `m` to the delegate, one call each. */
    method PutAll(m: map<K, Option<V>>) returns (t: seq<DelegateCall<K, V>>)
      modifies this
      ensures delegate == old(delegate) + m
      ensures calls == old(calls) + t && PutsExactly(t, m)
      ensures clearOnCommit == old(clearOnCommit) && entriesToAddOnCommit == old(entriesToAddOnCommit)
      ensures entriesMissedInCache == old(entriesMissedInCache)
    {
      var d;
      d, t := PutEntries(delegate, m);
      delegate := d;
      calls := calls + t;
    }

    /** `unlockMissedEntries`: one removal per missed key; a key whose removal throws leaves the delegate as it was and the loop goes on. */
    method UnlockMissedEntries(failing: set<K>)
      modifies this
      ensures delegate == old(delegate) - (old(entriesMissedInCache) - failing)
      ensures |old(calls)| <= |calls| && calls[..|old(calls)|] == old(calls)
      ensures RemovesExactly(calls[|old(calls)|..], old(entriesMissedInCache))
      ensures clearOnCommit == old(clearOnCommit) && entriesToAddOnCommit == old(entriesToAddOnCommit)
      ensures entriesMissedInCache == old(entriesMissedInCache)
    {
      var d, t := RemoveEntries(delegate, entriesMissedInCache, failing);
      delegate := d;
      calls := calls + t;
      assert calls[|old(calls)|..] == t;
      assert calls[..|old(calls)|] == old(calls);
    }
  }
}
