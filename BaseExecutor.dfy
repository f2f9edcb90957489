/**
 * The executor's session state: the first-level (local) cache with its execution placeholder, the
 * output-parameter cache, the nesting depth of queries and the queue of deferred loads. The
 * backing `doQuery`, `doUpdate` and `doFlushStatements` are collaborators whose result or
 * exception is a parameter; they, the transaction, `MetaObject` and the result extractor have
 * what is asked of them appended to an effect trace, and the transaction always succeeds.
 */
module BaseExecutor {
  import opened Wrappers
  import opened Values

  /** A cache key is the sequence of values passed to `CacheKey.update`, in order. */
  type CacheKey = seq<Value>

  datatype LocalCacheScope = SessionScope | StatementScope
  datatype StatementType = Statement | Prepared | Callable
  datatype MappedStatement = MappedStatement(id: string, flushCacheRequired: bool, statementType: StatementType)
  datatype RowBounds = RowBounds(offset: int, limit: int)
  datatype ParameterMode = In | Out | InOut
  datatype ParameterMapping = ParameterMapping(property: string, mode: ParameterMode)
  datatype BoundSql = BoundSql(sql: string, parameterMappings: seq<ParameterMapping>, additionalParameters: map<string, Value>)

  /** What the local cache holds for a key: the placeholder while its query runs, then the list. */
  datatype LocalEntry = ExecutionPlaceholder | Rows(list: seq<Value>)

  /** A load of a nested result into `resultObject.property`, waiting for `key` to be cached. */
  datatype DeferredLoad = DeferredLoad(resultObject: nat, property: string, key: CacheKey, targetType: string)

  datatype Effect =
    /** `resultObject.setValue(property, extractObjectFromList(list, targetType))`; `None` is a null list. */
    | SetProperty(resultObject: nat, property: string, targetType: string, list: Option<seq<Value>>)
    /** `metaParameter.setValue(property, metaCachedParameter.getValue(property))` */
    | CopyOutParameter(parameter: Value, property: string, cachedParameter: Value)
    | DoUpdate(statementId: string, parameter: Value)
    | DoFlushStatements(isRollback: bool)
    | TransactionCommit
    | TransactionRollback
    | TransactionClose

  datatype ExecutorError =
    | ExecutorClosed(message: string)
    /** The placeholder read where a list is expected (a `ClassCastException`). */
    | PlaceholderCast(key: CacheKey)
    /** The local cache is gone after `close` (a `NullPointerException`). */
    | NoLocalCache
    | DatabaseFailure(cause: string)

  const ClosedMessage: string := "Executor was closed."
  const CommitClosedMessage: string := "Cannot commit, transaction is already closed"

  // ---------------------------------------------------------------------------------------------
  // The cache key

  /** The value a parameter mapping contributes: an additional parameter, null, the parameter itself when it has a type handler, or its property. */
  function ParameterValue(m: ParameterMapping, parameterObject: Value, boundSql: BoundSql, hasTypeHandler: bool, metaValue: string -> Value): Value {
    if m.property in boundSql.additionalParameters then boundSql.additionalParameters[m.property]
    else if parameterObject == Null then Null
    else if hasTypeHandler then parameterObject
    else metaValue(m.property)
  }

  /** The mappings that are not OUT, in declaration order. */
  function NonOut(mappings: seq<ParameterMapping>): (r: seq<ParameterMapping>)
    ensures |r| <= |mappings|
    ensures forall i :: 0 <= i < |r| ==> r[i].mode != Out && r[i] in mappings
    ensures forall i :: 0 <= i < |mappings| && mappings[i].mode != Out ==> mappings[i] in r
  {
    if |mappings| == 0 then []
    else
      var rest := NonOut(mappings[..|mappings| - 1]);
      var m := mappings[|mappings| - 1];
      assert forall i :: 0 <= i < |mappings| - 1 ==> mappings[..|mappings| - 1][i] == mappings[i];
      if m.mode != Out then rest + [m] else rest
  }

  /** Filtering distributes over concatenation, so the kept mappings stay in declaration order. */
  lemma {:induction false} NonOutConcat(a: seq<ParameterMapping>, b: seq<ParameterMapping>)
    ensures NonOut(a + b) == NonOut(a) + NonOut(b)
    decreases |b|
  {
    if |b| == 0 {
      assert a + b == a;
    } else {
      var b' := b[..|b| - 1];
      assert (a + b)[..|a + b| - 1] == a + b';
      NonOutConcat(a, b');
    }
  }

  function ParameterValues(mappings: seq<ParameterMapping>, parameterObject: Value, boundSql: BoundSql, hasTypeHandler: bool, metaValue: string -> Value): seq<Value> {
    if |mappings| == 0 then []
    else
      var rest := ParameterValues(mappings[..|mappings| - 1], parameterObject, boundSql, hasTypeHandler, metaValue);
      var m := mappings[|mappings| - 1];
      if m.mode != Out then rest + [ParameterValue(m, parameterObject, boundSql, hasTypeHandler, metaValue)] else rest
  }

  /** One value per non-OUT mapping, in declaration order. */
  lemma {:induction false} ParameterValuesOfNonOut(mappings: seq<ParameterMapping>, parameterObject: Value, boundSql: BoundSql, hasTypeHandler: bool, metaValue: string -> Value)
    ensures var vs := ParameterValues(mappings, parameterObject, boundSql, hasTypeHandler, metaValue);
      var ms := NonOut(mappings);
      |vs| == |ms| &&
      forall j :: 0 <= j < |vs| ==> vs[j] == ParameterValue(ms[j], parameterObject, boundSql, hasTypeHandler, metaValue)
  {
    if |mappings| > 0 {
      ParameterValuesOfNonOut(mappings[..|mappings| - 1], parameterObject, boundSql, hasTypeHandler, metaValue);
    }
  }

  /** The components of the cache key, in the order `createCacheKey` adds them. */
  function CacheKeyOf(ms: MappedStatement, parameterObject: Value, rowBounds: RowBounds, boundSql: BoundSql, hasTypeHandler: bool, metaValue: string -> Value, environmentId: Option<string>): CacheKey {
    [Str(ms.id), Int(rowBounds.offset), Int(rowBounds.limit), Str(boundSql.sql)] +
    ParameterValues(boundSql.parameterMappings, parameterObject, boundSql, hasTypeHandler, metaValue) +
    (if environmentId.Some? then [Str(environmentId.value)] else [])
  }

  /** The loop of `createCacheKey` over the parameter mappings: one value appended per non-OUT mapping. */
  method UpdateWithParameters(cacheKey0: CacheKey, parameterObject: Value, boundSql: BoundSql, hasTypeHandler: bool,
                              metaValue: string -> Value)
    returns (cacheKey: CacheKey)
    ensures cacheKey == cacheKey0 + ParameterValues(boundSql.parameterMappings, parameterObject, boundSql, hasTypeHandler, metaValue)
  {
    cacheKey := cacheKey0;
    var mappings := boundSql.parameterMappings;
    var i := 0;
    while i < |mappings|
      invariant 0 <= i <= |mappings|
      invariant cacheKey == cacheKey0 + ParameterValues(mappings[..i], parameterObject, boundSql, hasTypeHandler, metaValue)
    {
      assert mappings[..i + 1][..i] == mappings[..i];
      var parameterMapping := mappings[i];
      if parameterMapping.mode != Out {
        var value;
        var propertyName := parameterMapping.property;
        if propertyName in boundSql.additionalParameters {
          value := boundSql.additionalParameters[propertyName];
        } else if parameterObject == Null {
          value := Null;
        } else if hasTypeHandler {
          value := parameterObject;
        } else {
          value := metaValue(propertyName);
        }
        assert value == ParameterValue(parameterMapping, parameterObject, boundSql, hasTypeHandler, metaValue);
        cacheKey := cacheKey + [value];
      }
      i := i + 1;
    }
    assert mappings[..i] == mappings;
  }

  /** Statement id, offset, limit, SQL, one value per non-OUT mapping, then the environment id if there is one. */
  lemma CacheKeyLayout(ms: MappedStatement, parameterObject: Value, rowBounds: RowBounds, boundSql: BoundSql, hasTypeHandler: bool, metaValue: string -> Value, environmentId: Option<string>)
    ensures var k := CacheKeyOf(ms, parameterObject, rowBounds, boundSql, hasTypeHandler, metaValue, environmentId);
      var params := NonOut(boundSql.parameterMappings);
      |k| == 4 + |params| + (if environmentId.Some? then 1 else 0) &&
      k[..4] == [Str(ms.id), Int(rowBounds.offset), Int(rowBounds.limit), Str(boundSql.sql)] &&
      (forall j :: 0 <= j < |params| ==>
        k[4 + j] == ParameterValue(params[j], parameterObject, boundSql, hasTypeHandler, metaValue)) &&
      (environmentId.Some? ==> k[|k| - 1] == Str(environmentId.value))
  {
    var k := CacheKeyOf(ms, parameterObject, rowBounds, boundSql, hasTypeHandler, metaValue, environmentId);
    var head: CacheKey := [Str(ms.id), Int(rowBounds.offset), Int(rowBounds.limit), Str(boundSql.sql)];
    var vs := ParameterValues(boundSql.parameterMappings, parameterObject, boundSql, hasTypeHandler, metaValue);
    var tail: CacheKey := if environmentId.Some? then [Str(environmentId.value)] else [];
    var params := NonOut(boundSql.parameterMappings);
    assert k == head + vs + tail;
    ParameterValuesOfNonOut(boundSql.parameterMappings, parameterObject, boundSql, hasTypeHandler, metaValue);
    ConcatParts(head, vs, tail);
    forall j | 0 <= j < |params|
      ensures k[4 + j] == ParameterValue(params[j], parameterObject, boundSql, hasTypeHandler, metaValue)
    {
      assert k[|head| + j] == vs[j];
    }
  }

  /** Where the parts of a three-part concatenation sit. */
  lemma ConcatParts<T>(head: seq<T>, middle: seq<T>, tail: seq<T>)
    ensures |head + middle + tail| == |head| + |middle| + |tail|
    ensures (head + middle + tail)[..|head|] == head
    ensures forall j :: 0 <= j < |middle| ==> (head + middle + tail)[|head| + j] == middle[j]
    ensures |tail| == 1 ==> (head + middle + tail)[|head + middle + tail| - 1] == tail[0]
  {
    assert (head + middle + tail)[..|head|] == head;
  }

  // ---------------------------------------------------------------------------------------------
  // The local cache and deferred loads

  /** `isCached`: the local cache holds something for the key, the placeholder included. */
  predicate IsCachedIn(cache: map<CacheKey, LocalEntry>, key: CacheKey) {
    key in cache
  }

  /** `DeferredLoad.canLoad`: the key holds a list, not the placeholder. */
  predicate CanLoad(cache: map<CacheKey, LocalEntry>, key: CacheKey) {
    key in cache && cache[key] != ExecutionPlaceholder
  }

  /** While a query for the key is in flight, it counts as cached but cannot be loaded. */
  lemma PlaceholderBlocksLoad(cache: map<CacheKey, LocalEntry>, key: CacheKey)
    requires key in cache && cache[key] == ExecutionPlaceholder
    ensures IsCachedIn(cache, key) && !CanLoad(cache, key)
  {
  }

  /** `load` does not fail: the key does not hold the placeholder (an absent key gives a null list). */
  predicate Loadable(cache: map<CacheKey, LocalEntry>, d: DeferredLoad) {
    !(d.key in cache && cache[d.key] == ExecutionPlaceholder)
  }

  /** What `load` does. */
  function LoadEffect(cache: map<CacheKey, LocalEntry>, d: DeferredLoad): Effect
    requires Loadable(cache, d)
  {
    SetProperty(d.resultObject, d.property, d.targetType, if d.key in cache then Some(cache[d.key].list) else None)
  }

  function LoadEffects(cache: map<CacheKey, LocalEntry>, q: seq<DeferredLoad>): (r: seq<Effect>)
    requires forall j :: 0 <= j < |q| ==> Loadable(cache, q[j])
    ensures |r| == |q|
  {
    if |q| == 0 then [] else LoadEffects(cache, q[..|q| - 1]) + [LoadEffect(cache, q[|q| - 1])]
  }

  /** The effects of the loads follow the queue, one for one. */
  lemma {:induction false} LoadEffectsInOrder(cache: map<CacheKey, LocalEntry>, q: seq<DeferredLoad>)
    requires forall j :: 0 <= j < |q| ==> Loadable(cache, q[j])
    ensures forall j :: 0 <= j < |q| ==> LoadEffects(cache, q)[j] == LoadEffect(cache, q[j])
  {
    if |q| > 0 {
      LoadEffectsInOrder(cache, q[..|q| - 1]);
    }
  }

  /** The index of the first load that fails, or the queue's length. */
  function FirstUnloadable(cache: map<CacheKey, LocalEntry>, q: seq<DeferredLoad>): (n: nat)
    ensures n <= |q|
    ensures forall j :: 0 <= j < n ==> Loadable(cache, q[j])
    ensures n < |q| ==> !Loadable(cache, q[n])
  {
    if |q| == 0 then 0
    else if !Loadable(cache, q[0]) then 0
    else 1 + FirstUnloadable(cache, q[1..])
  }

  /** That index is determined by where the loads stop. */
  lemma {:induction false} FirstUnloadableAt(cache: map<CacheKey, LocalEntry>, q: seq<DeferredLoad>, n: nat)
    requires n <= |q|
    requires forall j :: 0 <= j < n ==> Loadable(cache, q[j])
    requires n < |q| ==> !Loadable(cache, q[n])
    ensures FirstUnloadable(cache, q) == n
  {
    if n > 0 {
      FirstUnloadableAt(cache, q[1..], n - 1);
    }
  }

  /** The copies of OUT and INOUT parameters from a cached parameter object. */
  function OutputCopies(mappings: seq<ParameterMapping>, parameter: Value, cachedParameter: Value): seq<Effect> {
    if |mappings| == 0 then []
    else
      var rest := OutputCopies(mappings[..|mappings| - 1], parameter, cachedParameter);
      var m := mappings[|mappings| - 1];
      if m.mode != In then rest + [CopyOutParameter(parameter, m.property, cachedParameter)] else rest
  }

  /**
   * One copy per mapping that is not IN: every copy comes from such a mapping and every such
   * mapping has its copy (the order is OutputCopiesConcat's).
   */
  lemma {:induction false} OutputCopiesSpec(mappings: seq<ParameterMapping>, parameter: Value, cachedParameter: Value)
    ensures var r := OutputCopies(mappings, parameter, cachedParameter);
      |r| <= |mappings| &&
      (forall i :: 0 <= i < |r| ==> r[i].CopyOutParameter? && r[i].parameter == parameter && r[i].cachedParameter == cachedParameter) &&
      (forall i :: 0 <= i < |r| ==> exists j :: 0 <= j < |mappings| && mappings[j].mode != In && mappings[j].property == r[i].property) &&
      (forall j :: 0 <= j < |mappings| && mappings[j].mode != In ==>
        CopyOutParameter(parameter, mappings[j].property, cachedParameter) in r)
  {
    if |mappings| > 0 {
      var init := mappings[..|mappings| - 1];
      OutputCopiesSpec(init, parameter, cachedParameter);
      var rest := OutputCopies(init, parameter, cachedParameter);
      var r := OutputCopies(mappings, parameter, cachedParameter);
      forall i | 0 <= i < |r|
        ensures exists j :: 0 <= j < |mappings| && mappings[j].mode != In && mappings[j].property == r[i].property
      {
        if i < |rest| {
          var j :| 0 <= j < |init| && init[j].mode != In && init[j].property == rest[i].property;
          assert mappings[j] == init[j];
        } else {
          assert mappings[|mappings| - 1].property == r[i].property;
        }
      }
      forall j | 0 <= j < |mappings| && mappings[j].mode != In
        ensures CopyOutParameter(parameter, mappings[j].property, cachedParameter) in r
      {
        if j < |init| {
          assert init[j] == mappings[j];
        }
      }
    }
  }

  /** The copies of a concatenation are the copies of each part, one after the other: declaration order. */
  lemma {:induction false} OutputCopiesConcat(a: seq<ParameterMapping>, b: seq<ParameterMapping>, parameter: Value, cachedParameter: Value)
    ensures OutputCopies(a + b, parameter, cachedParameter) ==
      OutputCopies(a, parameter, cachedParameter) + OutputCopies(b, parameter, cachedParameter)
    decreases |b|
  {
    if |b| == 0 {
      assert a + b == a;
    } else {
      var b' := b[..|b| - 1];
      assert (a + b)[..|a + b| - 1] == a + b';
      OutputCopiesConcat(a, b', parameter, cachedParameter);
    }
  }

  /**
   * What `handleLocallyCachedOutputParameters` asks for: the output copies of a callable
   * statement whose parameter object was cached under the key, when a parameter is given.
   */
  function CachedOutputCopies(ms: MappedStatement, key: CacheKey, parameter: Value, boundSql: BoundSql,
                              outputCache: map<CacheKey, Value>): seq<Effect>
  {
    var cached := if key in outputCache then outputCache[key] else Null;
    if ms.statementType == Callable && cached != Null && parameter != Null
    then OutputCopies(boundSql.parameterMappings, parameter, cached) else []
  }

  class Executor {
    const localCacheScope: LocalCacheScope
    var closed: bool
    var hasTransaction: bool
    /** The number of queries in progress, the outermost included. */
    var queryStack: int
    var localCache: map<CacheKey, LocalEntry>
    var localOutputParameterCache: map<CacheKey, Value>
    var deferredLoads: seq<DeferredLoad>
    /** What was asked of the collaborators, oldest first. */
    var effects: seq<Effect>

    ghost predicate Valid()
      reads this
    {
      queryStack >= 0 &&
      (closed ==> localCache == map[] && localOutputParameterCache == map[] && deferredLoads == [] && !hasTransaction)
    }

    constructor (localCacheScope: LocalCacheScope)
      ensures Valid()
      ensures this.localCacheScope == localCacheScope && !closed && hasTransaction && queryStack == 0
      ensures localCache == map[] && localOutputParameterCache == map[] && deferredLoads == [] && effects == []
    {
      this.localCacheScope := localCacheScope;
      closed := false;
      hasTransaction := true;
      queryStack := 0;
      localCache := map[];
      localOutputParameterCache := map[];
      deferredLoads := [];
      effects := [];
    }

    /** `clearLocalCache`: both local caches are emptied (a closed executor has none). */
    method ClearLocalCache()
      requires Valid()
      modifies this
      ensures Valid()
      ensures localCache == map[] && localOutputParameterCache == map[]
      ensures closed == old(closed) && hasTransaction == old(hasTransaction) && queryStack == old(queryStack)
      ensures deferredLoads == old(deferredLoads) && effects == old(effects)
    {
      if !closed {
        localCache := map[];
        localOutputParameterCache := map[];
      }
    }

    /**
     * `update`: refused once closed; otherwise the local caches are cleared before `doUpdate`,
     * whose count or exception (`updated`) is passed on.
     */
    method Update(ms: MappedStatement, parameter: Value, updated: Result<int, string>) returns (r: Result<int, ExecutorError>)
      requires Valid()
      modifies this
      ensures Valid()
      ensures old(closed) ==>
        r == Failure(ExecutorClosed(ClosedMessage)) &&
        localCache == old(localCache) && effects == old(effects)
      ensures !old(closed) ==>
        r == (if updated.Success? then Success(updated.value) else Failure(DatabaseFailure(updated.error))) &&
        localCache == map[] && localOutputParameterCache == map[] &&
        effects == old(effects) + [DoUpdate(ms.id, parameter)]
      ensures closed == old(closed) && hasTransaction == old(hasTransaction) && queryStack == old(queryStack)
      ensures deferredLoads == old(deferredLoads)
    {
      if closed {
        return Failure(ExecutorClosed(ClosedMessage));
      }
      ClearLocalCache();
      effects := effects + [DoUpdate(ms.id, parameter)];
      if updated.Failure? {
        return Failure(DatabaseFailure(updated.error));
      }
      return Success(updated.value);
    }

    /**
     * `flushStatements(isRollBack)`: refused once closed; otherwise `doFlushStatements`, whose
     * results or exception (`flushed`) are passed on.
     */
    method FlushStatements<R>(isRollBack: bool, flushed: Result<R, string>) returns (r: Result<R, ExecutorError>)
      requires Valid()
      modifies this
      ensures Valid()
      ensures old(closed) ==> r == Failure(ExecutorClosed(ClosedMessage)) && effects == old(effects)
      ensures !old(closed) ==>
        r == (if flushed.Success? then Success(flushed.value) else Failure(DatabaseFailure(flushed.error))) &&
        effects == old(effects) + [DoFlushStatements(isRollBack)]
      ensures closed == old(closed) && hasTransaction == old(hasTransaction) && queryStack == old(queryStack)
      ensures localCache == old(localCache) && localOutputParameterCache == old(localOutputParameterCache)
      ensures deferredLoads == old(deferredLoads)
    {
      if closed {
        return Failure(ExecutorClosed(ClosedMessage));
      }
      effects := effects + [DoFlushStatements(isRollBack)];
      if flushed.Failure? {
        return Failure(DatabaseFailure(flushed.error));
      }
      return Success(flushed.value);
    }

    /**
     * `commit(required)`: refused once closed; clears the local caches and flushes; a failed
     * flush is passed on before the transaction is touched, otherwise it commits if required.
     */
    method Commit<R>(required: bool, flushed: Result<R, string>) returns (r: Outcome<ExecutorError>)
      requires Valid()
      modifies this
      ensures Valid()
      ensures old(closed) ==> r == Fail(ExecutorClosed(CommitClosedMessage)) && effects == old(effects)
      ensures !old(closed) ==>
        localCache == map[] && localOutputParameterCache == map[] &&
        (flushed.Failure? ==>
          r == Fail(DatabaseFailure(flushed.error)) && effects == old(effects) + [DoFlushStatements(false)]) &&
        (flushed.Success? ==>
          r.Pass? && effects == old(effects) + [DoFlushStatements(false)] + (if required then [TransactionCommit] else []))
      ensures closed == old(closed) && hasTransaction == old(hasTransaction) && queryStack == old(queryStack)
      ensures deferredLoads == old(deferredLoads)
    {
      if closed {
        return Fail(ExecutorClosed(CommitClosedMessage));
      }
      ClearLocalCache();
      var flushResult := FlushStatements(false, flushed);
      if flushResult.Failure? {
        return Fail(flushResult.error);
      }
      if required {
        effects := effects + [TransactionCommit];
      }
      return Pass;
    }

    /**
     * `rollback(required)`: nothing once closed; otherwise clears the local caches and discards
     * the batch, then rolls back if required even when that flush failed, whose failure is then
     * passed on.
     */
    method Rollback<R>(required: bool, flushed: Result<R, string>) returns (r: Outcome<ExecutorError>)
      requires Valid()
      modifies this
      ensures Valid()
      ensures old(closed) ==> r.Pass? && effects == old(effects)
      ensures !old(closed) ==>
        localCache == map[] && localOutputParameterCache == map[] &&
        r == (if flushed.Success? then Pass else Fail(DatabaseFailure(flushed.error))) &&
        effects == old(effects) + [DoFlushStatements(true)] + (if required then [TransactionRollback] else [])
      ensures closed == old(closed) && hasTransaction == old(hasTransaction) && queryStack == old(queryStack)
      ensures deferredLoads == old(deferredLoads)
    {
      r := Pass;
      if !closed {
        ClearLocalCache();
        var flushResult := FlushStatements(true, flushed);
        if required {
          effects := effects + [TransactionRollback];
        }
        if flushResult.Failure? {
          r := Fail(flushResult.error);
        }
      }
    }

    /**
     * `close(forceRollback)`: roll back, close the transaction if there is one, and drop all
     * session state; a failure of the rollback's flush is swallowed.
     */
    method Close<R>(forceRollback: bool, flushed: Result<R, string>)
      requires Valid()
      modifies this
      ensures Valid()
      ensures closed && !hasTransaction
      ensures localCache == map[] && localOutputParameterCache == map[] && deferredLoads == []
      ensures effects == old(effects) +
        (if !old(closed) then [DoFlushStatements(true)] + (if forceRollback then [TransactionRollback] else []) else []) +
        (if old(hasTransaction) then [TransactionClose] else [])
      ensures queryStack == old(queryStack)
    {
      var rolledBack := Rollback(forceRollback, flushed);
      if hasTransaction {
        effects := effects + [TransactionClose];
      }
      hasTransaction := false;
      deferredLoads := [];
      localCache := map[];
      localOutputParameterCache := map[];
      closed := true;
    }

    /** `isCached`: the local cache holds the key (even as the placeholder); a closed executor has no cache. */
    method IsCached(key: CacheKey) returns (r: Result<bool, ExecutorError>)
      ensures closed ==> r == Failure(NoLocalCache)
      ensures !closed ==> r == Success(IsCachedIn(localCache, key))
    {
      if closed {
        return Failure(NoLocalCache);
      }
      return Success(key in localCache);
    }

    /** `DeferredLoad.canLoad` for a load of `key` made by this executor. */
    method CanLoadKey(key: CacheKey) returns (b: bool)
      requires !closed
      ensures b <==> CanLoad(localCache, key)
      ensures b ==> key in localCache && localCache[key].Rows?
    {
      b := key in localCache && localCache[key] != ExecutionPlaceholder;
    }

    /** `deferLoad`: refused once closed; loads now if the key holds a list, otherwise queues exactly one load. */
    method DeferLoad(resultObject: nat, property: string, key: CacheKey, targetType: string) returns (r: Outcome<ExecutorError>)
      requires Valid()
      modifies this
      ensures Valid()
      ensures old(closed) ==>
        r == Fail(ExecutorClosed(ClosedMessage)) &&
        effects == old(effects) && deferredLoads == old(deferredLoads)
      ensures !old(closed) && CanLoad(localCache, key) ==>
        r.Pass? && deferredLoads == old(deferredLoads) &&
        effects == old(effects) + [SetProperty(resultObject, property, targetType, Some(localCache[key].list))]
      ensures !old(closed) && !CanLoad(localCache, key) ==>
        r.Pass? && effects == old(effects) &&
        deferredLoads == old(deferredLoads) + [DeferredLoad(resultObject, property, key, targetType)]
      ensures closed == old(closed) && hasTransaction == old(hasTransaction) && queryStack == old(queryStack)
      ensures localCache == old(localCache) && localOutputParameterCache == old(localOutputParameterCache)
    {
      if closed {
        return Fail(ExecutorClosed(ClosedMessage));
      }
      var deferredLoad := DeferredLoad(resultObject, property, key, targetType);
      var canLoad := CanLoadKey(key);
      if canLoad {
        effects := effects + [LoadEffect(localCache, deferredLoad)];
      } else {
        deferredLoads := deferredLoads + [deferredLoad];
      }
      return Pass;
    }

    /** `createCacheKey`: refused once closed; otherwise the components in their fixed order. */
    method CreateCacheKey(ms: MappedStatement, parameterObject: Value, rowBounds: RowBounds, boundSql: BoundSql,
                          hasTypeHandler: bool, metaValue: string -> Value, environmentId: Option<string>)
      returns (r: Result<CacheKey, ExecutorError>)
      ensures closed ==> r == Failure(ExecutorClosed(ClosedMessage))
      ensures !closed ==> r == Success(CacheKeyOf(ms, parameterObject, rowBounds, boundSql, hasTypeHandler, metaValue, environmentId))
    {
      if closed {
        return Failure(ExecutorClosed(ClosedMessage));
      }
      var cacheKey: CacheKey := [Str(ms.id), Int(rowBounds.offset), Int(rowBounds.limit), Str(boundSql.sql)];
      cacheKey := UpdateWithParameters(cacheKey, parameterObject, boundSql, hasTypeHandler, metaValue);
      if environmentId.Some? {
        cacheKey := cacheKey + [Str(environmentId.value)];
      }
      assert cacheKey == CacheKeyOf(ms, parameterObject, rowBounds, boundSql, hasTypeHandler, metaValue, environmentId);
      return Success(cacheKey);
    }

    /** `handleLocallyCachedOutputParameters`: for a callable statement with a cached parameter object, copy its OUT values. */
    method HandleLocallyCachedOutputParameters(ms: MappedStatement, key: CacheKey, parameter: Value, boundSql: BoundSql)
      modifies this
      ensures effects == old(effects) + CachedOutputCopies(ms, key, parameter, boundSql, old(localOutputParameterCache))
      ensures closed == old(closed) && hasTransaction == old(hasTransaction) && queryStack == old(queryStack)
      ensures localCache == old(localCache) && localOutputParameterCache == old(localOutputParameterCache)
      ensures deferredLoads == old(deferredLoads)
    {
      if ms.statementType == Callable {
        var cachedParameter := if key in localOutputParameterCache then localOutputParameterCache[key] else Null;
        if cachedParameter != Null && parameter != Null {
          var mappings := boundSql.parameterMappings;
          var i := 0;
          while i < |mappings|
            invariant 0 <= i <= |mappings|
            invariant effects == old(effects) + OutputCopies(mappings[..i], parameter, cachedParameter)
            invariant localCache == old(localCache) && localOutputParameterCache == old(localOutputParameterCache)
            invariant closed == old(closed) && hasTransaction == old(hasTransaction) && queryStack == old(queryStack)
            invariant deferredLoads == old(deferredLoads)
          {
            assert mappings[..i + 1][..i] == mappings[..i];
            if mappings[i].mode != In {
              effects := effects + [CopyOutParameter(parameter, mappings[i].property, cachedParameter)];
            }
            i := i + 1;
          }
          assert mappings[..i] == mappings;
        }
      }
    }

    /** The loop over `deferredLoads`: each is loaded in queue order; a load that reads the placeholder throws and stops the rest. */
    method LoadDeferred() returns (r: Outcome<ExecutorError>)
      modifies this
      ensures var n := FirstUnloadable(localCache, deferredLoads);
        effects == old(effects) + LoadEffects(localCache, deferredLoads[..n]) &&
        (r.Pass? <==> n == |deferredLoads|) &&
        (r.Fail? ==> r.error == PlaceholderCast(deferredLoads[n].key))
      ensures closed == old(closed) && hasTransaction == old(hasTransaction) && queryStack == old(queryStack)
      ensures localCache == old(localCache) && localOutputParameterCache == old(localOutputParameterCache)
      ensures deferredLoads == old(deferredLoads)
    {
      var i := 0;
      while i < |deferredLoads|
        invariant 0 <= i <= |deferredLoads|
        invariant forall j :: 0 <= j < i ==> Loadable(localCache, deferredLoads[j])
        invariant effects == old(effects) + LoadEffects(localCache, deferredLoads[..i])
        invariant closed == old(closed) && hasTransaction == old(hasTransaction) && queryStack == old(queryStack)
        invariant localCache == old(localCache) && localOutputParameterCache == old(localOutputParameterCache)
        invariant deferredLoads == old(deferredLoads)
      {
        var deferredLoad := deferredLoads[i];
        if !Loadable(localCache, deferredLoad) {
          FirstUnloadableAt(localCache, deferredLoads, i);
          return Fail(PlaceholderCast(deferredLoad.key));
        }
        assert deferredLoads[..i + 1][..i] == deferredLoads[..i];
        effects := effects + [LoadEffect(localCache, deferredLoad)];
        i := i + 1;
      }
      FirstUnloadableAt(localCache, deferredLoads, i);
      assert deferredLoads[..i] == deferredLoads;
      r := Pass;
    }

    /**
     * The start of `query` with a key: refused once closed; the outermost query of a statement
     * with flushCache set empties the local caches; the depth grows; then the local cache is
     * consulted unless a result handler is given. Reading the placeholder throws, and the depth
     * is restored on the way out.
     */
    method QueryEnter(ms: MappedStatement, key: CacheKey, hasResultHandler: bool) returns (r: Result<Option<seq<Value>>, ExecutorError>)
      requires Valid()
      modifies this
      ensures Valid()
      ensures old(closed) ==>
        r == Failure(ExecutorClosed(ClosedMessage)) &&
        localCache == old(localCache) && queryStack == old(queryStack)
      ensures !old(closed) ==>
        var flush := old(queryStack) == 0 && ms.flushCacheRequired;
        var cache := if flush then map[] else old(localCache);
        localCache == cache &&
        localOutputParameterCache == (if flush then map[] else old(localOutputParameterCache)) &&
        (if !hasResultHandler && key in cache && cache[key] == ExecutionPlaceholder
         then r == Failure(PlaceholderCast(key)) && queryStack == old(queryStack)
         else (r == Success(if !hasResultHandler && key in cache then Some(cache[key].list) else None) &&
               queryStack == old(queryStack) + 1))
      ensures closed == old(closed) && hasTransaction == old(hasTransaction)
      ensures deferredLoads == old(deferredLoads) && effects == old(effects)
    {
      if closed {
        return Failure(ExecutorClosed(ClosedMessage));
      }
      if queryStack == 0 && ms.flushCacheRequired {
        ClearLocalCache();
      }
      queryStack := queryStack + 1;
      if !hasResultHandler && key in localCache {
        if localCache[key] == ExecutionPlaceholder {
          queryStack := queryStack - 1;
          return Failure(PlaceholderCast(key));
        }
        return Success(Some(localCache[key].list));
      }
      return Success(None);
    }

    /** The start of `queryFromDatabase`: the key holds the placeholder while `doQuery` runs. */
    method QueryFromDatabaseBegin(key: CacheKey)
      requires Valid() && !closed
      modifies this
      ensures Valid()
      ensures localCache == old(localCache)[key := ExecutionPlaceholder]
      ensures IsCachedIn(localCache, key) && !CanLoad(localCache, key)
      ensures closed == old(closed) && hasTransaction == old(hasTransaction) && queryStack == old(queryStack)
      ensures localOutputParameterCache == old(localOutputParameterCache)
      ensures deferredLoads == old(deferredLoads) && effects == old(effects)
    {
      localCache := localCache[key := ExecutionPlaceholder];
    }

    /**
     * The end of `queryFromDatabase`: the placeholder is removed whatever `doQuery` did; its list
     * is then cached, and for a callable statement the parameter object too.
     */
    method QueryFromDatabaseEnd(ms: MappedStatement, key: CacheKey, parameter: Value, database: Result<seq<Value>, string>)
      returns (r: Result<seq<Value>, ExecutorError>)
      requires Valid() && !closed
      modifies this
      ensures Valid()
      ensures database.Failure? ==>
        r == Failure(DatabaseFailure(database.error)) &&
        localCache == old(localCache) - {key} && localOutputParameterCache == old(localOutputParameterCache)
      ensures database.Success? ==>
        r == Success(database.value) &&
        localCache == old(localCache)[key := Rows(database.value)] &&
        localOutputParameterCache ==
          (if ms.statementType == Callable then old(localOutputParameterCache)[key := parameter] else old(localOutputParameterCache))
      ensures closed == old(closed) && hasTransaction == old(hasTransaction) && queryStack == old(queryStack)
      ensures deferredLoads == old(deferredLoads) && effects == old(effects)
    {
      localCache := localCache - {key};
      if database.Failure? {
        return Failure(DatabaseFailure(database.error));
      }
      var list := database.value;
      localCache := localCache[key := Rows(list)];
      if ms.statementType == Callable {
        localOutputParameterCache := localOutputParameterCache[key := parameter];
      }
      return Success(list);
    }

    /**
     * The end of `query`: the depth shrinks whether or not the query completed; only a completed
     * outermost query then loads every deferred load in queue order, empties the queue and, under
     * STATEMENT scope, the local caches. A load that fails leaves the queue as it was.
     */
    method QueryLeave(completed: bool) returns (r: Outcome<ExecutorError>)
      requires Valid() && !closed && queryStack >= 1
      modifies this
      ensures Valid()
      ensures queryStack == old(queryStack) - 1
      ensures !completed || queryStack != 0 ==>
        r.Pass? &&
        localCache == old(localCache) && localOutputParameterCache == old(localOutputParameterCache) &&
        deferredLoads == old(deferredLoads) && effects == old(effects)
      ensures completed && queryStack == 0 ==>
        var n := FirstUnloadable(old(localCache), old(deferredLoads));
        effects == old(effects) + LoadEffects(old(localCache), old(deferredLoads)[..n]) &&
        (r.Pass? <==> n == |old(deferredLoads)|) &&
        (r.Fail? ==> r.error == PlaceholderCast(old(deferredLoads)[n].key)) &&
        (r.Pass? ==>
          deferredLoads == [] &&
          localCache == (if localCacheScope == StatementScope then map[] else old(localCache)) &&
          localOutputParameterCache == (if localCacheScope == StatementScope then map[] else old(localOutputParameterCache))) &&
        (r.Fail? ==>
          deferredLoads == old(deferredLoads) &&
          localCache == old(localCache) && localOutputParameterCache == old(localOutputParameterCache))
      ensures closed == old(closed) && hasTransaction == old(hasTransaction)
    {
      queryStack := queryStack - 1;
      r := Pass;
      if completed && queryStack == 0 {
        r := LoadDeferred();
        if r.Fail? {
          return;
        }
        deferredLoads := [];
        if localCacheScope == StatementScope {
          ClearLocalCache();
        }
      }
    }

    /**
     * `query` with a key, when `doQuery` runs no nested query: its outcome is `database`. The
     * depth after the call equals the depth before it, whether the query succeeds or throws.
     */
    method Query(ms: MappedStatement, parameter: Value, key: CacheKey, hasResultHandler: bool, boundSql: BoundSql,
                 database: Result<seq<Value>, string>)
      returns (r: Result<seq<Value>, ExecutorError>)
      requires Valid()
      modifies this
      ensures Valid()
      ensures old(closed) ==>
        r == Failure(ExecutorClosed(ClosedMessage)) &&
        localCache == old(localCache) && localOutputParameterCache == old(localOutputParameterCache) &&
        effects == old(effects) && deferredLoads == old(deferredLoads)
      ensures queryStack == old(queryStack) && closed == old(closed) && hasTransaction == old(hasTransaction)
      ensures !old(closed) ==>
        var flush := old(queryStack) == 0 && ms.flushCacheRequired;
        var cache := if flush then map[] else old(localCache);
        var outputs := if flush then map[] else old(localOutputParameterCache);
        var lookup := !hasResultHandler && key in cache;
        (lookup && cache[key] == ExecutionPlaceholder ==>
          r == Failure(PlaceholderCast(key)) && localCache == cache && localOutputParameterCache == outputs &&
          effects == old(effects) && deferredLoads == old(deferredLoads)) &&
        (!lookup && database.Failure? ==>
          r == Failure(DatabaseFailure(database.error)) && localCache == cache - {key} &&
          localOutputParameterCache == outputs &&
          effects == old(effects) && deferredLoads == old(deferredLoads)) &&
        (!lookup && database.Success? ==>
          var filled := cache[key := Rows(database.value)];
          var filledOutputs := if ms.statementType == Callable then outputs[key := parameter] else outputs;
          (old(queryStack) > 0 ==>
            r == Success(database.value) && localCache == filled && localOutputParameterCache == filledOutputs &&
            effects == old(effects) && deferredLoads == old(deferredLoads)) &&
          (old(queryStack) == 0 ==>
            var n := FirstUnloadable(filled, old(deferredLoads));
            effects == old(effects) + LoadEffects(filled, old(deferredLoads)[..n]) &&
            (r.Success? <==> n == |old(deferredLoads)|) &&
            (r.Failure? ==>
              r.error == PlaceholderCast(old(deferredLoads)[n].key) && deferredLoads == old(deferredLoads) &&
              localCache == filled && localOutputParameterCache == filledOutputs) &&
            (r.Success? ==>
              r.value == database.value && deferredLoads == [] &&
              localCache == (if localCacheScope == StatementScope then map[] else filled) &&
              localOutputParameterCache == (if localCacheScope == StatementScope then map[] else filledOutputs)))) &&
        (lookup && cache[key] != ExecutionPlaceholder && old(queryStack) > 0 ==>
          r == Success(cache[key].list) && localCache == cache && localOutputParameterCache == outputs &&
          deferredLoads == old(deferredLoads) &&
          effects == old(effects) + CachedOutputCopies(ms, key, parameter, boundSql, outputs)) &&
        (lookup && cache[key] != ExecutionPlaceholder && old(queryStack) == 0 ==>
          var n := FirstUnloadable(cache, old(deferredLoads));
          effects == old(effects) + CachedOutputCopies(ms, key, parameter, boundSql, outputs) +
            LoadEffects(cache, old(deferredLoads)[..n]) &&
          (r.Success? <==> n == |old(deferredLoads)|) &&
          (r.Failure? ==>
            r.error == PlaceholderCast(old(deferredLoads)[n].key) && deferredLoads == old(deferredLoads) &&
            localCache == cache && localOutputParameterCache == outputs) &&
          (r.Success? ==>
            r.value == cache[key].list && deferredLoads == [] &&
            localCache == (if localCacheScope == StatementScope then map[] else cache) &&
            localOutputParameterCache == (if localCacheScope == StatementScope then map[] else outputs)))
    {
      var entered := QueryEnter(ms, key, hasResultHandler);
      if entered.Failure? {
        return Failure(entered.error);
      }
      var list;
      if entered.value.Some? {
        list := entered.value.value;
        HandleLocallyCachedOutputParameters(ms, key, parameter, boundSql);
      } else {
        ghost var cache := localCache;
        ghost var outputs := localOutputParameterCache;
        QueryFromDatabaseBegin(key);
        var fromDatabase := QueryFromDatabaseEnd(ms, key, parameter, database);
        if database.Success? {
          assert localCache == cache[key := Rows(database.value)];
          assert localOutputParameterCache ==
            if ms.statementType == Callable then outputs[key := parameter] else outputs;
        } else {
          assert localCache == cache - {key} && localOutputParameterCache == outputs;
        }
        if fromDatabase.Failure? {
          var left := QueryLeave(false);
          return Failure(fromDatabase.error);
        }
        list := fromDatabase.value;
      }
      var left := QueryLeave(true);
      if left.Fail? {
        return Failure(left.error);
      }
      return Success(list);
    }
  }
}
