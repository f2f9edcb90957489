/**
 * The lookup and registration rules of the type handler registry. Java types map to jdbc-type
 * handler maps; those maps are shared objects (a subclass that inherits its superclass's
 * mapping holds the very same map), so the model keeps them in a store indexed by map
 * identity. Identity 0 is the static NULL sentinel map that marks a type known to have no
 * handler; `nextId` stands for allocating a fresh HashMap.
 */
module TypeHandlerRegistry {
  import opened Wrappers
  import opened JavaTypes

  datatype JdbcType = JdbcType(name: string)

  /** A handler instance: its class and an identity, or the EnumTypeHandler made for an enum. */
  datatype TypeHandler =
    | TypeHandler(handlerClass: string, instance: nat)
    | EnumTypeHandler(enumType: JavaClass)

  const EnumTypeHandlerClass: string := "org.apache.ibatis.type.EnumTypeHandler"

  /** `handler.getClass()` */
  function HandlerClass(h: TypeHandler): string {
    match h
    case TypeHandler(c, _) => c
    case EnumTypeHandler(_) => EnumTypeHandlerClass
  }

  /** A `java.lang.reflect.Type`: a class, or another type such as a parameterized one. */
  datatype JType = ClassType(cls: JavaClass) | OtherType(typeName: string)

  type MapId = nat
  type HandlerMap = map<Option<JdbcType>, TypeHandler>

  /** The identity of NULL_TYPE_HANDLER_MAP. */
  const NullMapId: MapId := 0

  /** The registry's state: JDBC_TYPE_HANDLER_MAP, TYPE_HANDLER_MAP over the map store, ALL_TYPE_HANDLERS_MAP. */
  datatype Registry = Registry(
    jdbcTypeHandlerMap: map<JdbcType, TypeHandler>,
    typeHandlerMap: map<JType, MapId>,
    store: map<MapId, HandlerMap>,
    allTypeHandlersMap: map<string, TypeHandler>,
    nextId: MapId)

  /** Every referenced map exists and fresh identities are really fresh. */
  predicate Sound(s: Registry) {
    NullMapId in s.store &&
    (forall t :: t in s.typeHandlerMap ==> s.typeHandlerMap[t] in s.store) &&
    (forall id :: id in s.store ==> id < s.nextId)
  }

  /** Sound, and the NULL sentinel is still empty. */
  predicate WellFormed(s: Registry) {
    Sound(s) && s.store[NullMapId] == map[]
  }

  /** A registry with no registrations. */
  const EmptyRegistry: Registry := Registry(map[], map[], map[NullMapId := map[]], map[], 1)

  // ---------------------------------------------------------------------------------------
  // Lookup

  /** `getJdbcHandlerMapForSuperclass`: the map of the nearest registered superclass below Object. */
  function SuperclassMap(typeHandlerMap: map<JType, MapId>, c: JavaClass): (r: Option<MapId>)
    ensures r.Some? ==> r.value in typeHandlerMap.Values
    decreases c
  {
    if c.superclass.None? || c.superclass.value == ObjectClass then None
    else if ClassType(c.superclass.value) in typeHandlerMap then Some(typeHandlerMap[ClassType(c.superclass.value)])
    else SuperclassMap(typeHandlerMap, c.superclass.value)
  }

  /** The superclasses the walk visits, nearest first: it stops at a missing superclass or at Object. */
  function SuperChain(c: JavaClass): seq<JavaClass>
    decreases c
  {
    if c.superclass.None? || c.superclass.value == ObjectClass then []
    else [c.superclass.value] + SuperChain(c.superclass.value)
  }

  predicate Registered(typeHandlerMap: map<JType, MapId>, c: JavaClass) {
    ClassType(c) in typeHandlerMap
  }

  /** The walk finds nothing exactly when no class on the chain is registered. */
  lemma {:induction false} SuperclassMapNone(typeHandlerMap: map<JType, MapId>, c: JavaClass)
    ensures SuperclassMap(typeHandlerMap, c).None? <==>
      forall k :: 0 <= k < |SuperChain(c)| ==> !Registered(typeHandlerMap, SuperChain(c)[k])
    decreases c
  {
    if !(c.superclass.None? || c.superclass.value == ObjectClass) {
      var sup := c.superclass.value;
      assert SuperChain(c) == [sup] + SuperChain(sup);
      if Registered(typeHandlerMap, sup) {
        assert SuperclassMap(typeHandlerMap, c).Some? && Registered(typeHandlerMap, SuperChain(c)[0]);
      } else {
        SuperclassMapNone(typeHandlerMap, sup);
        assert SuperclassMap(typeHandlerMap, c) == SuperclassMap(typeHandlerMap, sup);
        if SuperclassMap(typeHandlerMap, sup).None? {
          forall k | 0 <= k < |SuperChain(c)|
            ensures !Registered(typeHandlerMap, SuperChain(c)[k])
          {
            if k > 0 {
              assert SuperChain(c)[k] == SuperChain(sup)[k - 1];
            }
          }
        } else {
          var j :| 0 <= j < |SuperChain(sup)| && Registered(typeHandlerMap, SuperChain(sup)[j]);
          assert SuperChain(c)[j + 1] == SuperChain(sup)[j];
        }
      }
    }
  }

  /** A map the walk finds belongs to the first registered class on the chain. */
  lemma {:induction false} SuperclassMapFirst(typeHandlerMap: map<JType, MapId>, c: JavaClass)
    ensures SuperclassMap(typeHandlerMap, c).Some? ==>
      exists k :: 0 <= k < |SuperChain(c)| && Registered(typeHandlerMap, SuperChain(c)[k]) &&
        typeHandlerMap[ClassType(SuperChain(c)[k])] == SuperclassMap(typeHandlerMap, c).value &&
        forall i :: 0 <= i < k ==> !Registered(typeHandlerMap, SuperChain(c)[i])
    decreases c
  {
    if !(c.superclass.None? || c.superclass.value == ObjectClass) {
      var sup := c.superclass.value;
      var chain := SuperChain(c);
      var rest := SuperChain(sup);
      assert chain == [sup] + rest;
      assert chain[0] == sup;
      if Registered(typeHandlerMap, sup) {
        assert SuperclassMap(typeHandlerMap, c) == Some(typeHandlerMap[ClassType(chain[0])]);
      } else if SuperclassMap(typeHandlerMap, sup).Some? {
        SuperclassMapFirst(typeHandlerMap, sup);
        assert SuperclassMap(typeHandlerMap, c) == SuperclassMap(typeHandlerMap, sup);
        var k :| 0 <= k < |rest| && Registered(typeHandlerMap, rest[k]) &&
          typeHandlerMap[ClassType(rest[k])] == SuperclassMap(typeHandlerMap, sup).value &&
          forall i :: 0 <= i < k ==> !Registered(typeHandlerMap, rest[i]);
        assert chain[k + 1] == rest[k];
        forall i | 0 <= i < k + 1
          ensures !Registered(typeHandlerMap, chain[i])
        {
          if i > 0 {
            assert chain[i] == rest[i - 1];
          }
        }
      }
    }
  }

  /** The walk finds the map of the first registered class on the chain, and nothing if there is none. */
  lemma SuperclassMapNearest(typeHandlerMap: map<JType, MapId>, c: JavaClass)
    ensures var chain := SuperChain(c);
      SuperclassMap(typeHandlerMap, c).None? <==> forall k :: 0 <= k < |chain| ==> !Registered(typeHandlerMap, chain[k])
    ensures var chain := SuperChain(c);
      SuperclassMap(typeHandlerMap, c).Some? ==>
        exists k :: 0 <= k < |chain| && Registered(typeHandlerMap, chain[k]) &&
          typeHandlerMap[ClassType(chain[k])] == SuperclassMap(typeHandlerMap, c).value &&
          forall i :: 0 <= i < k ==> !Registered(typeHandlerMap, chain[i])
  {
    SuperclassMapNone(typeHandlerMap, c);
    SuperclassMapFirst(typeHandlerMap, c);
  }

  /** The map `getJdbcHandlerMap` returns, or None for null. */
  function JdbcHandlerMapOf(s: Registry, t: JType): (r: Option<MapId>)
    requires Sound(s)
  {
    if t in s.typeHandlerMap then
      // The sentinel test compares contents, not identity.
      if s.store[s.typeHandlerMap[t]] == s.store[NullMapId] then None else Some(s.typeHandlerMap[t])
    else if t.ClassType? && SuperclassMap(s.typeHandlerMap, t.cls).Some? then
      SuperclassMap(s.typeHandlerMap, t.cls)
    else if t.ClassType? && t.cls.isEnum then
      Some(s.nextId)
    else None
  }

  /** The registry after `getJdbcHandlerMap(t)`: the inherited map, a new enum handler, or the sentinel. */
  function AfterLookup(s: Registry, t: JType): (r: Registry)
    requires Sound(s)
    ensures Sound(r)
    ensures WellFormed(s) ==> WellFormed(r)
  {
    if t in s.typeHandlerMap then s
    else if t.ClassType? && SuperclassMap(s.typeHandlerMap, t.cls).Some? then
      s.(typeHandlerMap := s.typeHandlerMap[t := SuperclassMap(s.typeHandlerMap, t.cls).value])
    else if t.ClassType? && t.cls.isEnum then
      AfterRegister(s, Some(t), None, EnumTypeHandler(t.cls))
    else s.(typeHandlerMap := s.typeHandlerMap[t := NullMapId])
  }

  /** All handlers of a non-empty map have one class. */
  predicate SoleClass(m: HandlerMap) {
    m != map[] &&
    forall k1, k2 :: k1 in m && k2 in m ==> HandlerClass(m[k1]) == HandlerClass(m[k2])
  }

  /**
   * The choice in `getTypeHandler(Type, JdbcType)`: the exact jdbc type, else the null-jdbc entry,
   * else the sole handler if all share one class (which instance is the iteration order's choice).
   */
  predicate Resolves(m: HandlerMap, jdbcType: Option<JdbcType>, h: Option<TypeHandler>) {
    if jdbcType in m then h == Some(m[jdbcType])
    else if None in m then h == Some(m[None])
    else (h.Some? <==> SoleClass(m)) && (h.Some? ==> h.value in m.Values)
  }

  /** The lookup of (t, jdbcType) finds a handler. */
  predicate FindsHandler(s: Registry, t: JType, jdbcType: Option<JdbcType>)
    requires Sound(s)
  {
    var id := JdbcHandlerMapOf(s, t);
    var after := AfterLookup(s, t);
    id.Some? && id.value in after.store &&
    (jdbcType in after.store[id.value] || None in after.store[id.value] || SoleClass(after.store[id.value]))
  }

  /** The map the lookup returns is in the store afterwards. */
  lemma LookupMapExists(s: Registry, t: JType)
    requires Sound(s)
    ensures JdbcHandlerMapOf(s, t).Some? ==> JdbcHandlerMapOf(s, t).value in AfterLookup(s, t).store
  {
  }

  /** An unresolved lookup stores the NULL sentinel, and every later lookup of the type gives null. */
  lemma SentinelRemembered(s: Registry, t: JType)
    requires Sound(s)
    requires t !in s.typeHandlerMap && JdbcHandlerMapOf(s, t).None?
    ensures var after := AfterLookup(s, t);
      t in after.typeHandlerMap && after.typeHandlerMap[t] == NullMapId &&
      JdbcHandlerMapOf(after, t).None? && AfterLookup(after, t) == after
  {
  }

  /** A resolved lookup is stored for the type, so the next lookup returns the same map. */
  lemma LookupCached(s: Registry, t: JType)
    requires WellFormed(s)
    requires JdbcHandlerMapOf(s, t).Some?
    requires AfterLookup(s, t).store[JdbcHandlerMapOf(s, t).value] != map[]
    ensures var after := AfterLookup(s, t);
      JdbcHandlerMapOf(after, t) == JdbcHandlerMapOf(s, t) && AfterLookup(after, t) == after
  {
  }

  /** An unregistered class uses the map of its nearest registered superclass below Object. */
  lemma InheritsNearestSuperclass(s: Registry, c: JavaClass)
    requires Sound(s)
    requires ClassType(c) !in s.typeHandlerMap
    ensures var chain := SuperChain(c);
      (exists k :: 0 <= k < |chain| && Registered(s.typeHandlerMap, chain[k])) ==>
        exists k :: 0 <= k < |chain| && Registered(s.typeHandlerMap, chain[k]) &&
          (forall i :: 0 <= i < k ==> !Registered(s.typeHandlerMap, chain[i])) &&
          JdbcHandlerMapOf(s, ClassType(c)) == Some(s.typeHandlerMap[ClassType(chain[k])]) &&
          AfterLookup(s, ClassType(c)).typeHandlerMap[ClassType(c)] == s.typeHandlerMap[ClassType(chain[k])]
  {
    SuperclassMapNearest(s.typeHandlerMap, c);
  }

  // ---------------------------------------------------------------------------------------
  // Registration

  /**
   * `register(Type, JdbcType, TypeHandler)` with the sentinel excluded: a type without a map of
   * its own, or marked by the sentinel, gets a fresh map. Every registration records the handler
   * under its class.
   */
  function AfterRegister(s: Registry, javaType: Option<JType>, jdbcType: Option<JdbcType>, h: TypeHandler)
    : (r: Registry)
    requires Sound(s)
    ensures Sound(r)
    ensures WellFormed(s) ==> WellFormed(r)
    ensures HandlerClass(h) in r.allTypeHandlersMap && r.allTypeHandlersMap[HandlerClass(h)] == h
    ensures r.jdbcTypeHandlerMap == s.jdbcTypeHandlerMap
    ensures javaType.Some? ==> var t := javaType.value;
      t in r.typeHandlerMap && r.typeHandlerMap[t] != NullMapId &&
      jdbcType in r.store[r.typeHandlerMap[t]] && r.store[r.typeHandlerMap[t]][jdbcType] == h
    ensures javaType.None? ==> r.typeHandlerMap == s.typeHandlerMap && r.store == s.store
  {
    var all := s.allTypeHandlersMap[HandlerClass(h) := h];
    if javaType.None? then s.(allTypeHandlersMap := all)
    else
      var t := javaType.value;
      if t in s.typeHandlerMap && s.typeHandlerMap[t] != NullMapId then
        var id := s.typeHandlerMap[t];
        s.(store := s.store[id := s.store[id][jdbcType := h]], allTypeHandlersMap := all)
      else
        var id := s.nextId;
        s.(typeHandlerMap := s.typeHandlerMap[t := id], store := s.store[id := map[jdbcType := h]],
           nextId := s.nextId + 1, allTypeHandlersMap := all)
  }

  /** `register(Type, JdbcType, TypeHandler)` as written: a type marked by the sentinel writes into the sentinel. */
  function AfterRegisterAsWritten(s: Registry, javaType: Option<JType>, jdbcType: Option<JdbcType>, h: TypeHandler)
    : (r: Registry)
    requires Sound(s)
    ensures Sound(r)
    ensures HandlerClass(h) in r.allTypeHandlersMap && r.allTypeHandlersMap[HandlerClass(h)] == h
  {
    var all := s.allTypeHandlersMap[HandlerClass(h) := h];
    if javaType.None? then s.(allTypeHandlersMap := all)
    else
      var t := javaType.value;
      if t in s.typeHandlerMap then
        var id := s.typeHandlerMap[t];
        s.(store := s.store[id := s.store[id][jdbcType := h]], allTypeHandlersMap := all)
      else
        var id := s.nextId;
        s.(typeHandlerMap := s.typeHandlerMap[t := id], store := s.store[id := map[jdbcType := h]],
           nextId := s.nextId + 1, allTypeHandlersMap := all)
  }

  /** After registering (t, jdbcType, h), the lookup of (t, jdbcType) finds exactly h. */
  lemma RegisterThenLookup(s: Registry, t: JType, jdbcType: Option<JdbcType>, h: TypeHandler)
    requires WellFormed(s)
    ensures var r := AfterRegister(s, Some(t), jdbcType, h);
      JdbcHandlerMapOf(r, t) == Some(r.typeHandlerMap[t]) && AfterLookup(r, t) == r &&
      FindsHandler(r, t, jdbcType) &&
      forall found :: Resolves(r.store[r.typeHandlerMap[t]], jdbcType, found) ==> found == Some(h)
  {
    var r := AfterRegister(s, Some(t), jdbcType, h);
    assert jdbcType in r.store[r.typeHandlerMap[t]];
    assert r.store[r.typeHandlerMap[t]] != r.store[NullMapId];
  }

  /** `@MappedJdbcTypes`: the listed jdbc types and whether the null jdbc type is included. */
  datatype MappedJdbcTypes = MappedJdbcTypes(value: seq<JdbcType>, includeNullJdbcType: bool)

  function SomeAll(js: seq<JdbcType>): (r: seq<Option<JdbcType>>)
    ensures |r| == |js| && forall i :: 0 <= i < |js| ==> r[i] == Some(js[i])
  {
    if |js| == 0 then [] else SomeAll(js[..|js| - 1]) + [Some(js[|js| - 1])]
  }

  /** The jdbc types `register(Type, TypeHandler)` registers under, in order. */
  function JdbcKeys(mapped: Option<MappedJdbcTypes>): seq<Option<JdbcType>> {
    match mapped
    case None => [None]
    case Some(m) => SomeAll(m.value) + (if m.includeNullJdbcType then [None] else [])
  }

  /** Registering (javaType, k, h) for each key k in order, with the corrected registration. */
  function RegisterAll(s: Registry, javaType: Option<JType>, keys: seq<Option<JdbcType>>, h: TypeHandler)
    : (r: Registry)
    requires Sound(s)
    ensures Sound(r)
    ensures WellFormed(s) ==> WellFormed(r)
  {
    if |keys| == 0 then s
    else AfterRegister(RegisterAll(s, javaType, keys[..|keys| - 1], h), javaType, keys[|keys| - 1], h)
  }

  lemma SomeAllPrefix(js: seq<JdbcType>, i: nat)
    requires i < |js|
    ensures SomeAll(js[..i + 1]) == SomeAll(js[..i]) + [Some(js[i])]
  {
    assert js[..i + 1][..i] == js[..i];
  }

  /** Registering under one more key is one more registration on top. */
  lemma RegisterAllSnoc(s: Registry, javaType: Option<JType>, keys: seq<Option<JdbcType>>, k: Option<JdbcType>,
                        h: TypeHandler)
    requires Sound(s)
    ensures Sound(RegisterAll(s, javaType, keys, h))
    ensures RegisterAll(s, javaType, keys + [k], h) == AfterRegister(RegisterAll(s, javaType, keys, h), javaType, k, h)
  {
    assert (keys + [k])[..|keys|] == keys;
  }

  /** Once a type has its own map, later registrations write into that same map and nowhere else in it. */
  lemma {:induction false} RegisterAllContents(s: Registry, t: JType, keys: seq<Option<JdbcType>>, h: TypeHandler)
    requires Sound(s) && |keys| > 0
    ensures var r := RegisterAll(s, Some(t), keys, h);
      t in r.typeHandlerMap && r.typeHandlerMap[t] != NullMapId && r.typeHandlerMap[t] in r.store &&
      (forall i :: 0 <= i < |keys| ==> keys[i] in r.store[r.typeHandlerMap[t]] && r.store[r.typeHandlerMap[t]][keys[i]] == h) &&
      r.allTypeHandlersMap[HandlerClass(h)] == h
  {
    var init := keys[..|keys| - 1];
    var r0 := RegisterAll(s, Some(t), init, h);
    var r := RegisterAll(s, Some(t), keys, h);
    if |init| > 0 {
      RegisterAllContents(s, t, init, h);
      assert r.typeHandlerMap[t] == r0.typeHandlerMap[t];
      forall i | 0 <= i < |keys|
        ensures keys[i] in r.store[r.typeHandlerMap[t]] && r.store[r.typeHandlerMap[t]][keys[i]] == h
      {
        if i < |init| {
          assert init[i] == keys[i];
        }
      }
    }
  }

  /**
   * `register(Type, TypeHandler)`: without `@MappedJdbcTypes` the handler goes under the null
   * jdbc type; with it, under every listed type, and under null as well iff includeNullJdbcType.
   */
  lemma MappedRegistration(s: Registry, t: JType, mapped: Option<MappedJdbcTypes>, h: TypeHandler)
    requires Sound(s)
    ensures var r := RegisterAll(s, Some(t), JdbcKeys(mapped), h);
      var keys := JdbcKeys(mapped);
      (mapped.None? ==> keys == [None]) &&
      (mapped.Some? ==> forall j :: j in mapped.value.value ==> Some(j) in keys) &&
      (mapped.Some? ==> (None in keys <==> mapped.value.includeNullJdbcType)) &&
      (|keys| > 0 ==>
        t in r.typeHandlerMap && r.typeHandlerMap[t] in r.store &&
        forall k :: k in keys ==> k in r.store[r.typeHandlerMap[t]] && r.store[r.typeHandlerMap[t]][k] == h) &&
      (|keys| == 0 ==> r == s)
  {
    var keys := JdbcKeys(mapped);
    if mapped.Some? {
      var m := mapped.value;
      forall j | j in m.value
        ensures Some(j) in keys
      {
        var i :| 0 <= i < |m.value| && m.value[i] == j;
        assert keys[i] == Some(j);
      }
      if !m.includeNullJdbcType {
        assert keys == SomeAll(m.value);
        assert forall i :: 0 <= i < |keys| ==> keys[i].Some?;
      }
      if m.includeNullJdbcType {
        assert keys[|keys| - 1] == None;
      }
    }
    if |keys| > 0 {
      RegisterAllContents(s, t, keys, h);
    }
  }

  /**
   * A counterexample for the as-written registration: after a failed lookup of a plain class
   * the type holds the sentinel, registering a handler for it writes into the sentinel, and the
   * handler is then never found; the corrected registration finds it.
   */
  lemma RegisterAfterFailedLookupLost()
    ensures var t := ClassType(Leaf("com.example.Money", Some(ObjectClass)));
      var h := TypeHandler("com.example.MoneyTypeHandler", 1);
      var s1 := AfterLookup(EmptyRegistry, t);
      var lost := AfterRegisterAsWritten(s1, Some(t), None, h);
      var fixed := AfterRegister(s1, Some(t), None, h);
      JdbcHandlerMapOf(s1, t).None? && s1.typeHandlerMap[t] == NullMapId &&
      JdbcHandlerMapOf(lost, t).None? && !WellFormed(lost) &&
      JdbcHandlerMapOf(fixed, t).Some? && FindsHandler(fixed, t, None)
  {
    var t := ClassType(Leaf("com.example.Money", Some(ObjectClass)));
    var h := TypeHandler("com.example.MoneyTypeHandler", 1);
    var s1 := AfterLookup(EmptyRegistry, t);
    assert s1.typeHandlerMap[t] == NullMapId;
    var lost := AfterRegisterAsWritten(s1, Some(t), None, h);
    assert lost.store[NullMapId] == map[None := h];
    RegisterThenLookup(s1, t, None, h);
  }

  /** Registering (javaType, k, h) for each key k in order, with the as-written registration. */
  function RegisterAllAsWritten(s: Registry, javaType: Option<JType>, keys: seq<Option<JdbcType>>, h: TypeHandler)
    : (r: Registry)
    requires Sound(s)
    ensures Sound(r)
    ensures |keys| > 0 ==> HandlerClass(h) in r.allTypeHandlersMap && r.allTypeHandlersMap[HandlerClass(h)] == h
  {
    if |keys| == 0 then s
    else AfterRegisterAsWritten(RegisterAllAsWritten(s, javaType, keys[..|keys| - 1], h), javaType, keys[|keys| - 1], h)
  }

  lemma RegisterAllAsWrittenSnoc(s: Registry, javaType: Option<JType>, keys: seq<Option<JdbcType>>, k: Option<JdbcType>,
                                 h: TypeHandler)
    requires Sound(s)
    ensures Sound(RegisterAllAsWritten(s, javaType, keys, h))
    ensures RegisterAllAsWritten(s, javaType, keys + [k], h) ==
      AfterRegisterAsWritten(RegisterAllAsWritten(s, javaType, keys, h), javaType, k, h)
  {
    assert (keys + [k])[..|keys|] == keys;
  }

  /**
   * The same loss through `register(Type, TypeHandler)`: a handler class without
   * `@MappedJdbcTypes` registered for a type whose lookup failed goes into the sentinel, and the
   * type stays unresolved; the corrected fold resolves it.
   */
  lemma MappedRegistrationAfterFailedLookupLost()
    ensures var t := ClassType(Leaf("com.example.Money", Some(ObjectClass)));
      var h := TypeHandler("com.example.MoneyTypeHandler", 1);
      var s1 := AfterLookup(EmptyRegistry, t);
      var lost := RegisterAllAsWritten(s1, Some(t), JdbcKeys(None), h);
      var fixed := RegisterAll(s1, Some(t), JdbcKeys(None), h);
      lost.typeHandlerMap[t] == NullMapId && lost.store[NullMapId] == map[None := h] &&
      JdbcHandlerMapOf(lost, t).None? && !FindsHandler(lost, t, None) &&
      JdbcHandlerMapOf(fixed, t).Some? && FindsHandler(fixed, t, None)
  {
    var t := ClassType(Leaf("com.example.Money", Some(ObjectClass)));
    var h := TypeHandler("com.example.MoneyTypeHandler", 1);
    var s1 := AfterLookup(EmptyRegistry, t);
    assert s1.typeHandlerMap[t] == NullMapId;
    RegisterAllAsWrittenSnoc(s1, Some(t), [], None, h);
    RegisterAllSnoc(s1, Some(t), [], None, h);
    assert JdbcKeys(None) == [] + [None];
    var lost := RegisterAllAsWritten(s1, Some(t), JdbcKeys(None), h);
    assert lost == AfterRegisterAsWritten(s1, Some(t), None, h);
    assert lost.store[NullMapId] == map[None := h];
    RegisterThenLookup(s1, t, None, h);
  }

  // ---------------------------------------------------------------------------------------
  // The registry object

  class TypeHandlerRegistry {
    var jdbcTypeHandlerMap: map<JdbcType, TypeHandler>
    var typeHandlerMap: map<JType, MapId>
    var store: map<MapId, HandlerMap>
    var allTypeHandlersMap: map<string, TypeHandler>
    var nextId: MapId

    function Snapshot(): Registry
      reads this
    {
      Registry(jdbcTypeHandlerMap, typeHandlerMap, store, allTypeHandlersMap, nextId)
    }

    ghost predicate Valid()
      reads this
    {
      WellFormed(Snapshot())
    }

    /** A registry without the built-in registrations of the Java constructor. */
    constructor ()
      ensures Snapshot() == EmptyRegistry && Valid()
    {
      jdbcTypeHandlerMap := map[];
      typeHandlerMap := map[];
      store := map[NullMapId := map[]];
      allTypeHandlersMap := map[];
      nextId := 1;
    }

    /** `register(JdbcType, TypeHandler)` */
    method RegisterJdbcType(jdbcType: JdbcType, h: TypeHandler)
      modifies this
      ensures jdbcTypeHandlerMap == old(jdbcTypeHandlerMap)[jdbcType := h]
      ensures typeHandlerMap == old(typeHandlerMap) && store == old(store)
      ensures allTypeHandlersMap == old(allTypeHandlersMap) && nextId == old(nextId)
    {
      jdbcTypeHandlerMap := jdbcTypeHandlerMap[jdbcType := h];
    }

    /** `getTypeHandler(JdbcType)` */
    function GetJdbcTypeHandler(jdbcType: JdbcType): (r: Option<TypeHandler>)
      reads this
      ensures r.Some? <==> jdbcType in jdbcTypeHandlerMap
      ensures r.Some? ==> r.value == jdbcTypeHandlerMap[jdbcType]
    {
      if jdbcType in jdbcTypeHandlerMap then Some(jdbcTypeHandlerMap[jdbcType]) else None
    }

    /** The private `register(Type, JdbcType, TypeHandler)`, with the sentinel excluded. */
    method Register(javaType: Option<JType>, jdbcType: Option<JdbcType>, h: TypeHandler)
      requires Sound(Snapshot())
      modifies this
      ensures Snapshot() == AfterRegister(old(Snapshot()), javaType, jdbcType, h)
    {
      if javaType.Some? {
        var t := javaType.value;
        if t in typeHandlerMap && typeHandlerMap[t] != NullMapId {
          var id := typeHandlerMap[t];
          store := store[id := store[id][jdbcType := h]];
        } else {
          var id := nextId;
          nextId := nextId + 1;
          typeHandlerMap := typeHandlerMap[t := id];
          store := store[id := map[jdbcType := h]];
        }
      }
      allTypeHandlersMap := allTypeHandlersMap[HandlerClass(h) := h];
    }

    /** The private `register(Type, JdbcType, TypeHandler)` as written. */
    method RegisterAsWritten(javaType: Option<JType>, jdbcType: Option<JdbcType>, h: TypeHandler)
      requires Sound(Snapshot())
      modifies this
      ensures Snapshot() == AfterRegisterAsWritten(old(Snapshot()), javaType, jdbcType, h)
    {
      if javaType.Some? {
        var t := javaType.value;
        var id: MapId;
        if t in typeHandlerMap {
          id := typeHandlerMap[t];
          store := store[id := store[id][jdbcType := h]];
        } else {
          id := nextId;
          nextId := nextId + 1;
          typeHandlerMap := typeHandlerMap[t := id];
          store := store[id := map[jdbcType := h]];
        }
      }
      allTypeHandlersMap := allTypeHandlersMap[HandlerClass(h) := h];
    }

    /**
     * The private `register(Type, TypeHandler)`, with the handler class's `@MappedJdbcTypes` as
     * input, built on the corrected registration.
     */
    method RegisterMapped(javaType: Option<JType>, h: TypeHandler, mapped: Option<MappedJdbcTypes>)
      requires Sound(Snapshot())
      modifies this
      ensures Snapshot() == RegisterAll(old(Snapshot()), javaType, JdbcKeys(mapped), h)
    {
      ghost var s0 := Snapshot();
      if mapped.Some? {
        var types := mapped.value.value;
        RegisterEach(javaType, types, h);
        if mapped.value.includeNullJdbcType {
          RegisterAllSnoc(s0, javaType, SomeAll(types), None, h);
          Register(javaType, None, h);
        } else {
          assert JdbcKeys(mapped) == SomeAll(types);
        }
      } else {
        RegisterAllSnoc(s0, javaType, [], None, h);
        Register(javaType, None, h);
      }
    }

    /** The loop of `register(Type, TypeHandler)` over the mapped jdbc types, in order, with the corrected registration. */
    method RegisterEach(javaType: Option<JType>, types: seq<JdbcType>, h: TypeHandler)
      requires Sound(Snapshot())
      modifies this
      ensures Sound(old(Snapshot()))
      ensures Snapshot() == RegisterAll(old(Snapshot()), javaType, SomeAll(types), h)
    {
      ghost var s0 := Snapshot();
      var i := 0;
      while i < |types|
        invariant 0 <= i <= |types|
        invariant Sound(Snapshot())
        invariant Snapshot() == RegisterAll(s0, javaType, SomeAll(types[..i]), h)
      {
        SomeAllPrefix(types, i);
        RegisterAllSnoc(s0, javaType, SomeAll(types[..i]), Some(types[i]), h);
        Register(javaType, Some(types[i]), h);
        i := i + 1;
      }
      assert types[..i] == types;
    }

    /** `register(Type, TypeHandler)` as written: every key goes through the as-written registration. */
    method RegisterMappedAsWritten(javaType: Option<JType>, h: TypeHandler, mapped: Option<MappedJdbcTypes>)
      requires Sound(Snapshot())
      modifies this
      ensures Snapshot() == RegisterAllAsWritten(old(Snapshot()), javaType, JdbcKeys(mapped), h)
    {
      ghost var s0 := Snapshot();
      if mapped.Some? {
        var types := mapped.value.value;
        RegisterEachAsWritten(javaType, types, h);
        if mapped.value.includeNullJdbcType {
          RegisterAllAsWrittenSnoc(s0, javaType, SomeAll(types), None, h);
          RegisterAsWritten(javaType, None, h);
        } else {
          assert JdbcKeys(mapped) == SomeAll(types);
        }
      } else {
        RegisterAllAsWrittenSnoc(s0, javaType, [], None, h);
        RegisterAsWritten(javaType, None, h);
      }
    }

    /** The loop over the mapped jdbc types, with the as-written registration. */
    method RegisterEachAsWritten(javaType: Option<JType>, types: seq<JdbcType>, h: TypeHandler)
      requires Sound(Snapshot())
      modifies this
      ensures Sound(old(Snapshot()))
      ensures Snapshot() == RegisterAllAsWritten(old(Snapshot()), javaType, SomeAll(types), h)
    {
      ghost var s0 := Snapshot();
      var i := 0;
      while i < |types|
        invariant 0 <= i <= |types|
        invariant Sound(Snapshot())
        invariant Snapshot() == RegisterAllAsWritten(s0, javaType, SomeAll(types[..i]), h)
      {
        SomeAllPrefix(types, i);
        RegisterAllAsWrittenSnoc(s0, javaType, SomeAll(types[..i]), Some(types[i]), h);
        RegisterAsWritten(javaType, Some(types[i]), h);
        i := i + 1;
      }
      assert types[..i] == types;
    }

    /** `getJdbcHandlerMap`: consult, inherit or mark the type's map. */
    method GetJdbcHandlerMap(t: JType) returns (r: Option<MapId>)
      requires Sound(Snapshot())
      modifies this
      ensures r == JdbcHandlerMapOf(old(Snapshot()), t)
      ensures Snapshot() == AfterLookup(old(Snapshot()), t)
    {
      if t in typeHandlerMap {
        if store[typeHandlerMap[t]] == store[NullMapId] {
          return None;
        }
        return Some(typeHandlerMap[t]);
      }
      r := None;
      if t.ClassType? {
        r := SuperclassMap(typeHandlerMap, t.cls);
        if r.Some? {
          typeHandlerMap := typeHandlerMap[t := r.value];
        } else if t.cls.isEnum {
          Register(Some(t), None, EnumTypeHandler(t.cls));
          return Some(typeHandlerMap[t]);
        }
      }
      if r.None? {
        typeHandlerMap := typeHandlerMap[t := NullMapId];
      }
    }

    /** `pickSoleHandler`: the handler when all of the map's handlers share one class. */
    method PickSoleHandler(m: HandlerMap) returns (r: Option<TypeHandler>)
      ensures r.Some? <==> SoleClass(m)
      ensures r.Some? ==> r.value in m.Values
    {
      r := None;
      var remaining := m.Keys;
      while remaining != {}
        invariant remaining <= m.Keys
        invariant r.None? <==> remaining == m.Keys
        invariant r.Some? ==> r.value in m.Values
        invariant r.Some? ==> forall k :: k in m && k !in remaining ==> HandlerClass(m[k]) == HandlerClass(r.value)
        decreases |remaining|
      {
        var k :| k in remaining;
        var handler := m[k];
        if r.None? {
          r := Some(handler);
        } else if HandlerClass(handler) != HandlerClass(r.value) {
          assert !SoleClass(m) by {
            var j :| j in m && m[j] == r.value;
          }
          return None;
        }
        remaining := remaining - {k};
      }
      if r.Some? {
        var j :| j in m && m[j] == r.value;
        assert forall k1, k2 :: k1 in m && k2 in m ==> HandlerClass(m[k1]) == HandlerClass(m[j]) == HandlerClass(m[k2]);
      }
    }

    /** The private `getTypeHandler(Type, JdbcType)`. */
    method GetTypeHandler(t: JType, jdbcType: Option<JdbcType>) returns (h: Option<TypeHandler>)
      requires Sound(Snapshot())
      modifies this
      ensures Snapshot() == AfterLookup(old(Snapshot()), t)
      ensures var id := JdbcHandlerMapOf(old(Snapshot()), t);
        (id.None? ==> h.None?) && (id.Some? ==> id.value in store && Resolves(store[id.value], jdbcType, h))
      ensures h.Some? <==> FindsHandler(old(Snapshot()), t, jdbcType)
    {
      ghost var s0 := Snapshot();
      LookupMapExists(s0, t);
      var id := GetJdbcHandlerMap(t);
      h := None;
      if id.Some? {
        var m := store[id.value];
        if jdbcType in m {
          h := Some(m[jdbcType]);
        }
        if h.None? && None in m {
          h := Some(m[None]);
        }
        if h.None? {
          h := PickSoleHandler(m);
        }
      }
    }

    /** `hasTypeHandler(Class, JdbcType)`: false for a null java type. */
    method HasTypeHandler(javaType: Option<JType>, jdbcType: Option<JdbcType>) returns (b: bool)
      requires Sound(Snapshot())
      modifies this
      ensures javaType.None? ==> !b && Snapshot() == old(Snapshot())
      ensures javaType.Some? ==>
        Snapshot() == AfterLookup(old(Snapshot()), javaType.value) &&
        (b <==> FindsHandler(old(Snapshot()), javaType.value, jdbcType))
    {
      if javaType.None? {
        return false;
      }
      var h := GetTypeHandler(javaType.value, jdbcType);
      b := h.Some?;
    }
  }
}
