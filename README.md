# MyBatis caching, batching and binding core in Dafny

This project models the caching and dispatch core of MyBatis, a SQL-mapping layer for Java. It also models the small rule-based helpers around that core.

The model covers:

- **The first-level cache of an executor** (`BaseExecutor`). A session-local key→result cache holds an execution placeholder while a query is in flight. Beside it sit an output-parameter cache for callable statements, a nesting counter (`queryStack`), and a FIFO queue of deferred loads. The queue is drained when the outermost query finishes. Cache keys are built from their components in a fixed order.
- **Second-level cache decorators**:
  - `TransactionalCache`: staged additions, missed keys, clear-on-commit, commit and rollback;
  - `LruCache`: access-ordered tracking with single-key eviction;
  - `SoftCache`: a bounded hard-link deque in front of softly referenced values.
- **Batch grouping** in `BatchExecutor`. Consecutive updates with the same SQL and statement share one JDBC batch. A flush executes the batches in order and reports the first failure.
- **Rule-based helpers**:
  - the `TypeHandlerRegistry` lookup and registration, with its superclass walk and its NULL sentinel;
  - `ParamNameResolver` parameter naming;
  - the `MapperMethod` binding rules;
  - `PropertyTokenizer` and `PropertyParser.handleToken`;
  - `Reflector` property discovery and conflict resolution;
  - `UnpooledDataSourceFactory.setProperties`.

Each Java class with mutable fields is a Dafny `class` with those fields. Its methods carry `modifies` clauses and state the whole new state. Pure Java code becomes functions and lemmas.

Java collaborators the core only calls are modelled in one of three ways, described per module below:

- as parameters: `doQuery`, `executeBatch`, `MetaObject` property reads, `ObjectFactory.isCollection`, `PropertyNamer`;
- as recorded effects: JDBC calls, delegate-cache calls, property writes;
- as an explicit oracle: the garbage collector.

Modules:

| module | Java source |
|---|---|
| `Wrappers` | `Option`, `Result` and `Outcome` |
| `Text` | the `String` operations the core uses (`indexOf`, `toUpperCase`, decimal formatting), written out |
| `JavaTypes`, `Values` | classes as a datatype with a superclass chain and interfaces; `isAssignableFrom` as a structural walk, with `java.lang.Object` above every reference type, interfaces included; the values stored in caches and parameter objects |
| `PropertyTokenizer` | `PropertyTokenizer.java` |
| `PropertyParser` | `PropertyParser.java` |
| `ParamNameResolver` | `ParamNameResolver.java` |
| `MapperMethod` | `MapperMethod.java` |
| `UnpooledDataSourceFactory` | `UnpooledDataSourceFactory.java` |
| `Reflector` | `Reflector.java` |
| `TypeHandlerRegistry` | `TypeHandlerRegistry.java` |
| `LruCache`, `SoftCache`, `TransactionalCache` | the three decorators |
| `BaseExecutor`, `BatchExecutor` | the two executors |

Design points:

- **`BaseExecutor`.** Re-entrant queries are modelled by four phase methods: `QueryEnter`, `QueryFromDatabaseBegin`, `QueryFromDatabaseEnd` and `QueryLeave`. A nested query is any sequence of these calls made between an outer `QueryFromDatabaseBegin` and `QueryFromDatabaseEnd`. `Query` composes the four phases for a `doQuery` that issues no nested query.
- **`TypeHandlerRegistry`.** The per-type jdbc-handler maps are kept in a store indexed by map identity. This models that a subclass entry shares its superclass's map object, and that every failed lookup shares the one NULL sentinel map.
- **`TransactionalCache`.** Its delegate is a map plus a trace of delegate calls. This is how the effect of a blocking delegate (`putObject(k, null)` releases a lock, `removeObject(k)` unlocks it) is seen.
- **`SoftCache`.** Entries are a ledger of soft references. `Collect` is the collector's step: it clears a referent no hard link holds, and enqueues its entry.

## Model

| member | source | states |
|---|---|---|
| PropertyTokenizer.FirstSegment | src/main/java/org/apache/ibatis/reflection/property/PropertyTokenizer.java:32-38 | the segment contains no '.' and is either the whole input or the text before its first '.' |
| PropertyTokenizer.Tokenize | src/main/java/org/apache/ibatis/reflection/property/PropertyTokenizer.java:31-47 | fails exactly when the segment's first '[' is its last character (the substring would throw); children are absent iff the input has no '.'; otherwise indexedName + "." + children is the input; with a '[' the name is the text before it and the index runs from after it to the last character; without one the name is the indexed name |
| PropertyTokenizer.Children | src/main/java/org/apache/ibatis/reflection/property/PropertyTokenizer.java:32-39 | absent iff the input has no '.'; otherwise the first segment, a '.' and the children give back the input |
| PropertyTokenizer.SplitIndex | src/main/java/org/apache/ibatis/reflection/property/PropertyTokenizer.java:41-46 | without '[' the name is the whole segment; with one, the name is '['-free and name + "[" + index is the segment minus its last character |
| PropertyTokenizer.HasNext | src/main/java/org/apache/ibatis/reflection/property/PropertyTokenizer.java:66-68 | true iff there are children |
| PropertyTokenizer.Next | src/main/java/org/apache/ibatis/reflection/property/PropertyTokenizer.java:71-73 | tokenizes the children: fails exactly when their first segment ends at its '[', and any further children are strictly shorter, so iteration ends |
| PropertyTokenizer.Remove | src/main/java/org/apache/ibatis/reflection/property/PropertyTokenizer.java:76-78 | always fails as unsupported |
| PropertyTokenizer.SegmentsRoundTrip | src/main/java/org/apache/ibatis/reflection/property/PropertyTokenizer.java:31-73 | iterating next to the end yields dot-free segments whose "."-join is the original expression |
| PropertyTokenizer.NoBracketNeverFails | src/main/java/org/apache/ibatis/reflection/property/PropertyTokenizer.java:42-46 | an expression without '[' is tokenized to the end without failure |
| PropertyParser.GetPropertyValue | src/main/java/org/apache/ibatis/parsing/PropertyParser.java:62-64 | the configured value when variables exist and hold the key, the default otherwise |
| PropertyParser.NewHandler | src/main/java/org/apache/ibatis/parsing/PropertyParser.java:56-60 | default values are enabled iff the enable key is configured and parses as true; the separator is the configured one or ":" |
| PropertyParser.DefaultsWhenUnconfigured | src/main/java/org/apache/ibatis/parsing/PropertyParser.java:37-59 | with neither key configured (or no variables) default values are off and the separator is ":" |
| PropertyParser.SplitDefault | src/main/java/org/apache/ibatis/parsing/PropertyParser.java:77-82 | splits at the first occurrence of the separator, so key + separator + default is the content and the key holds no earlier occurrence; none iff the separator does not occur |
| PropertyParser.HandleToken | src/main/java/org/apache/ibatis/parsing/PropertyParser.java:73-94 | without variables the token text "${content}" is kept; with defaults on and a separator present, the key's value or else the default; otherwise the content's value if present, else the token text |
| PropertyParser.MissingKeyKeepsToken | src/main/java/org/apache/ibatis/parsing/PropertyParser.java:89-93 | a missing key with defaults off leaves "${content}" unchanged |
| PropertyParser.DefaultValueUsed | src/main/java/org/apache/ibatis/parsing/PropertyParser.java:76-86 | with defaults enabled, "key:fallback" for a missing key yields the fallback |
| ParamNameResolver.NamedIndices | src/main/java/org/apache/ibatis/reflection/ParamNameResolver.java:76-79 | the named positions are strictly increasing and never a RowBounds or ResultHandler parameter |
| ParamNameResolver.NamedIndicesComplete | src/main/java/org/apache/ibatis/reflection/ParamNameResolver.java:76-79 | every parameter that is not special is named |
| ParamNameResolver.SpecNames | src/main/java/org/apache/ibatis/reflection/ParamNameResolver.java:82-100 | exactly one name per non-special parameter |
| ParamNameResolver.NewResolver | src/main/java/org/apache/ibatis/reflection/ParamNameResolver.java:69-104 | the naming loop produces exactly the specified names (the @Param value, else the actual name if enabled, else the count of earlier names) and records whether any named parameter carries @Param |
| ParamNameResolver.NamesSkipExactlySpecial | src/main/java/org/apache/ibatis/reflection/ParamNameResolver.java:118-120 | a parameter index appears among the names iff the parameter is not a RowBounds or ResultHandler |
| ParamNameResolver.GetNames | src/main/java/org/apache/ibatis/reflection/ParamNameResolver.java:125-127 | the names in increasing parameter order |
| ParamNameResolver.GetNamedParams | src/main/java/org/apache/ibatis/reflection/ParamNameResolver.java:137-161 | null iff the arguments are null or nothing is named; the bare argument iff one unannotated name; otherwise the parameter map |
| ParamNameResolver.ParamMapKeys | src/main/java/org/apache/ibatis/reflection/ParamNameResolver.java:144-159 | the map's keys are exactly the names and the paramN aliases added so far |
| ParamNameResolver.ParamMapNamedValue | src/main/java/org/apache/ibatis/reflection/ParamNameResolver.java:146-148 | a name that no later parameter reuses maps to the argument at its parameter index |
| ParamNameResolver.ParamMapGenericValue | src/main/java/org/apache/ibatis/reflection/ParamNameResolver.java:149-155 | param(i+1) maps to the i-th named argument unless it is itself a name |
| ParamNameResolver.RowBoundsExample | src/main/java/org/apache/ibatis/reflection/ParamNameResolver.java:60 | (int a, RowBounds rb, int b) is named {0:"0", 2:"1"} |
| ParamNameResolver.AnnotatedExample | src/main/java/org/apache/ibatis/reflection/ParamNameResolver.java:58 | (@Param("M") int a, @Param("N") int b) is named {0:"M", 1:"N"} |
| MapperMethod.FindStatement | src/main/java/org/apache/ibatis/binding/MapperMethod.java:234-243 | the statement "interface.method", else, for an inherited method, "declaringInterface.method", else none |
| MapperMethod.ResolveSqlCommand | src/main/java/org/apache/ibatis/binding/MapperMethod.java:232-259 | no statement: FLUSH with a null name under @Flush, else not-found naming the statement; an UNKNOWN type is an error; a resolved command never has type UNKNOWN and has a null name only for @Flush |
| MapperMethod.InheritedStatement | src/main/java/org/apache/ibatis/binding/MapperMethod.java:238-243 | a method inherited from a parent interface binds to the parent's statement |
| MapperMethod.RowCountResult | src/main/java/org/apache/ibatis/binding/MapperMethod.java:105-119 | void gives null, int/Integer the count, long/Long the widened count, boolean/Boolean count > 0; it fails iff the return type is none of these |
| MapperMethod.CheckResult | src/main/java/org/apache/ibatis/binding/MapperMethod.java:98-101 | fails iff the result is null and the return type is a non-void primitive; otherwise returns the result |
| MapperMethod.RowCountPassesCheck | src/main/java/org/apache/ibatis/binding/MapperMethod.java:98-119 | a converted row count always passes the null-primitive check |
| MapperMethod.Execute | src/main/java/org/apache/ibatis/binding/MapperMethod.java:56-103 | UNKNOWN fails; insert, update and delete convert the row count; select and flush results go through the null-primitive check |
| MapperMethod.NullSelectExample | src/main/java/org/apache/ibatis/binding/MapperMethod.java:98-101 | a null select result fails for int and passes for Integer |
| MapperMethod.ParamMapGet | src/main/java/org/apache/ibatis/binding/MapperMethod.java:216-221 | succeeds iff the key is present, with the stored value; otherwise names the key and the available keys |
| MapperMethod.GetUniqueParamIndex | src/main/java/org/apache/ibatis/binding/MapperMethod.java:351-364 | null iff no parameter type matches; the only matching index; an error iff two indices match |
| MapperMethod.GetMapKey | src/main/java/org/apache/ibatis/binding/MapperMethod.java:366-375 | non-null iff the return type is a Map and @MapKey is present, and then the annotation's value |
| MapperMethod.NewMethodSignature | src/main/java/org/apache/ibatis/binding/MapperMethod.java:283-303 | returnsVoid, returnsCursor, returnsMany and mapKey as defined; returnsMap is exactly mapKey != null; a RowBounds or ResultHandler index, when present, is a parameter of that kind, and it is absent only when no parameter is; it fails iff two parameters are of one special kind, reporting RowBounds before ResultHandler; the resolver's names are the specified ones |
| UnpooledDataSourceFactory.ParseDecimal | src/main/java/org/apache/ibatis/datasource/unpooled/UnpooledDataSourceFactory.java:74-77 | a parsed number lies in the target range and the text starts with a sign or a digit |
| UnpooledDataSourceFactory.ParseDecimalRoundTrip | src/main/java/org/apache/ibatis/datasource/unpooled/UnpooledDataSourceFactory.java:74-77 | parsing the decimal form of an in-range number gives the number back |
| UnpooledDataSourceFactory.ParseDecimalRejectsNonDigit | src/main/java/org/apache/ibatis/datasource/unpooled/UnpooledDataSourceFactory.java:74-77 | a non-digit after the first character is a number-format failure |
| UnpooledDataSourceFactory.ConvertValue | src/main/java/org/apache/ibatis/datasource/unpooled/UnpooledDataSourceFactory.java:71-82 | int/Integer and long/Long targets parse within 32 or 64 bits and fail as NumberFormat otherwise; boolean/Boolean targets parse as a boolean; any other target keeps the string |
| UnpooledDataSourceFactory.ConvertIntRoundTrip | src/main/java/org/apache/ibatis/datasource/unpooled/UnpooledDataSourceFactory.java:74-75 | an int property set from the decimal form of a 32-bit value receives that value |
| UnpooledDataSourceFactory.ApplyFailsIffBadKey | src/main/java/org/apache/ibatis/datasource/unpooled/UnpooledDataSourceFactory.java:47-60 | setting properties fails iff some key is neither a driver key nor convertible through a setter |
| UnpooledDataSourceFactory.ApplyRecordsDriverKeys | src/main/java/org/apache/ibatis/datasource/unpooled/UnpooledDataSourceFactory.java:49-51 | every "driver." key is stored with the 7-character prefix removed and its value |
| UnpooledDataSourceFactory.ApplyDriverPropertiesFromKeys | src/main/java/org/apache/ibatis/datasource/unpooled/UnpooledDataSourceFactory.java:49-51 | every driver property comes from a "driver."-prefixed key |
| UnpooledDataSourceFactory.StripPrefixInjective | src/main/java/org/apache/ibatis/datasource/unpooled/UnpooledDataSourceFactory.java:32-33 | distinct driver keys give distinct driver property names |
| UnpooledDataSourceFactory.ApplyValues | src/main/java/org/apache/ibatis/datasource/unpooled/UnpooledDataSourceFactory.java:52-56 | every other key has a setter and receives its converted value; properties not named keep their value; no other property is set |
| UnpooledDataSourceFactory.ApplyStopsAtError | src/main/java/org/apache/ibatis/datasource/unpooled/UnpooledDataSourceFactory.java:57-58 | after an unknown property the remaining keys are not processed |
| UnpooledDataSourceFactory.DataSourceFactory.constructor | src/main/java/org/apache/ibatis/datasource/unpooled/UnpooledDataSourceFactory.java:38-40 | a fresh data source has no properties set and no driver properties |
| UnpooledDataSourceFactory.SetPropertiesStep | src/main/java/org/apache/ibatis/datasource/unpooled/UnpooledDataSourceFactory.java:47-58 | one key from a state without error: a driver key adds its suffix to the driver properties, a convertible setter key sets its value, and a failed conversion or an unknown key ends the walk with that error and the state before it |
| UnpooledDataSourceFactory.DataSourceFactory.SetProperties | src/main/java/org/apache/ibatis/datasource/unpooled/UnpooledDataSourceFactory.java:43-64 | the new state is the partition of the keys: converted setter values, and driver properties installed only if at least one driver key was seen and nothing failed; on failure the error and the values set before it |
| Reflector.GetSignature | src/main/java/org/apache/ibatis/reflection/Reflector.java:407-424 | the loop builds returnType#name followed by ":p1,p2,..." when there are parameters |
| Reflector.SignatureDeterminesComponents | src/main/java/org/apache/ibatis/reflection/Reflector.java:407-424 | for names free of '#', ':' and ',', equal signatures mean equal return type, name and parameter types |
| Reflector.UniqueSpecFirstWins | src/main/java/org/apache/ibatis/reflection/Reflector.java:378-398 | existing entries are kept, every non-bridge method's signature is present, the first method with a new signature wins, and nothing else is added |
| Reflector.AddUniqueMethods | src/main/java/org/apache/ibatis/reflection/Reflector.java:378-398 | the loop computes the specified de-duplication |
| Reflector.GetClassMethods | src/main/java/org/apache/ibatis/reflection/Reflector.java:356-376 | de-duplication over the class's methods, then its interfaces', then the superclasses' in order |
| Reflector.SubclassMethodsWin | src/main/java/org/apache/ibatis/reflection/Reflector.java:359-370 | a method declared by the class itself wins over any superclass or interface method with its signature |
| Reflector.MapValues | src/main/java/org/apache/ibatis/reflection/Reflector.java:372-375 | the returned methods are exactly the map's values, one element per entry, with no method twice when distinct keys hold distinct methods |
| Reflector.UniqueSpecKeyedBySignature | src/main/java/org/apache/ibatis/reflection/Reflector.java:378-398 | every key of the collected map is the signature of the method it holds |
| Reflector.UniqueMethodsInjective | src/main/java/org/apache/ibatis/reflection/Reflector.java:356-376 | getClassMethods never holds one method under two signatures |
| Reflector.CandidatesDistinct | src/main/java/org/apache/ibatis/reflection/Reflector.java:196-209 | grouping distinct methods by property puts no method twice into a group |
| Reflector.GettersComparableCandidates | src/main/java/org/apache/ibatis/reflection/Reflector.java:152-185 | when no two getters of a property have equal or unrelated return types, each property's group is comparable |
| Reflector.GetterConflictsComparable | src/main/java/org/apache/ibatis/reflection/Reflector.java:152-185 | the same for every group of the conflict map |
| Reflector.SettersComparableCandidates | src/main/java/org/apache/ibatis/reflection/Reflector.java:220-249 | when no two setters of a property have unrelated parameter types, each property's group is comparable |
| Reflector.Candidates | src/main/java/org/apache/ibatis/reflection/Reflector.java:211-218 | every candidate for a property is an accessor method whose property name is that property |
| Reflector.CandidatesComplete | src/main/java/org/apache/ibatis/reflection/Reflector.java:128-150 | every accessor method is a candidate for its property |
| Reflector.CollectConflicts | src/main/java/org/apache/ibatis/reflection/Reflector.java:196-209 | the conflict map holds exactly the properties with an accessor, each with its candidates |
| Reflector.ResolveGetter | src/main/java/org/apache/ibatis/reflection/Reflector.java:152-185 | a single getter is chosen as is; a chosen getter is a candidate whose return type is assignable to every candidate's; failure names the property and class and only happens when two candidates have equal or unrelated return types |
| Reflector.ResolveGetterConflicts | src/main/java/org/apache/ibatis/reflection/Reflector.java:152-185 | on success every property has its resolved getter and type; it fails only with an ambiguous getter, and never when every property's candidates are comparable |
| Reflector.PickBetterSetter | src/main/java/org/apache/ibatis/reflection/Reflector.java:251-265 | null first gives the second; otherwise the setter with the more specific parameter type; fails iff the two types are unrelated, with the message naming both |
| Reflector.PickBetterSetterSymmetric | src/main/java/org/apache/ibatis/reflection/Reflector.java:251-265 | for distinct parameter types the choice does not depend on argument order |
| Reflector.PickBetterSetterPrefersInterface | src/main/java/org/apache/ibatis/reflection/Reflector.java:257-260 | between `setValue(Object)` and `setValue(Map)` the `Map` setter is chosen in either order, since `Object` is assignable from an interface |
| Reflector.PickUpTo | src/main/java/org/apache/ibatis/reflection/Reflector.java:228-248 | folding pickBetterSetter over a non-empty prefix yields a one-parameter setter or an ambiguous-setter error |
| Reflector.PickUpToMostSpecific | src/main/java/org/apache/ibatis/reflection/Reflector.java:228-248 | a successful fold yields a setter whose parameter type is assignable to every earlier candidate's |
| Reflector.PickUpToComparable | src/main/java/org/apache/ibatis/reflection/Reflector.java:251-265 | when all parameter types are pairwise comparable the fold never fails |
| Reflector.ResolveSetter | src/main/java/org/apache/ibatis/reflection/Reflector.java:228-248 | the first setter whose parameter type equals the getter type is chosen; without one, the fold's result |
| Reflector.ResolveSetterOutcome | src/main/java/org/apache/ibatis/reflection/Reflector.java:228-248 | the chosen setter matches the getter type when one does, is otherwise the most specific, and failure happens only without a match and with incomparable types |
| Reflector.ResolveSetterConflicts | src/main/java/org/apache/ibatis/reflection/Reflector.java:220-249 | on success every property has its resolved setter and type; it fails only with an ambiguous setter for a property lacking an exact match, and never when all candidates are comparable |
| Reflector.ResolvePropertySetter | src/main/java/org/apache/ibatis/reflection/Reflector.java:228-248 | for one property: a setter matching the getter type if there is one, otherwise the most specific; failure only without a match and with incomparable candidates |
| Reflector.ResolveGetters | src/main/java/org/apache/ibatis/reflection/Reflector.java:128-150 | on success one method invoker for each validly named property that has a getter; failure is an ambiguous getter, and it never fails when the methods are distinct and no two getters of a property have equal or unrelated return types |
| Reflector.ResolveSetters | src/main/java/org/apache/ibatis/reflection/Reflector.java:196-209 | on success one method invoker for each validly named property that has a setter; failure is an ambiguous setter, and it never fails when the methods are distinct and no two setters of a property have unrelated parameter types |
| Reflector.ResolveMethods | src/main/java/org/apache/ibatis/reflection/Reflector.java:96-97 | getters are resolved before setters; on success both tables hold one sound method invoker per validly named accessor property; it succeeds whenever the hierarchy's getters and setters are comparable |
| Reflector.AddFields | src/main/java/org/apache/ibatis/reflection/Reflector.java:296-325 | over the class's fields then its superclasses', the first qualifying field of each missing name becomes a field setter (not final-and-static) or getter; existing entries and other names are untouched |
| Reflector.AddField | src/main/java/org/apache/ibatis/reflection/Reflector.java:298-320 | one field: it becomes the setter of its name exactly when accessible, not final-and-static, validly named and the name has no setter; likewise the getter without the final-static condition; otherwise both maps are unchanged |
| Reflector.AddSetField | src/main/java/org/apache/ibatis/reflection/Reflector.java:327-333 | a validly named field gets a set-field invoker and its type; other names change nothing |
| Reflector.AddGetField | src/main/java/org/apache/ibatis/reflection/Reflector.java:335-341 | a validly named field gets a get-field invoker and its type; other names change nothing |
| Reflector.PutUpperFacts | src/main/java/org/apache/ibatis/reflection/Reflector.java:101-106 | putting names into the case-insensitive map adds exactly their upper-case forms, each mapped to a listed name with that upper-case form, and keeps every other entry |
| Reflector.PutUpperNames | src/main/java/org/apache/ibatis/reflection/Reflector.java:101-106 | the loop fills the specified case-insensitive map |
| Reflector.Reflector.constructor | src/main/java/org/apache/ibatis/reflection/Reflector.java:93-107 | the readable, writable and case-insensitive names agree with the getter and setter maps |
| Reflector.Reflector.GetSetInvoker | src/main/java/org/apache/ibatis/reflection/Reflector.java:460-466 | the setter invoker iff the property is writable, else a no-setter error naming the class |
| Reflector.Reflector.GetGetInvoker | src/main/java/org/apache/ibatis/reflection/Reflector.java:468-474 | the getter invoker iff the property is readable, else a no-getter error naming the class |
| Reflector.Reflector.GetSetterType | src/main/java/org/apache/ibatis/reflection/Reflector.java:482-488 | the setter type iff writable, else a no-setter error |
| Reflector.Reflector.GetGetterType | src/main/java/org/apache/ibatis/reflection/Reflector.java:496-502 | the getter type iff readable, else a no-getter error |
| Reflector.AccessorsAgree | src/main/java/org/apache/ibatis/reflection/Reflector.java:528-540 | hasSetter and hasGetter agree with the invoker and type lookups and with the property name lists |
| Reflector.CaseMapLookup | src/main/java/org/apache/ibatis/reflection/Reflector.java:101-106 | after the readable then the writable names are put in, a name's upper-case form is found iff some listed name equals it ignoring case; what is found is such a name, and a writable one whenever one exists |
| Reflector.FindPropertyNameSpec | src/main/java/org/apache/ibatis/reflection/Reflector.java:542-544 | findPropertyName finds a property iff one equals the name ignoring case, and returns such a property; writable names win over readable ones |
| Reflector.NewReflector | src/main/java/org/apache/ibatis/reflection/Reflector.java:93-107 | every entry comes from an accessor method or a field of the hierarchy; every validly named accessor property gets a method invoker; field invokers fill exactly the names without one; failure is an ambiguous getter or setter, and never happens when the hierarchy's getters and setters are comparable |
| TypeHandlerRegistry.SuperclassMap | src/main/java/org/apache/ibatis/type/TypeHandlerRegistry.java:250-261 | a found map is one of the registered maps |
| TypeHandlerRegistry.SuperclassMapNone | src/main/java/org/apache/ibatis/type/TypeHandlerRegistry.java:250-261 | the superclass walk finds nothing iff no class on the chain below Object is registered |
| TypeHandlerRegistry.SuperclassMapFirst | src/main/java/org/apache/ibatis/type/TypeHandlerRegistry.java:250-261 | a map the walk finds is that of the first registered class on the chain |
| TypeHandlerRegistry.SuperclassMapNearest | src/main/java/org/apache/ibatis/type/TypeHandlerRegistry.java:250-261 | the walk finds the map of the nearest registered superclass below Object, and nothing iff none is registered |
| TypeHandlerRegistry.AfterLookup | src/main/java/org/apache/ibatis/type/TypeHandlerRegistry.java:225-248 | a lookup keeps the registry consistent |
| TypeHandlerRegistry.SentinelRemembered | src/main/java/org/apache/ibatis/type/TypeHandlerRegistry.java:225-248 | an unresolved type is stored with the NULL sentinel; later lookups still find nothing and change nothing |
| TypeHandlerRegistry.LookupCached | src/main/java/org/apache/ibatis/type/TypeHandlerRegistry.java:225-248 | a resolved non-empty map is remembered, so a second lookup finds the same map and changes nothing |
| TypeHandlerRegistry.InheritsNearestSuperclass | src/main/java/org/apache/ibatis/type/TypeHandlerRegistry.java:232-237 | an unregistered class uses, and stores for itself, the very map of its nearest registered superclass |
| TypeHandlerRegistry.AfterRegister | src/main/java/org/apache/ibatis/type/TypeHandlerRegistry.java:347-358 | registration records the handler by its class and, for a java type, under that type and jdbc type in a real (non-sentinel) map; the jdbc-only map is untouched |
| TypeHandlerRegistry.AfterRegisterAsWritten | src/main/java/org/apache/ibatis/type/TypeHandlerRegistry.java:347-358 | the registration as written keeps the registry consistent and records the handler by its class |
| TypeHandlerRegistry.RegisterThenLookup | src/main/java/org/apache/ibatis/type/TypeHandlerRegistry.java:347-358 | after registering (t, jdbc, h), looking up t finds its map, changes nothing, and resolves jdbc to h |
| TypeHandlerRegistry.RegisterAllContents | src/main/java/org/apache/ibatis/type/TypeHandlerRegistry.java:323-335 | for the corrected registration: registering under several jdbc keys gives the type a map of its own, not the sentinel, holding the handler under every key |
| TypeHandlerRegistry.MappedRegistration | src/main/java/org/apache/ibatis/type/TypeHandlerRegistry.java:323-335 | for the corrected registration: without @MappedJdbcTypes the handler goes under the null jdbc type; with it, under each listed type, plus null iff includeNullJdbcType |
| TypeHandlerRegistry.RegisterAllAsWritten | src/main/java/org/apache/ibatis/type/TypeHandlerRegistry.java:323-335 | the fold of the as-written registration over the jdbc keys keeps the registry consistent and, for at least one key, records the handler by its class |
| TypeHandlerRegistry.MappedRegistrationAfterFailedLookupLost | src/main/java/org/apache/ibatis/type/TypeHandlerRegistry.java:323-335 | counterexample through `register(Type, TypeHandler)` as written: after a failed lookup of com.example.Money, a handler without @MappedJdbcTypes lands in the shared sentinel and Money stays unresolved; the corrected fold resolves it |
| TypeHandlerRegistry.RegisterAfterFailedLookupLost | src/main/java/org/apache/ibatis/type/TypeHandlerRegistry.java:347-358 | counterexample: after a failed lookup of com.example.Money, registering its handler as written leaves it unresolvable and writes into the shared sentinel; the corrected registration resolves it |
| TypeHandlerRegistry.TypeHandlerRegistry.RegisterJdbcType | src/main/java/org/apache/ibatis/type/TypeHandlerRegistry.java:280-282 | only the jdbc-type map gains the handler |
| TypeHandlerRegistry.TypeHandlerRegistry.constructor | src/main/java/org/apache/ibatis/type/TypeHandlerRegistry.java:54 | an empty registry whose NULL sentinel map is empty |
| TypeHandlerRegistry.TypeHandlerRegistry.GetJdbcTypeHandler | src/main/java/org/apache/ibatis/type/TypeHandlerRegistry.java:191-193 | the handler registered for a jdbc type, if any |
| TypeHandlerRegistry.TypeHandlerRegistry.Register | src/main/java/org/apache/ibatis/type/TypeHandlerRegistry.java:347-358 | the corrected registration: the new state is the registry after registering |
| TypeHandlerRegistry.TypeHandlerRegistry.RegisterAsWritten | src/main/java/org/apache/ibatis/type/TypeHandlerRegistry.java:347-358 | the registration as written, sentinel write included |
| TypeHandlerRegistry.TypeHandlerRegistry.RegisterMapped | src/main/java/org/apache/ibatis/type/TypeHandlerRegistry.java:323-335 | the corrected registration under the jdbc keys the annotation gives, in order |
| TypeHandlerRegistry.TypeHandlerRegistry.RegisterMappedAsWritten | src/main/java/org/apache/ibatis/type/TypeHandlerRegistry.java:323-335 | the same keys through the as-written registration, which writes into the sentinel for a type whose lookup failed |
| TypeHandlerRegistry.TypeHandlerRegistry.RegisterEach | src/main/java/org/apache/ibatis/type/TypeHandlerRegistry.java:325-327 | the registry after the corrected registration of the handler under each annotated jdbc type, in the annotation's order |
| TypeHandlerRegistry.TypeHandlerRegistry.RegisterEachAsWritten | src/main/java/org/apache/ibatis/type/TypeHandlerRegistry.java:325-327 | the same loop through the as-written registration |
| TypeHandlerRegistry.TypeHandlerRegistry.GetJdbcHandlerMap | src/main/java/org/apache/ibatis/type/TypeHandlerRegistry.java:225-248 | returns the type's map (own, inherited or none) and stores what it found or the sentinel |
| TypeHandlerRegistry.TypeHandlerRegistry.PickSoleHandler | src/main/java/org/apache/ibatis/type/TypeHandlerRegistry.java:263-274 | a handler iff the map is non-empty and all its handlers share one class, and then one of them |
| TypeHandlerRegistry.TypeHandlerRegistry.GetTypeHandler | src/main/java/org/apache/ibatis/type/TypeHandlerRegistry.java:204-222 | the exact jdbc entry, else the null-jdbc entry, else the sole handler; nothing without a map; found iff the registry resolves it |
| TypeHandlerRegistry.TypeHandlerRegistry.HasTypeHandler | src/main/java/org/apache/ibatis/type/TypeHandlerRegistry.java:170-172 | false for a null java type without any lookup; otherwise true iff the lookup finds a handler |
| LruCache.CycleKeysSpec | src/main/java/org/apache/ibatis/cache/decorators/LruCache.java:96-102 | tracking keeps keys distinct and within capacity; an eldest key is evicted iff the key is new and the tracker is full, and it is then the least recently used one; when the capacity is at least 1 it is never the new key, while at capacity 0 the new key evicts itself |
| LruCache.TouchSpec | src/main/java/org/apache/ibatis/cache/decorators/LruCache.java:74-78 | an access moves a tracked key to the most-recent end and keeps the others in order |
| LruCache.LruCache.constructor | src/main/java/org/apache/ibatis/cache/decorators/LruCache.java:35-38 | an empty tracker of capacity 1024 |
| LruCache.LruCache.GetSize | src/main/java/org/apache/ibatis/cache/decorators/LruCache.java:46-48 | the decorated cache's size |
| LruCache.LruCache.SetSize | src/main/java/org/apache/ibatis/cache/decorators/LruCache.java:50-65 | a negative capacity fails and changes nothing; otherwise a new, empty tracker of that capacity |
| LruCache.LruCache.PutObject | src/main/java/org/apache/ibatis/cache/decorators/LruCache.java:68-71 | writes through, then records the key; an evicted key leaves the decorated cache too |
| LruCache.LruCache.CycleKeyList | src/main/java/org/apache/ibatis/cache/decorators/LruCache.java:96-102 | the tracker cycles the key, the eldest key is removed from the decorated cache, and eldestKey is reset |
| LruCache.LruCache.GetObject | src/main/java/org/apache/ibatis/cache/decorators/LruCache.java:74-78 | touches a tracked key only, and returns the decorated cache's value |
| LruCache.LruCache.RemoveObject | src/main/java/org/apache/ibatis/cache/decorators/LruCache.java:81-83 | removes from the decorated cache only; tracking is unchanged |
| LruCache.LruCache.Clear | src/main/java/org/apache/ibatis/cache/decorators/LruCache.java:86-89 | empties the decorated cache and the tracker |
| SoftCache.PushHardLinkSpec | src/main/java/org/apache/ibatis/cache/decorators/SoftCache.java:83-88 | the value goes to the front, the rest keep their order, the tail is dropped iff over the bound, and a size within the bound stays within |
| SoftCache.QueueKeysReclaimed | src/main/java/org/apache/ibatis/cache/decorators/SoftCache.java:114-119 | every stored key among the dequeued ones has a reclaimed referent |
| SoftCache.SoftCache.constructor | src/main/java/org/apache/ibatis/cache/decorators/SoftCache.java:43-48 | no hard links, an empty queue, and the bound 256 |
| SoftCache.SoftCache.RemoveGarbageCollectedItems | src/main/java/org/apache/ibatis/cache/decorators/SoftCache.java:114-119 | the loop removes exactly the dequeued keys, only keys whose value was reclaimed, and empties the queue |
| SoftCache.SoftCache.GetSize | src/main/java/org/apache/ibatis/cache/decorators/SoftCache.java:56-59 | drains first, then the decorated cache's size |
| SoftCache.SoftCache.SetSize | src/main/java/org/apache/ibatis/cache/decorators/SoftCache.java:62-64 | changes only the hard-link bound |
| SoftCache.SoftCache.PutObject | src/main/java/org/apache/ibatis/cache/decorators/SoftCache.java:67-70 | drains, then stores a fresh soft entry for the value; a null value gives an entry with no referent, which the next read removes as reclaimed |
| SoftCache.SoftCache.GetObject | src/main/java/org/apache/ibatis/cache/decorators/SoftCache.java:73-92 | absent: null and nothing changes; reclaimed: null and the key is removed; live: the value, pushed onto the hard links |
| SoftCache.SoftCache.RemoveObject | src/main/java/org/apache/ibatis/cache/decorators/SoftCache.java:95-98 | drains, then removes the key and returns its entry |
| SoftCache.SoftCache.Clear | src/main/java/org/apache/ibatis/cache/decorators/SoftCache.java:101-107 | empties the hard links, the queue and the decorated cache |
| TransactionalCache.CommittedLookup | src/main/java/org/apache/ibatis/cache/decorators/TransactionalCache.java:109-116 | after commit a key reads as its staged value, else null if it was missed or the cache was cleared, else as before |
| TransactionalCache.CommitReleasesMissed | src/main/java/org/apache/ibatis/cache/decorators/TransactionalCache.java:131-142 | a commit writes every missed key exactly once and only puts, so a blocking delegate releases every lock taken by a miss |
| TransactionalCache.TransactionalCache.constructor | src/main/java/org/apache/ibatis/cache/decorators/TransactionalCache.java:54-59 | nothing staged, nothing missed, no clear pending |
| TransactionalCache.TransactionalCache.GetObject | src/main/java/org/apache/ibatis/cache/decorators/TransactionalCache.java:72-85 | a miss is recorded iff the delegate holds null; the result is null whenever a clear is pending |
| TransactionalCache.TransactionalCache.PutObject | src/main/java/org/apache/ibatis/cache/decorators/TransactionalCache.java:94-96 | only stages the entry |
| TransactionalCache.TransactionalCache.RemoveObject | src/main/java/org/apache/ibatis/cache/decorators/TransactionalCache.java:99-101 | returns null and changes nothing |
| TransactionalCache.TransactionalCache.Clear | src/main/java/org/apache/ibatis/cache/decorators/TransactionalCache.java:104-107 | sets the clear flag and drops the staged entries, delegate untouched |
| TransactionalCache.TransactionalCache.Commit | src/main/java/org/apache/ibatis/cache/decorators/TransactionalCache.java:109-116 | clears the delegate iff flagged, then puts every staged entry, then a null for each missed key not staged, and resets |
| TransactionalCache.TransactionalCache.Rollback | src/main/java/org/apache/ibatis/cache/decorators/TransactionalCache.java:118-123 | one removeObject per missed key even when some throw, then reset |
| TransactionalCache.TransactionalCache.Reset | src/main/java/org/apache/ibatis/cache/decorators/TransactionalCache.java:125-129 | clears the flag, the staged entries and the missed keys |
| TransactionalCache.TransactionalCache.FlushPendingEntries | src/main/java/org/apache/ibatis/cache/decorators/TransactionalCache.java:131-142 | the staged puts, then the null puts for missed keys not staged |
| TransactionalCache.TransactionalCache.PutAll | src/main/java/org/apache/ibatis/cache/decorators/TransactionalCache.java:133-135 | the loop puts each entry exactly once and the delegate gains them all |
| TransactionalCache.PutEntries | src/main/java/org/apache/ibatis/cache/decorators/TransactionalCache.java:133-135 | the writes are one put per entry of the map, each key once and nothing else, and the delegate becomes the old one overridden by the map |
| TransactionalCache.RemoveEntries | src/main/java/org/apache/ibatis/cache/decorators/TransactionalCache.java:144-153 | one removal per missed key, each once and nothing else; the delegate loses exactly the missed keys whose removal does not throw |
| TransactionalCache.TransactionalCache.UnlockMissedEntries | src/main/java/org/apache/ibatis/cache/decorators/TransactionalCache.java:144-153 | one removal attempt per missed key; the keys whose removal does not throw leave the delegate |
| BaseExecutor.NonOut | src/main/java/org/apache/ibatis/executor/BaseExecutor.java:227-228 | every kept mapping is a non-OUT mapping of the input, and every non-OUT mapping is kept |
| BaseExecutor.NonOutConcat | src/main/java/org/apache/ibatis/executor/BaseExecutor.java:227-228 | the filter distributes over concatenation, so the kept mappings stay in declaration order |
| BaseExecutor.ParameterValuesOfNonOut | src/main/java/org/apache/ibatis/executor/BaseExecutor.java:227-243 | one value per non-OUT mapping, in declaration order: the additional parameter, null, the parameter object when it has a type handler, or its property |
| BaseExecutor.CacheKeyLayout | src/main/java/org/apache/ibatis/executor/BaseExecutor.java:219-248 | the key is statement id, offset, limit, SQL, the non-OUT parameter values in order, then the environment id if there is one |
| BaseExecutor.PlaceholderBlocksLoad | src/main/java/org/apache/ibatis/executor/BaseExecutor.java:408-410 | while a placeholder is stored, isCached is true and canLoad is false |
| BaseExecutor.LoadEffectsInOrder | src/main/java/org/apache/ibatis/executor/BaseExecutor.java:177-179 | deferred loads take effect one per queued load, in queue order |
| BaseExecutor.OutputCopiesSpec | src/main/java/org/apache/ibatis/executor/BaseExecutor.java:338-344 | each copy goes from the cached parameter to the parameter for a non-IN mapping's property, and every non-IN mapping has its copy |
| BaseExecutor.OutputCopiesConcat | src/main/java/org/apache/ibatis/executor/BaseExecutor.java:338-344 | the copies of a concatenation are the copies of each part in turn, so they follow declaration order |
| BaseExecutor.Executor.constructor | src/main/java/org/apache/ibatis/executor/BaseExecutor.java:69-77 | open, with a transaction, empty caches and queue, and no nesting |
| BaseExecutor.Executor.ClearLocalCache | src/main/java/org/apache/ibatis/executor/BaseExecutor.java:292-297 | empties both local caches |
| BaseExecutor.Executor.Update | src/main/java/org/apache/ibatis/executor/BaseExecutor.java:115-123 | closed: fails with "Executor was closed."; otherwise clears both local caches before doUpdate and returns its count or passes on its exception |
| BaseExecutor.Executor.FlushStatements | src/main/java/org/apache/ibatis/executor/BaseExecutor.java:133-139 | closed: fails; otherwise delegates to doFlushStatements and returns its results or passes on its exception |
| BaseExecutor.Executor.Commit | src/main/java/org/apache/ibatis/executor/BaseExecutor.java:260-271 | closed: fails with the commit message; otherwise clears both caches and flushes; a failed flush is passed on without committing, otherwise it commits iff required |
| BaseExecutor.Executor.Rollback | src/main/java/org/apache/ibatis/executor/BaseExecutor.java:275-286 | when open, clears both caches, flushes as a rollback, and rolls back iff required even when that flush failed, whose failure is then passed on |
| BaseExecutor.Executor.Close | src/main/java/org/apache/ibatis/executor/BaseExecutor.java:88-107 | rolls back if open, closes any transaction whatever the rollback's flush did, and ends closed with everything dropped |
| BaseExecutor.Executor.IsCached | src/main/java/org/apache/ibatis/executor/BaseExecutor.java:255-257 | whether the key is in the local cache (placeholder included); the dropped cache of a closed executor is an error |
| BaseExecutor.Executor.CanLoadKey | src/main/java/org/apache/ibatis/executor/BaseExecutor.java:408-410 | true iff the key holds a real result, not the placeholder |
| BaseExecutor.Executor.DeferLoad | src/main/java/org/apache/ibatis/executor/BaseExecutor.java:198-211 | closed: fails; loads at once iff canLoad; otherwise appends exactly one deferred load |
| BaseExecutor.UpdateWithParameters | src/main/java/org/apache/ibatis/executor/BaseExecutor.java:227-243 | the loop appends exactly the parameter values of the specified layout, one per non-OUT mapping in order |
| BaseExecutor.Executor.CreateCacheKey | src/main/java/org/apache/ibatis/executor/BaseExecutor.java:215-249 | closed: fails; otherwise the loop builds the key of the specified layout |
| BaseExecutor.Executor.HandleLocallyCachedOutputParameters | src/main/java/org/apache/ibatis/executor/BaseExecutor.java:332-347 | for a callable statement with a cached and a given parameter, the output copies; nothing otherwise |
| BaseExecutor.Executor.LoadDeferred | src/main/java/org/apache/ibatis/executor/BaseExecutor.java:177-179 | loads the queue in order up to the first load whose key holds a placeholder, which fails as a bad cast |
| BaseExecutor.Executor.QueryEnter | src/main/java/org/apache/ibatis/executor/BaseExecutor.java:153-164 | closed: fails; at depth 0 with flushCache clears both caches; a result handler bypasses the lookup; a placeholder hit fails as a bad cast; otherwise the depth grows by one and a hit is returned |
| BaseExecutor.Executor.QueryFromDatabaseBegin | src/main/java/org/apache/ibatis/executor/BaseExecutor.java:352 | stores the placeholder, so the key is cached but not loadable |
| BaseExecutor.Executor.QueryFromDatabaseEnd | src/main/java/org/apache/ibatis/executor/BaseExecutor.java:353-362 | a failed doQuery leaves the key absent; a successful one stores the list, and the parameter for a callable statement |
| BaseExecutor.Executor.QueryLeave | src/main/java/org/apache/ibatis/executor/BaseExecutor.java:172-187 | the depth drops by one; back at depth 0 after completion, every deferred load is loaded in order, then the queue is emptied and the caches are cleared under STATEMENT scope |
| BaseExecutor.Executor.Query | src/main/java/org/apache/ibatis/executor/BaseExecutor.java:151-189 | the depth is unchanged whether the query returns or fails; the outermost query of a flushCache statement starts from empty local caches; a placeholder hit fails; a hit returns the cached list after the callable statement's output copies; a miss caches the database result, and the parameter for a callable statement, or, on failure, removes the key; back at depth 0, after a hit or a miss, every deferred load is loaded in order, and the first placeholder stops with its key and leaves both caches and the queue as they were, otherwise the queue is emptied and STATEMENT scope clears both caches |
| BatchExecutor.BatchUpdateReturnValueIs | src/main/java/org/apache/ibatis/executor/BatchExecutor.java:43 | the update return value is Integer.MIN_VALUE + 1002, a 32-bit value |
| BatchExecutor.FailureMessageSpec | src/main/java/org/apache/ibatis/executor/BatchExecutor.java:147-160 | the message starts with the statement id and the 1-based batch index, and is the bare failure message exactly for the first batch (no prior batches to mention) |
| BatchExecutor.AllParametersAddToLast | src/main/java/org/apache/ibatis/executor/BatchExecutor.java:66-74 | adding to the last group extends the flattened parameters by that parameter |
| BatchExecutor.Completed | src/main/java/org/apache/ibatis/executor/BatchExecutor.java:127-145 | the completed results are the groups before the failure, each with its update counts |
| BatchExecutor.FirstFailure | src/main/java/org/apache/ibatis/executor/BatchExecutor.java:127-164 | the index of the first batch whose execution fails, or the count if none does |
| BatchExecutor.FlushResultAt | src/main/java/org/apache/ibatis/executor/BatchExecutor.java:127-164 | with the first failing index known: success with all results, a batch exception at that index, or the SQL failure passed on; executeBatch runs up to and including that batch |
| BatchExecutor.FlushResultSpec | src/main/java/org/apache/ibatis/executor/BatchExecutor.java:127-164 | a flush succeeds iff every batch executes, and then returns the groups in statement order with their counts |
| BatchExecutor.FlushOutcome | src/main/java/org/apache/ibatis/executor/BatchExecutor.java:127-164 | a flush fails iff some batch fails; when none does, executeBatch is called once per statement in order |
| BatchExecutor.FlushFailureSpec | src/main/java/org/apache/ibatis/executor/BatchExecutor.java:147-160 | when batch k fails, the exception carries the results of batches 0..k-1, the failing batch, and the message for index k+1 |
| BatchExecutor.FlushKeepsEveryParameter | src/main/java/org/apache/ibatis/executor/BatchExecutor.java:127-164 | a successful flush reports every parameter batched, in order |
| BatchExecutor.CompletedParameters | src/main/java/org/apache/ibatis/executor/BatchExecutor.java:127-145 | the batches completed before a failure report exactly the parameters batched into them, in order |
| BatchExecutor.BatchExecutor.constructor | src/main/java/org/apache/ibatis/executor/BatchExecutor.java:54-56 | no statements, no results, no current SQL |
| BatchExecutor.BatchExecutor.DoUpdate | src/main/java/org/apache/ibatis/executor/BatchExecutor.java:59-89 | same SQL and statement: the parameter joins the last group with no new statement; otherwise a new statement (the next handle) and group; current SQL and statement updated; returns the batch value |
| BatchExecutor.BatchExecutor.JoinBatch | src/main/java/org/apache/ibatis/executor/BatchExecutor.java:66-74 | the parameter joins the last group and is batched on the last statement; nothing else changes and the batch stays well formed |
| BatchExecutor.BatchExecutor.OpenBatch | src/main/java/org/apache/ibatis/executor/BatchExecutor.java:75-85 | a new statement is prepared and batched, its group opened with the parameter, and the current SQL and statement become this one's |
| BatchExecutor.BatchExecutor.DoFlushStatements | src/main/java/org/apache/ibatis/executor/BatchExecutor.java:120-174 | a rollback returns an empty list; otherwise the flush result; every statement is closed and both lists and the current SQL are cleared in every case |
| BatchExecutor.ExecuteAll | src/main/java/org/apache/ibatis/executor/BatchExecutor.java:127-164 | the loop executes batches until the first failure, returns the specified flush result, and reports executeBatch calls up to and including the failing one |
| BatchExecutor.BatchExecutor.CloseAll | src/main/java/org/apache/ibatis/executor/BatchExecutor.java:166-168 | closes every statement in order |
| BatchExecutor.BatchExecutor.DoQuery | src/main/java/org/apache/ibatis/executor/BatchExecutor.java:92-106 | flushes every pending batch before running the query; a failed flush fails the query with the flush's error after executing up to the failing batch and closing every statement; otherwise one new statement runs the query and is closed |

## Left out

- JDBC, transactions, logging and key generation (`processBatch`, `processAfter` and `applyTransactionTimeout` included) are abstract. They appear only as recorded calls or as parameters (`executeBatch`, the `doQuery` outcome).
- `MetaObject`, `ResultExtractor`, `ObjectFactory` and the `SqlSession` dispatch in `execute` are not modelled. Property reads are a parameter, property writes are recorded effects, `isCollection` is an input, and a session call's answer is an input.
- `BlockingCache` locking is not modelled. It is seen only through the trace of delegate calls `TransactionalCache` makes.
- `SimpleStatementHandler` and the JDBC plumbing behind `BatchExecutor` are modelled as opaque statement handles.
- Java reflection is not modelled: `getDeclaredMethods`, `setAccessible`, the security manager and `typeToClass`:
  - classes, methods and fields are given as data;
  - the method-to-property naming rule is a parameter;
  - `TypeParameterResolver` is left out, so declared types are used as resolved types.
- `Reflector.addDefaultConstructor`, `getDefaultConstructor` and `hasDefaultConstructor` are not modelled, because constructors play no part in property resolution.
- `Reflector.NewReflector` does not restate the most-specific choice for each property. That is stated on `ResolveGetter`, `ResolveGetterConflicts` and `ResolveSetterConflicts`, which it calls.
- `Reflector.ResolveGetters`, `Reflector.ResolveMethods` and `Reflector.NewReflector` state success under comparable getters, but not the converse. Java compares each getter only with the current winner, so it can succeed even when two getters are unrelated: with types A, C, B and C a subtype of both A and B, C wins.
- The built-in `TypeHandlerRegistry` registrations are not modelled; the model starts from an empty registry. Also left out: `register(TypeHandler)` and `register(Class)`, which read annotations by reflection (the annotation data is an input instead), `getInstance` construction, `Resources.classForName` and package scanning.
- The NULL sentinel is modelled as one per registry rather than one static map shared across registries.
- The real garbage collector is replaced by the `Collect` oracle. `synchronized` blocks and the concurrency of the JDK collections are dropped; they are treated as sequential collections.
- `SoftCache.SoftCache.Collect` clears a referent and enqueues its entry in one step. The JVM may clear first and enqueue later. In between, `getObject` can remove the key and `putObject` store a new value under it, and the later drain then removes that live value (SoftCache.java:114-119). `SoftCache.QueueKeysReclaimed` and the "only reclaimed keys" part of `SoftCache.SoftCache.RemoveGarbageCollectedItems` hold only for this atomic collector.
- `SoftCache.SoftCache.RemoveObject` returns the removed entry's identity rather than the soft reference object itself.
- `TransactionalCache.TransactionalCache.Rollback`: which delegate removals throw is given as the set `failing`, since it depends on the delegate.
- `LruCache` null keys are not modelled, because Dafny maps have no null key.
- The `CacheKey` hash and multiplier, `PerpetualCache` and `GenericTokenParser` are not modelled. A cache key is the sequence of its components, and a delegate cache is a map.
- Java's `HashMap` iteration order is taken as arbitrary. Properties are processed in a key order supplied by the caller, and the conflict maps are iterated in any order.
- Strings are sequences of characters. `toUpperCase` and digit parsing cover ASCII only.
- `PropertyTokenizer.Next` requires `HasNext`. Java's `next()` without children builds a tokenizer from null and throws a NullPointerException, which is not modelled.
- `ParamNameResolver.NewResolver` takes each parameter's actual name as given (none when unavailable). The ReflectionException `getActualParamName` throws when `Method#getParameters()` cannot be invoked is not modelled.
- `BaseExecutor.Executor.Query` models only a `doQuery` that issues no nested query. Nested queries are expressed through the four phase methods.
- `BaseExecutor.Executor.Commit`, `Rollback` and `Close` model the transaction's `commit`, `rollback` and `close` as always succeeding; only the flush can fail.
- `BaseExecutor.Executor.Close` swallows the rollback's failure as the Java `catch (SQLException)` does; other runtime exceptions are not told apart from it.
- The four-argument `query` (BaseExecutor.java:142-147) has no member of its own. It is `CreateCacheKey` followed by `Query` with that key, and `getBoundSql` is an input.
- `BatchExecutor.BatchExecutor.DoFlushStatements` does not check the closed flag; `BaseExecutor.Executor.FlushStatements` makes that check before delegating.
- `PropertyParser.GetPropertyValue` and `PropertyParser.HandleToken` read `variables` as one flat map. A `java.util.Properties` can carry a defaults chain that `getProperty` consults but `containsKey` does not (PropertyParser.java:62-64, 89-90). That chain is not modelled, so the model matches a `Properties` built without defaults.
- `BatchExecutor.BatchExecutor.DoUpdate` joins the current batch when the SQL and the `MappedStatement` are equal as values, while Java compares the statement by identity (BatchExecutor.java:66). The model takes a `MappedStatement` to be identified by its fields, since the configuration registers one statement per id; two distinct statement objects with equal fields are not told apart.
- `TypeHandlerRegistry.TypeHandlerRegistry.RegisterMapped`, `TypeHandlerRegistry.TypeHandlerRegistry.RegisterEach` and `TypeHandlerRegistry.RegisterAll` (with `RegisterAllContents` and `MappedRegistration`) are built on the corrected registration. After a failed lookup they give the type a fresh map, where Java's `register(Type, TypeHandler)` writes into the shared sentinel. The Java behaviour is modelled by `RegisterMappedAsWritten`, `RegisterEachAsWritten` and `RegisterAllAsWritten`, and exhibited by `MappedRegistrationAfterFailedLookupLost`.
- `queryCursor`, `doQueryCursor`, `getTransaction`, `getId`, `getReadWriteLock`, `convertToArray` and `convertToDeclaredCollection` are not modelled. Each is plumbing beside the core, outside the caching and binding rules.

## Findings

| source | as written | input that shows it | evidently intended | confidence | as-written member | corrected member |
|---|---|---|---|---|---|---|
| src/main/java/org/apache/ibatis/type/TypeHandlerRegistry.java:347-358 | after a failed lookup has stored the shared NULL sentinel for a type, `register(type, jdbc, h)` reads that sentinel as the type's map (it is not null) and puts the handler into it; the type still maps to the sentinel, which the lookup treats as "no handler", and the sentinel now holds the handler for every type that ever failed a lookup | lookup of `ClassType(Leaf("com.example.Money", Some(ObjectClass)))` (no handler, stores the sentinel), then registering `TypeHandler("com.example.MoneyTypeHandler", 1)` for it with a null jdbc type | a sentinel entry is treated like a missing one, so registration allocates a fresh map for the type and the handler is found afterwards | not executed | TypeHandlerRegistry.RegisterAfterFailedLookupLost | TypeHandlerRegistry.RegisterThenLookup |
