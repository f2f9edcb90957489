/**
 * Reflector: the per-class cache of property accessors. It gathers the methods of a class and
 * its supertypes (one per signature, subclass first), resolves overloaded getters and setters,
 * falls back to fields, and answers lookups by property name.
 */
module Reflector {
  import opened Wrappers
  import opened Text
  import opened JavaTypes

  /** A method as reflection reports it; `id` tells apart methods that are otherwise alike. */
  datatype JMethod = JMethod(
    name: string,
    returnType: JavaClass,
    parameterTypes: seq<JavaClass>,
    isBridge: bool,
    declaringClass: string,
    id: nat)

  /** A declared field; `accessible` is whether it was (or could be made) accessible. */
  datatype JField = JField(name: string, fieldType: JavaClass, isFinal: bool, isStatic: bool, accessible: bool)

  /**
   * One class of the hierarchy being reflected: its declared methods, the methods of each
   * interface it implements, and its declared fields.
   */
  datatype ClassDecl = ClassDecl(
    cls: JavaClass,
    declaredMethods: seq<JMethod>,
    interfaceMethods: seq<seq<JMethod>>,
    declaredFields: seq<JField>)

  datatype Invoker = MethodInvoker(invoked: JMethod) | SetFieldInvoker(setField: JField) | GetFieldInvoker(getField: JField)

  datatype ReflectionError =
    | AmbiguousGetter(propName: string, declaringClass: string)
    | AmbiguousSetter(propName: string, declaringClass: string, type1: string, type2: string)
    | NoSetter(propName: string, typeName: string)
    | NoGetter(propName: string, typeName: string)

  /** `isValidPropertyName` */
  predicate IsValidPropertyName(name: string) {
    !(StartsWith(name, "$") || name == "serialVersionUID" || name == "class")
  }

  // ---------------------------------------------------------------------------------------
  // Method signatures

  function TypeNames(ts: seq<JavaClass>): (r: seq<string>)
    ensures |r| == |ts| && forall i :: 0 <= i < |ts| ==> r[i] == ts[i].name
  {
    seq(|ts|, i requires 0 <= i < |ts| => ts[i].name)
  }

  /** The parameter part of a signature: empty, or ':' and the type names separated by ','. */
  function ParamsSuffix(ts: seq<JavaClass>): string {
    if |ts| == 0 then "" else ":" + Join(",", TypeNames(ts))
  }

  /** The signature `returnType#name:p1,p2,...` that tells methods apart. */
  function Signature(m: JMethod): string {
    m.returnType.name + "#" + m.name + ParamsSuffix(m.parameterTypes)
  }

  /** Joining one more part. */
  lemma {:induction false} JoinSnoc(sep: string, parts: seq<string>, last: string)
    requires |parts| > 0
    ensures Join(sep, parts + [last]) == Join(sep, parts) + sep + last
  {
    if |parts| == 1 {
      assert (parts + [last])[1..] == [last];
    } else {
      assert (parts + [last])[1..] == parts[1..] + [last];
      JoinSnoc(sep, parts[1..], last);
    }
  }

  /** One more parameter type in the signature's parameter part. */
  lemma ParamsSuffixSnoc(ts: seq<JavaClass>, t: JavaClass)
    ensures ParamsSuffix(ts + [t]) == ParamsSuffix(ts) + (if |ts| == 0 then ":" else ",") + t.name
  {
    assert TypeNames(ts + [t]) == TypeNames(ts) + [t.name];
    if |ts| > 0 {
      JoinSnoc(",", TypeNames(ts), t.name);
    }
  }

  /** `getSignature`, appending to a buffer as the source's StringBuilder does. */
  method GetSignature(m: JMethod) returns (s: string)
    ensures s == Signature(m)
  {
    var head := m.returnType.name + "#" + m.name;
    var sb := head;
    var parameters := m.parameterTypes;
    var i := 0;
    while i < |parameters|
      invariant 0 <= i <= |parameters|
      invariant sb == head + ParamsSuffix(parameters[..i])
    {
      var sep := if i == 0 then ":" else ",";
      SignatureStep(head, parameters, i);
      sb := sb + sep + parameters[i].name;
      i := i + 1;
    }
    assert parameters[..i] == parameters;
    return sb;
  }

  /** One iteration of the GetSignature loop. */
  lemma SignatureStep(head: string, parameters: seq<JavaClass>, i: nat)
    requires i < |parameters|
    ensures head + ParamsSuffix(parameters[..i]) + (if i == 0 then ":" else ",") + parameters[i].name ==
      head + ParamsSuffix(parameters[..i + 1])
  {
    ParamsSuffixSnoc(parameters[..i], parameters[i]);
    assert parameters[..i + 1] == parameters[..i] + [parameters[i]];
    ConcatAssoc(head, ParamsSuffix(parameters[..i]), if i == 0 then ":" else ",", parameters[i].name);
  }

  lemma ConcatAssoc(a: string, b: string, c: string, d: string)
    ensures a + b + c + d == a + (b + c + d)
  {
  }

  /** Characters that never occur in Java class and method names. */
  predicate PlainName(s: string) {
    '#' !in s && ':' !in s && ',' !in s
  }

  /** Splitting at the first occurrence of c is unambiguous. */
  lemma SplitAtFirst(x1: string, y1: string, x2: string, y2: string, c: char)
    requires c !in x1 && c !in x2
    requires |y1| == 0 || y1[0] == c
    requires |y2| == 0 || y2[0] == c
    requires x1 + y1 == x2 + y2
    ensures x1 == x2 && y1 == y2
  {
    assert x1 == (x1 + y1)[..|x1|];
    assert x2 == (x2 + y2)[..|x2|];
  }

  /** Parts free of the separator character are recovered from their join. */
  lemma {:induction false} JoinInjective(c: char, a: seq<string>, b: seq<string>)
    requires |a| > 0 && |b| > 0
    requires forall i :: 0 <= i < |a| ==> c !in a[i]
    requires forall i :: 0 <= i < |b| ==> c !in b[i]
    requires Join([c], a) == Join([c], b)
    ensures a == b
  {
    var ta := if |a| == 1 then "" else [c] + Join([c], a[1..]);
    var tb := if |b| == 1 then "" else [c] + Join([c], b[1..]);
    assert Join([c], a) == a[0] + ta;
    assert Join([c], b) == b[0] + tb;
    SplitAtFirst(a[0], ta, b[0], tb, c);
    if |a| > 1 && |b| > 1 {
      assert Join([c], a[1..]) == ta[1..] == tb[1..] == Join([c], b[1..]);
      JoinInjective(c, a[1..], b[1..]);
      assert a == [a[0]] + a[1..] && b == [b[0]] + b[1..];
    }
  }

  /** Methods with plain names share a signature only if they agree on all its components. */
  lemma SignatureDeterminesComponents(m1: JMethod, m2: JMethod)
    requires PlainName(m1.returnType.name) && PlainName(m1.name)
    requires PlainName(m2.returnType.name) && PlainName(m2.name)
    requires forall i :: 0 <= i < |m1.parameterTypes| ==> PlainName(m1.parameterTypes[i].name)
    requires forall i :: 0 <= i < |m2.parameterTypes| ==> PlainName(m2.parameterTypes[i].name)
    requires Signature(m1) == Signature(m2)
    ensures m1.returnType.name == m2.returnType.name && m1.name == m2.name
    ensures TypeNames(m1.parameterTypes) == TypeNames(m2.parameterTypes)
  {
    var t1 := ParamsSuffix(m1.parameterTypes);
    var t2 := ParamsSuffix(m2.parameterTypes);
    var rest1 := m1.name + t1;
    var rest2 := m2.name + t2;
    assert Signature(m1) == m1.returnType.name + ("#" + rest1);
    assert Signature(m2) == m2.returnType.name + ("#" + rest2);
    SplitAtFirst(m1.returnType.name, "#" + rest1, m2.returnType.name, "#" + rest2, '#');
    assert rest1 == ("#" + rest1)[1..];
    assert rest2 == ("#" + rest2)[1..];
    SplitAtFirst(m1.name, t1, m2.name, t2, ':');
    ParamsSuffixInjective(m1.parameterTypes, m2.parameterTypes);
  }

  /** The parameter part of a signature determines the parameter type names. */
  lemma ParamsSuffixInjective(ts1: seq<JavaClass>, ts2: seq<JavaClass>)
    requires forall i :: 0 <= i < |ts1| ==> PlainName(ts1[i].name)
    requires forall i :: 0 <= i < |ts2| ==> PlainName(ts2[i].name)
    requires ParamsSuffix(ts1) == ParamsSuffix(ts2)
    ensures TypeNames(ts1) == TypeNames(ts2)
  {
    if |ts1| > 0 && |ts2| > 0 {
      assert ParamsSuffix(ts1)[1..] == Join(",", TypeNames(ts1));
      assert ParamsSuffix(ts2)[1..] == Join(",", TypeNames(ts2));
      JoinInjective(',', TypeNames(ts1), TypeNames(ts2));
    }
  }

  // ---------------------------------------------------------------------------------------
  // Collecting the methods of the hierarchy, one per signature

  /** Adding one method: bridge methods and already-known signatures are skipped. */
  function AddUnique(unique: map<string, JMethod>, m: JMethod): map<string, JMethod> {
    if m.isBridge || Signature(m) in unique then unique else unique[Signature(m) := m]
  }

  /** The map after adding the methods in order. */
  function UniqueSpec(unique: map<string, JMethod>, methods: seq<JMethod>): map<string, JMethod>
    decreases |methods|
  {
    if |methods| == 0 then unique else UniqueSpec(AddUnique(unique, methods[0]), methods[1..])
  }

  lemma {:induction false} UniqueSpecConcat(unique: map<string, JMethod>, a: seq<JMethod>, b: seq<JMethod>)
    ensures UniqueSpec(unique, a + b) == UniqueSpec(UniqueSpec(unique, a), b)
    decreases |a|
  {
    if |a| > 0 {
      assert (a + b)[1..] == a[1..] + b;
      UniqueSpecConcat(AddUnique(unique, a[0]), a[1..], b);
    } else {
      assert a + b == b;
    }
  }

  /** Method j is not a bridge and no earlier non-bridge method has its signature. */
  predicate FirstOfSignature(methods: seq<JMethod>, j: int)
    requires 0 <= j < |methods|
  {
    !methods[j].isBridge &&
    forall i :: 0 <= i < j && !methods[i].isBridge ==> Signature(methods[i]) != Signature(methods[j])
  }

  /**
   * What `addUniqueMethods` keeps: known signatures are untouched, every non-bridge signature is
   * present, and a new signature maps to the first method that has it.
   */
  lemma UniqueSpecFirstWins(unique: map<string, JMethod>, methods: seq<JMethod>)
    ensures var r := UniqueSpec(unique, methods);
      (forall k :: k in unique ==> k in r && r[k] == unique[k]) &&
      (forall j :: 0 <= j < |methods| && !methods[j].isBridge ==> Signature(methods[j]) in r) &&
      (forall j :: 0 <= j < |methods| && FirstOfSignature(methods, j) && Signature(methods[j]) !in unique ==>
        r[Signature(methods[j])] == methods[j]) &&
      (forall k :: k in r && k !in unique ==>
        exists j :: 0 <= j < |methods| && FirstOfSignature(methods, j) && Signature(methods[j]) == k)
  {
    UniqueSpecKeeps(unique, methods);
    UniqueSpecCovers(unique, methods);
    UniqueSpecFirst(unique, methods);
    UniqueSpecOnly(unique, methods);
  }

  /** Entries present before are kept. */
  lemma {:induction false} UniqueSpecKeeps(unique: map<string, JMethod>, methods: seq<JMethod>)
    ensures var r := UniqueSpec(unique, methods);
      forall k :: k in unique ==> k in r && r[k] == unique[k]
    decreases |methods|
  {
    if |methods| > 0 {
      UniqueSpecKeeps(AddUnique(unique, methods[0]), methods[1..]);
    }
  }

  /** Every non-bridge method's signature is present. */
  lemma {:induction false} UniqueSpecCovers(unique: map<string, JMethod>, methods: seq<JMethod>)
    ensures var r := UniqueSpec(unique, methods);
      forall j :: 0 <= j < |methods| && !methods[j].isBridge ==> Signature(methods[j]) in r
    decreases |methods|
  {
    if |methods| > 0 {
      var u1 := AddUnique(unique, methods[0]);
      var rest := methods[1..];
      UniqueSpecCovers(u1, rest);
      UniqueSpecKeeps(u1, rest);
      var r := UniqueSpec(unique, methods);
      assert r == UniqueSpec(u1, rest);
      forall j | 0 <= j < |methods| && !methods[j].isBridge
        ensures Signature(methods[j]) in r
      {
        if j == 0 {
          assert Signature(methods[0]) in u1;
        } else {
          assert rest[j - 1] == methods[j];
          assert 0 <= j - 1 < |rest| && !rest[j - 1].isBridge;
        }
      }
    }
  }

  /** The first method with a signature not yet present is the one kept for it. */
  lemma {:induction false} UniqueSpecFirst(unique: map<string, JMethod>, methods: seq<JMethod>)
    ensures var r := UniqueSpec(unique, methods);
      forall j :: 0 <= j < |methods| && FirstOfSignature(methods, j) && Signature(methods[j]) !in unique ==>
        Signature(methods[j]) in r && r[Signature(methods[j])] == methods[j]
    decreases |methods|
  {
    if |methods| > 0 {
      var u1 := AddUnique(unique, methods[0]);
      var rest := methods[1..];
      UniqueSpecFirst(u1, rest);
      UniqueSpecKeeps(u1, rest);
      var r := UniqueSpec(unique, methods);
      forall j | 0 <= j < |methods| && FirstOfSignature(methods, j) && Signature(methods[j]) !in unique
        ensures Signature(methods[j]) in r && r[Signature(methods[j])] == methods[j]
      {
        assert r == UniqueSpec(u1, rest);
        if j > 0 {
          assert rest[j - 1] == methods[j];
          assert FirstOfSignature(rest, j - 1);
          assert Signature(methods[j]) !in u1 by {
            assert !methods[0].isBridge ==> Signature(methods[0]) != Signature(methods[j]);
          }
        } else {
          assert Signature(methods[0]) in u1 && u1[Signature(methods[0])] == methods[0];
        }
      }
    }
  }

  /** Being first of its signature in the tail carries over when the head has another signature. */
  lemma FirstOfSignatureShift(methods: seq<JMethod>, j: int)
    requires 0 <= j < |methods| - 1 && FirstOfSignature(methods[1..], j)
    requires methods[0].isBridge || Signature(methods[0]) != Signature(methods[j + 1])
    ensures FirstOfSignature(methods, j + 1) && Signature(methods[j + 1]) == Signature(methods[1..][j])
  {
    forall i | 0 < i < j + 1 && !methods[i].isBridge
      ensures Signature(methods[i]) != Signature(methods[j + 1])
    {
      assert methods[i] == methods[1..][i - 1];
    }
  }

  /** Every new entry is the first method with its signature. */
  lemma {:induction false} UniqueSpecOnly(unique: map<string, JMethod>, methods: seq<JMethod>)
    ensures var r := UniqueSpec(unique, methods);
      forall k :: k in r && k !in unique ==>
        exists j :: 0 <= j < |methods| && FirstOfSignature(methods, j) && Signature(methods[j]) == k
    decreases |methods|
  {
    if |methods| > 0 {
      var u1 := AddUnique(unique, methods[0]);
      var rest := methods[1..];
      UniqueSpecOnly(u1, rest);
      var r := UniqueSpec(unique, methods);
      forall k | k in r && k !in unique
        ensures exists j :: 0 <= j < |methods| && FirstOfSignature(methods, j) && Signature(methods[j]) == k
      {
        if k in u1 {
          assert FirstOfSignature(methods, 0) && Signature(methods[0]) == k;
        } else {
          var j :| 0 <= j < |rest| && FirstOfSignature(rest, j) && Signature(rest[j]) == k;
          assert methods[0].isBridge || Signature(methods[0]) != k;
          FirstOfSignatureShift(methods, j);
        }
      }
    }
  }


  /** `addUniqueMethods` */
  method AddUniqueMethods(unique: map<string, JMethod>, methods: seq<JMethod>) returns (r: map<string, JMethod>)
    ensures r == UniqueSpec(unique, methods)
  {
    r := unique;
    var i := 0;
    while i < |methods|
      invariant 0 <= i <= |methods|
      invariant r == UniqueSpec(unique, methods[..i])
    {
      var currentMethod := methods[i];
      UniqueSpecConcat(unique, methods[..i], [currentMethod]);
      assert methods[..i + 1] == methods[..i] + [currentMethod];
      if !currentMethod.isBridge {
        var signature := GetSignature(currentMethod);
        if signature !in r {
          r := r[signature := currentMethod];
        }
      }
      i := i + 1;
    }
    assert methods[..i] == methods;
  }

  function Flatten(groups: seq<seq<JMethod>>): seq<JMethod> {
    if |groups| == 0 then [] else groups[0] + Flatten(groups[1..])
  }

  /** Declared methods, then the interfaces' methods, class by class up the superclass chain. */
  function VisitOrder(hierarchy: seq<ClassDecl>): seq<JMethod> {
    if |hierarchy| == 0 then []
    else hierarchy[0].declaredMethods + Flatten(hierarchy[0].interfaceMethods) + VisitOrder(hierarchy[1..])
  }

  lemma VisitOrderUnfold(hierarchy: seq<ClassDecl>, c: nat)
    requires c < |hierarchy|
    ensures VisitOrder(hierarchy[c..]) ==
      hierarchy[c].declaredMethods + (Flatten(hierarchy[c].interfaceMethods) + VisitOrder(hierarchy[c + 1..]))
  {
    assert hierarchy[c..][1..] == hierarchy[c + 1..];
  }

  lemma FlattenUnfold(groups: seq<seq<JMethod>>, k: nat, rest: seq<JMethod>)
    requires k < |groups|
    ensures Flatten(groups[k..]) + rest == groups[k] + (Flatten(groups[k + 1..]) + rest)
  {
    assert groups[k..][1..] == groups[k + 1..];
  }

  /** `getClassMethods`, as the map of unique methods (the source returns its values). */
  method GetClassMethods(hierarchy: seq<ClassDecl>) returns (uniqueMethods: map<string, JMethod>)
    ensures uniqueMethods == UniqueSpec(map[], VisitOrder(hierarchy))
  {
    uniqueMethods := map[];
    var c := 0;
    while c < |hierarchy|
      invariant 0 <= c <= |hierarchy|
      invariant UniqueSpec(uniqueMethods, VisitOrder(hierarchy[c..])) == UniqueSpec(map[], VisitOrder(hierarchy))
    {
      var currentClass := hierarchy[c];
      var rest := VisitOrder(hierarchy[c + 1..]);
      VisitOrderUnfold(hierarchy, c);
      UniqueSpecConcat(uniqueMethods, currentClass.declaredMethods, Flatten(currentClass.interfaceMethods) + rest);
      uniqueMethods := AddUniqueMethods(uniqueMethods, currentClass.declaredMethods);
      var interfaces := currentClass.interfaceMethods;
      var k := 0;
      while k < |interfaces|
        invariant 0 <= k <= |interfaces|
        invariant UniqueSpec(uniqueMethods, Flatten(interfaces[k..]) + rest) == UniqueSpec(map[], VisitOrder(hierarchy))
      {
        FlattenUnfold(interfaces, k, rest);
        UniqueSpecConcat(uniqueMethods, interfaces[k], Flatten(interfaces[k + 1..]) + rest);
        uniqueMethods := AddUniqueMethods(uniqueMethods, interfaces[k]);
        k := k + 1;
      }
      assert Flatten(interfaces[k..]) + rest == rest;
      c := c + 1;
    }
  }

  /** A method that is first with its signature, and whose signature is new, is the one kept. */
  lemma UniqueSpecFirstAt(unique: map<string, JMethod>, methods: seq<JMethod>, j: nat)
    requires j < |methods| && FirstOfSignature(methods, j) && Signature(methods[j]) !in unique
    ensures Signature(methods[j]) in UniqueSpec(unique, methods)
    ensures UniqueSpec(unique, methods)[Signature(methods[j])] == methods[j]
  {
    UniqueSpecFirstWins(unique, methods);
  }

  lemma FirstOfSignaturePrefix(own: seq<JMethod>, rest: seq<JMethod>, j: nat)
    requires j < |own| && FirstOfSignature(own, j)
    ensures FirstOfSignature(own + rest, j) && (own + rest)[j] == own[j]
  {
    assert forall i :: 0 <= i <= j ==> (own + rest)[i] == own[i];
  }

  /** A method the class itself declares wins over any supertype method with the same signature. */
  lemma SubclassMethodsWin(hierarchy: seq<ClassDecl>, j: nat)
    requires |hierarchy| > 0 && j < |hierarchy[0].declaredMethods|
    requires FirstOfSignature(hierarchy[0].declaredMethods, j)
    ensures Signature(hierarchy[0].declaredMethods[j]) in UniqueSpec(map[], VisitOrder(hierarchy))
    ensures UniqueSpec(map[], VisitOrder(hierarchy))[Signature(hierarchy[0].declaredMethods[j])]
      == hierarchy[0].declaredMethods[j]
  {
    var own := hierarchy[0].declaredMethods;
    FirstOfSignaturePrefix(own, Flatten(hierarchy[0].interfaceMethods) + VisitOrder(hierarchy[1..]), j);
    UniqueSpecFirstAt(map[], VisitOrder(hierarchy), j);
  }

  // ---------------------------------------------------------------------------------------
  // Grouping getters and setters by property name

  /** No method occurs twice. */
  predicate Distinct(methods: seq<JMethod>) {
    forall i, j :: 0 <= i < j < |methods| ==> methods[i] != methods[j]
  }

  /** Distinct keys hold distinct methods. */
  predicate InjectiveValues(uniqueMethods: map<string, JMethod>) {
    forall k1, k2 :: k1 in uniqueMethods && k2 in uniqueMethods && k1 != k2 ==> uniqueMethods[k1] != uniqueMethods[k2]
  }

  /**
   * The unique methods in the (unspecified) order of the map's values: one element per entry,
   * so no method twice when distinct signatures hold distinct methods.
   */
  method MapValues(uniqueMethods: map<string, JMethod>) returns (methods: seq<JMethod>)
    ensures forall k :: k in uniqueMethods ==> uniqueMethods[k] in methods
    ensures forall i :: 0 <= i < |methods| ==> methods[i] in uniqueMethods.Values
    ensures |methods| == |uniqueMethods|
    ensures InjectiveValues(uniqueMethods) ==> Distinct(methods)
  {
    methods := [];
    ghost var keys: seq<string> := [];
    var remaining := uniqueMethods.Keys;
    while remaining != {}
      invariant ValuesListed(uniqueMethods, remaining, keys, methods)
      decreases |remaining|
    {
      var k :| k in remaining;
      ValuesListedStep(uniqueMethods, remaining, keys, methods, k);
      methods := methods + [uniqueMethods[k]];
      keys := keys + [k];
      remaining := remaining - {k};
    }
    ValuesListedDone(uniqueMethods, keys, methods);
  }

  /** The loop of MapValues so far: methods[i] is the value of keys[i], for distinct keys not remaining. */
  ghost predicate ValuesListed(uniqueMethods: map<string, JMethod>, remaining: set<string>, keys: seq<string>, methods: seq<JMethod>) {
    remaining <= uniqueMethods.Keys &&
    |keys| == |methods| == |uniqueMethods.Keys - remaining| &&
    (forall i :: 0 <= i < |keys| ==> keys[i] in uniqueMethods && keys[i] !in remaining && methods[i] == uniqueMethods[keys[i]]) &&
    (forall i, j :: 0 <= i < j < |keys| ==> keys[i] != keys[j]) &&
    (forall k :: k in uniqueMethods && k !in remaining ==> uniqueMethods[k] in methods)
  }

  lemma ValuesListedStep(uniqueMethods: map<string, JMethod>, remaining: set<string>, keys: seq<string>, methods: seq<JMethod>, k: string)
    requires ValuesListed(uniqueMethods, remaining, keys, methods) && k in remaining
    ensures ValuesListed(uniqueMethods, remaining - {k}, keys + [k], methods + [uniqueMethods[k]])
  {
    assert uniqueMethods.Keys - (remaining - {k}) == (uniqueMethods.Keys - remaining) + {k};
  }

  lemma ValuesListedDone(uniqueMethods: map<string, JMethod>, keys: seq<string>, methods: seq<JMethod>)
    requires ValuesListed(uniqueMethods, {}, keys, methods)
    ensures forall k :: k in uniqueMethods ==> uniqueMethods[k] in methods
    ensures forall i :: 0 <= i < |methods| ==> methods[i] in uniqueMethods.Values
    ensures |methods| == |uniqueMethods|
    ensures InjectiveValues(uniqueMethods) ==> Distinct(methods)
  {
    assert uniqueMethods.Keys - {} == uniqueMethods.Keys;
  }

  /** Every key of the collected map is its method's signature. */
  lemma {:induction false} UniqueSpecKeyedBySignature(unique: map<string, JMethod>, methods: seq<JMethod>)
    requires forall k :: k in unique ==> Signature(unique[k]) == k
    ensures var r := UniqueSpec(unique, methods); forall k :: k in r ==> Signature(r[k]) == k
    decreases |methods|
  {
    if |methods| > 0 {
      var u1 := AddUnique(unique, methods[0]);
      assert forall k :: k in u1 ==> Signature(u1[k]) == k;
      UniqueSpecKeyedBySignature(u1, methods[1..]);
      var r := UniqueSpec(unique, methods);
      assert r == UniqueSpec(u1, methods[1..]);
      assert forall k :: k in r ==> Signature(r[k]) == k;
    }
  }

  /** getClassMethods never holds one method under two signatures. */
  lemma UniqueMethodsInjective(hierarchy: seq<ClassDecl>)
    ensures InjectiveValues(UniqueMethodsOf(hierarchy))
  {
    var r := UniqueMethodsOf(hierarchy);
    UniqueSpecKeyedBySignature(map[], VisitOrder(hierarchy));
    assert r == UniqueSpec(map[], VisitOrder(hierarchy));
    assert forall k :: k in r ==> Signature(r[k]) == k;
    forall k1, k2 | k1 in r && k2 in r && k1 != k2 ensures r[k1] != r[k2] {
      assert Signature(r[k1]) == k1 && Signature(r[k2]) == k2;
    }
  }

  datatype AccessorKind = Getter | Setter

  /** `getX()`/`isX()` without parameters are getters; `setX(v)` with one parameter is a setter. */
  predicate IsAccessor(m: JMethod, kind: AccessorKind) {
    match kind
    case Getter =>
      |m.parameterTypes| == 0 &&
      ((StartsWith(m.name, "get") && |m.name| > 3) || (StartsWith(m.name, "is") && |m.name| > 2))
    case Setter => StartsWith(m.name, "set") && |m.name| > 3 && |m.parameterTypes| == 1
  }

  /** The accessors of the given kind for property prop, in method order. */
  function Candidates(methods: seq<JMethod>, kind: AccessorKind, methodToProperty: string -> string, prop: string)
    : (r: seq<JMethod>)
    ensures forall i :: 0 <= i < |r| ==> r[i] in methods && IsAccessor(r[i], kind) && methodToProperty(r[i].name) == prop
  {
    if |methods| == 0 then []
    else
      var init := Candidates(methods[..|methods| - 1], kind, methodToProperty, prop);
      var m := methods[|methods| - 1];
      if IsAccessor(m, kind) && methodToProperty(m.name) == prop then init + [m] else init
  }

  /** One more method: it joins the candidates of its own property, if it is an accessor of that kind. */
  lemma CandidatesStep(methods: seq<JMethod>, kind: AccessorKind, methodToProperty: string -> string, i: nat, p: string)
    requires i < |methods|
    ensures Candidates(methods[..i + 1], kind, methodToProperty, p) ==
      if IsAccessor(methods[i], kind) && methodToProperty(methods[i].name) == p
      then Candidates(methods[..i], kind, methodToProperty, p) + [methods[i]]
      else Candidates(methods[..i], kind, methodToProperty, p)
  {
    assert methods[..i + 1][..i] == methods[..i];
  }

  /** Every accessor of the property is among its candidates. */
  lemma {:induction false} CandidatesComplete(methods: seq<JMethod>, kind: AccessorKind,
                                              methodToProperty: string -> string, j: nat)
    requires j < |methods| && IsAccessor(methods[j], kind)
    ensures methods[j] in Candidates(methods, kind, methodToProperty, methodToProperty(methods[j].name))
  {
    if j < |methods| - 1 {
      assert methods[..|methods| - 1][j] == methods[j];
      CandidatesComplete(methods[..|methods| - 1], kind, methodToProperty, j);
    }
  }

  /**
   * The loop of `addGetMethods` / `addSetMethods` with `addMethodConflict`: accessors grouped by
   * property name, each group in method order. `methodToProperty` is PropertyNamer's rule.
   */
  method CollectConflicts(methods: seq<JMethod>, kind: AccessorKind, methodToProperty: string -> string)
    returns (conflicting: map<string, seq<JMethod>>)
    ensures forall p :: p in conflicting <==> Candidates(methods, kind, methodToProperty, p) != []
    ensures forall p :: p in conflicting ==> conflicting[p] == Candidates(methods, kind, methodToProperty, p)
  {
    conflicting := map[];
    var i := 0;
    while i < |methods|
      invariant 0 <= i <= |methods|
      invariant Grouped(conflicting, methods[..i], kind, methodToProperty)
    {
      var method_ := methods[i];
      ghost var before := conflicting;
      if IsAccessor(method_, kind) {
        var name := methodToProperty(method_.name);
        var list := if name in conflicting then conflicting[name] else [];
        conflicting := conflicting[name := list + [method_]];
      }
      GroupedStep(methods, kind, methodToProperty, i, before, conflicting);
      i := i + 1;
    }
    assert methods[..i] == methods;
    assert Grouped(conflicting, methods, kind, methodToProperty);
  }

  /** The groups hold exactly the candidates of each property with any. */
  ghost predicate Grouped(conflicting: map<string, seq<JMethod>>, methods: seq<JMethod>, kind: AccessorKind, methodToProperty: string -> string) {
    (forall p :: p in conflicting <==> Candidates(methods, kind, methodToProperty, p) != []) &&
    (forall p :: p in conflicting ==> conflicting[p] == Candidates(methods, kind, methodToProperty, p))
  }

  /** `addMethodConflict` for method i keeps the groups exact. */
  lemma GroupedStep(methods: seq<JMethod>, kind: AccessorKind, methodToProperty: string -> string, i: nat,
                    before: map<string, seq<JMethod>>, after: map<string, seq<JMethod>>)
    requires i < |methods| && Grouped(before, methods[..i], kind, methodToProperty)
    requires var m := methods[i];
      var name := methodToProperty(m.name);
      after == if IsAccessor(m, kind) then before[name := (if name in before then before[name] else []) + [m]] else before
    ensures Grouped(after, methods[..i + 1], kind, methodToProperty)
  {
    forall p
      ensures p in after <==> Candidates(methods[..i + 1], kind, methodToProperty, p) != []
      ensures p in after ==> after[p] == Candidates(methods[..i + 1], kind, methodToProperty, p)
    {
      CandidatesStep(methods, kind, methodToProperty, i, p);
    }
  }

  // ---------------------------------------------------------------------------------------
  // Getter conflicts

  predicate Unrelated(a: JavaClass, b: JavaClass) {
    !IsAssignableFrom(a, b) && !IsAssignableFrom(b, a)
  }

  /** Two getters whose return types are equal or unrelated. */
  predicate BadGetterPair(getters: seq<JMethod>, i: int, j: int)
    requires 0 <= i < |getters| && 0 <= j < |getters|
  {
    getters[i].returnType == getters[j].returnType || Unrelated(getters[i].returnType, getters[j].returnType)
  }

  /** Distinct and pairwise related return types. */
  predicate GettersComparable(getters: seq<JMethod>) {
    forall i, j :: 0 <= i < j < |getters| ==> !BadGetterPair(getters, i, j)
  }

  /** Every property's getters are comparable. */
  predicate AllGettersComparable(conflicting: map<string, seq<JMethod>>) {
    forall p :: p in conflicting ==> GettersComparable(conflicting[p])
  }

  /** m's return type is assignable to the return type of every candidate. */
  predicate MostSpecificGetter(getters: seq<JMethod>, m: JMethod) {
    forall k :: 0 <= k < |getters| ==> IsAssignableFrom(getters[k].returnType, m.returnType)
  }

  /** The per-property body of `resolveGetterConflicts`. */
  method ResolveGetter(propName: string, getters: seq<JMethod>) returns (r: Result<JMethod, ReflectionError>)
    requires |getters| > 0
    ensures |getters| == 1 ==> r == Success(getters[0])
    ensures r.Success? ==> r.value in getters && MostSpecificGetter(getters, r.value)
    ensures r.Failure? ==>
      r.error == AmbiguousGetter(propName, getters[0].declaringClass) &&
      exists i, j :: 0 <= i < j < |getters| && BadGetterPair(getters, i, j)
    ensures GettersComparable(getters) ==> r.Success?
  {
    var firstMethod := getters[0];
    var getter := firstMethod;
    var getterType := firstMethod.returnType;
    ghost var g := 0;
    var i := 1;
    while i < |getters|
      invariant 0 <= g < i <= |getters|
      invariant getter == getters[g] && getterType == getter.returnType
      invariant forall k :: 0 <= k < i ==> IsAssignableFrom(getters[k].returnType, getterType)
    {
      var method_ := getters[i];
      var methodType := method_.returnType;
      if methodType == getterType {
        assert BadGetterPair(getters, g, i);
        return Failure(AmbiguousGetter(propName, firstMethod.declaringClass));
      } else if IsAssignableFrom(methodType, getterType) {
        // the current getter's type is the more specific one
      } else if IsAssignableFrom(getterType, methodType) {
        forall k | 0 <= k < i
          ensures IsAssignableFrom(getters[k].returnType, methodType)
        {
          AssignableTransitive(getters[k].returnType, getterType, methodType);
        }
        getter := method_;
        getterType := methodType;
        g := i;
      } else {
        assert BadGetterPair(getters, g, i);
        return Failure(AmbiguousGetter(propName, firstMethod.declaringClass));
      }
      i := i + 1;
    }
    return Success(getter);
  }

  /** The getters a successful resolution registers: one per valid property name. */
  predicate ResolvedGetters(conflicting: map<string, seq<JMethod>>, getMethods: map<string, Invoker>,
                            getTypes: map<string, JavaClass>)
  {
    getMethods.Keys == (set p | p in conflicting && IsValidPropertyName(p)) &&
    getTypes.Keys == getMethods.Keys &&
    forall p :: p in getMethods ==>
      getMethods[p].MethodInvoker? && getMethods[p].invoked in conflicting[p] &&
      MostSpecificGetter(conflicting[p], getMethods[p].invoked) &&
      getTypes[p] == getMethods[p].invoked.returnType
  }

  /** `resolveGetterConflicts` with `addGetMethod`, over the properties in any order. */
  method ResolveGetterConflicts(conflicting: map<string, seq<JMethod>>)
    returns (r: Result<(map<string, Invoker>, map<string, JavaClass>), ReflectionError>)
    requires forall p :: p in conflicting ==> |conflicting[p]| > 0
    ensures r.Success? ==> ResolvedGetters(conflicting, r.value.0, r.value.1)
    ensures r.Failure? ==> exists p :: p in conflicting && !GettersComparable(conflicting[p])
    ensures r.Failure? ==> r.error.AmbiguousGetter?
    ensures AllGettersComparable(conflicting) ==> r.Success?
  {
    var getMethods: map<string, Invoker> := map[];
    var getTypes: map<string, JavaClass> := map[];
    var remaining := conflicting.Keys;
    while remaining != {}
      invariant remaining <= conflicting.Keys
      invariant forall p :: p in getMethods <==> p in conflicting && p !in remaining && IsValidPropertyName(p)
      invariant getTypes.Keys == getMethods.Keys
      invariant forall p :: p in getMethods ==>
        getMethods[p].MethodInvoker? && getMethods[p].invoked in conflicting[p] &&
        MostSpecificGetter(conflicting[p], getMethods[p].invoked) &&
        getTypes[p] == getMethods[p].invoked.returnType
      decreases |remaining|
    {
      var propName :| propName in remaining;
      var getters := conflicting[propName];
      var chosen := ResolveGetter(propName, getters);
      if chosen.Failure? {
        return Failure(chosen.error);
      }
      if IsValidPropertyName(propName) {
        getMethods := getMethods[propName := MethodInvoker(chosen.value)];
        getTypes := getTypes[propName := chosen.value.returnType];
      }
      remaining := remaining - {propName};
    }
    return Success((getMethods, getTypes));
  }

  // ---------------------------------------------------------------------------------------
  // Setter conflicts

  predicate OneParameter(m: JMethod) {
    |m.parameterTypes| == 1
  }

  predicate AllOneParameter(setters: seq<JMethod>) {
    forall i :: 0 <= i < |setters| ==> OneParameter(setters[i])
  }

  function SetterParam(m: JMethod): JavaClass
    requires OneParameter(m)
  {
    m.parameterTypes[0]
  }

  /** `pickBetterSetter`: the setter with the more specific parameter type. */
  function PickBetterSetter(setter1: Option<JMethod>, setter2: JMethod, property: string)
    : (r: Result<JMethod, ReflectionError>)
    requires setter1.Some? ==> OneParameter(setter1.value)
    requires OneParameter(setter2)
    ensures setter1.None? ==> r == Success(setter2)
    ensures r.Success? ==> r.value == setter2 || Some(r.value) == setter1
    ensures r.Success? && setter1.Some? ==>
      IsAssignableFrom(SetterParam(setter1.value), SetterParam(r.value)) &&
      IsAssignableFrom(SetterParam(setter2), SetterParam(r.value))
    ensures r.Failure? <==> setter1.Some? && Unrelated(SetterParam(setter1.value), SetterParam(setter2))
    ensures r.Failure? ==> r.error == AmbiguousSetter(property, setter2.declaringClass,
      SetterParam(setter1.value).name, SetterParam(setter2).name)
  {
    if setter1.None? then Success(setter2)
    else
      var paramType1 := SetterParam(setter1.value);
      var paramType2 := SetterParam(setter2);
      if IsAssignableFrom(paramType1, paramType2) then Success(setter2)
      else if IsAssignableFrom(paramType2, paramType1) then Success(setter1.value)
      else Failure(AmbiguousSetter(property, setter2.declaringClass, paramType1.name, paramType2.name))
  }

  /** For setters with different parameter types, the order of the two arguments does not matter. */
  lemma PickBetterSetterSymmetric(a: JMethod, b: JMethod, property: string)
    requires OneParameter(a) && OneParameter(b) && SetterParam(a) != SetterParam(b)
    requires PickBetterSetter(Some(a), b, property).Success?
    ensures PickBetterSetter(Some(b), a, property).Success?
    ensures PickBetterSetter(Some(a), b, property).value == PickBetterSetter(Some(b), a, property).value
  {
    if IsAssignableFrom(SetterParam(a), SetterParam(b)) && IsAssignableFrom(SetterParam(b), SetterParam(a)) {
      AssignableAntisymmetric(SetterParam(a), SetterParam(b));
    }
  }

  /** `setValue(Map)` is preferred over `setValue(Object)`, in either order. */
  lemma PickBetterSetterPrefersInterface(property: string)
    ensures var byObject := JMethod("setValue", VoidType, [ObjectClass], false, "Holder", 0);
      var byMap := JMethod("setValue", VoidType, [MapInterface], false, "Holder", 1);
      PickBetterSetter(Some(byObject), byMap, property) == Success(byMap) &&
      PickBetterSetter(Some(byMap), byObject, property) == Success(byMap)
  {
    ObjectAboveInterfaces();
  }

  /**
   * The running choice of `resolveSetterConflicts` after the first k setters when none matched the
   * getter type: `pickBetterSetter` folded over them, stopped by the first ambiguity.
   */
  function PickUpTo(setters: seq<JMethod>, property: string, k: nat): (r: Result<Option<JMethod>, ReflectionError>)
    requires k <= |setters| && AllOneParameter(setters)
    ensures r.Success? && k > 0 ==> r.value.Some?
    ensures r.Success? && r.value.Some? ==> OneParameter(r.value.value)
    ensures r.Failure? ==> r.error.AmbiguousSetter?
  {
    if k == 0 then Success(None)
    else
      var prev := PickUpTo(setters, property, k - 1);
      if prev.Failure? then prev
      else
        match PickBetterSetter(prev.value, setters[k - 1], property)
        case Success(m) => Success(Some(m))
        case Failure(e) => Failure(e)
  }

  /** A setter whose parameter type is assignable to every candidate's parameter type. */
  predicate MostSpecificSetter(setters: seq<JMethod>, m: JMethod)
    requires AllOneParameter(setters) && OneParameter(m)
  {
    forall i :: 0 <= i < |setters| ==> IsAssignableFrom(SetterParam(setters[i]), SetterParam(m))
  }

  /** The fold's choice is one of the setters seen and the most specific of them. */
  lemma {:induction false} PickUpToMostSpecific(setters: seq<JMethod>, property: string, k: nat)
    requires k <= |setters| && AllOneParameter(setters)
    requires PickUpTo(setters, property, k).Success?
    ensures k > 0 ==> PickUpTo(setters, property, k).value.Some?
    ensures PickUpTo(setters, property, k).value.Some? ==>
      var m := PickUpTo(setters, property, k).value.value;
      m in setters[..k] && MostSpecificSetter(setters[..k], m)
  {
    if k > 0 {
      PickUpToMostSpecific(setters, property, k - 1);
      var prev := PickUpTo(setters, property, k - 1);
      var m := PickUpTo(setters, property, k).value.value;
      assert setters[..k] == setters[..k - 1] + [setters[k - 1]];
      if prev.value.Some? {
        var p := prev.value.value;
        forall i | 0 <= i < k
          ensures IsAssignableFrom(SetterParam(setters[i]), SetterParam(m))
        {
          if i < k - 1 {
            assert setters[..k - 1][i] == setters[i];
            AssignableTransitive(SetterParam(setters[i]), SetterParam(p), SetterParam(m));
          }
        }
      }
    }
  }

  predicate SettersComparable(setters: seq<JMethod>)
    requires AllOneParameter(setters)
  {
    forall i, j :: 0 <= i < j < |setters| ==> !Unrelated(SetterParam(setters[i]), SetterParam(setters[j]))
  }

  /** When all parameter types are pairwise related, the fold never fails. */
  lemma {:induction false} PickUpToComparable(setters: seq<JMethod>, property: string, k: nat)
    requires k <= |setters| && AllOneParameter(setters) && SettersComparable(setters)
    ensures PickUpTo(setters, property, k).Success?
  {
    if k > 0 {
      PickUpToComparable(setters, property, k - 1);
      PickUpToMostSpecific(setters, property, k - 1);
      var prev := PickUpTo(setters, property, k - 1);
      if prev.value.Some? {
        var p := prev.value.value;
        var g :| 0 <= g < k - 1 && setters[..k - 1][g] == p;
        assert setters[g] == p;
        PickUpToStep(setters, property, k);
      } else {
        PickUpToStep(setters, property, k);
      }
    }
  }

  /** One more setter related to the running choice keeps the fold successful. */
  lemma PickUpToStep(setters: seq<JMethod>, property: string, k: nat)
    requires 0 < k <= |setters| && AllOneParameter(setters)
    requires PickUpTo(setters, property, k - 1).Success?
    requires var prev := PickUpTo(setters, property, k - 1).value;
      prev.Some? ==> !Unrelated(SetterParam(prev.value), SetterParam(setters[k - 1]))
    ensures PickUpTo(setters, property, k).Success?
  {
  }

  /** The first setter whose parameter type equals the getter type. */
  predicate FirstExact(setters: seq<JMethod>, getterType: Option<JavaClass>, k: int)
    requires 0 <= k < |setters| && AllOneParameter(setters)
  {
    getterType == Some(SetterParam(setters[k])) &&
    forall i :: 0 <= i < k ==> getterType != Some(SetterParam(setters[i]))
  }

  predicate HasExact(setters: seq<JMethod>, getterType: Option<JavaClass>)
    requires AllOneParameter(setters)
  {
    exists k :: 0 <= k < |setters| && getterType == Some(SetterParam(setters[k]))
  }

  /** The outcome of the fold over all setters. */
  function PickResult(setters: seq<JMethod>, property: string): Result<JMethod, ReflectionError>
    requires |setters| > 0 && AllOneParameter(setters)
  {
    var r := PickUpTo(setters, property, |setters|);
    if r.Failure? then Failure(r.error) else Success(r.value.value)
  }

  /**
   * The per-property body of `resolveSetterConflicts`: a setter matching the getter type wins at
   * once; otherwise the most specific setter, and an ambiguity is reported only when no setter
   * matches the getter type.
   */
  method ResolveSetter(propName: string, setters: seq<JMethod>, getterType: Option<JavaClass>)
    returns (r: Result<JMethod, ReflectionError>)
    requires |setters| > 0 && AllOneParameter(setters)
    ensures forall k :: 0 <= k < |setters| && FirstExact(setters, getterType, k) ==> r == Success(setters[k])
    ensures !HasExact(setters, getterType) ==> r == PickResult(setters, propName)
  {
    var match_: Option<JMethod> := None;
    var exception: Option<ReflectionError> := None;
    var i := 0;
    while i < |setters|
      invariant 0 <= i <= |setters|
      invariant forall k :: 0 <= k < i ==> getterType != Some(SetterParam(setters[k]))
      invariant exception.None? ==> PickUpTo(setters, propName, i) == Success(match_)
      invariant exception.Some? ==> PickUpTo(setters, propName, i) == Failure(exception.value) && match_.None?
    {
      var setter := setters[i];
      var paramType := SetterParam(setter);
      if Some(paramType) == getterType {
        assert FirstExact(setters, getterType, i);
        return Success(setter);
      }
      if exception.None? {
        var picked := PickBetterSetter(match_, setter, propName);
        if picked.Success? {
          match_ := Some(picked.value);
        } else {
          match_ := None;
          exception := Some(picked.error);
        }
      }
      i := i + 1;
    }
    if match_.None? {
      return Failure(exception.value);
    }
    return Success(match_.value);
  }

  /** The setters a successful resolution registers: one per valid property name. */
  predicate ResolvedSetters(conflicting: map<string, seq<JMethod>>, getTypes: map<string, JavaClass>,
                            setMethods: map<string, Invoker>, setTypes: map<string, JavaClass>)
    requires forall p :: p in conflicting ==> |conflicting[p]| > 0 && AllOneParameter(conflicting[p])
  {
    setMethods.Keys == (set p | p in conflicting && IsValidPropertyName(p)) &&
    setTypes.Keys == setMethods.Keys &&
    forall p :: p in setMethods ==> SetterEntry(conflicting, getTypes, p, setMethods[p], setTypes[p])
  }

  /** The setter kept for property p and its type: the exact match of the getter type, else the most specific. */
  predicate SetterEntry(conflicting: map<string, seq<JMethod>>, getTypes: map<string, JavaClass>, p: string,
                        inv: Invoker, t: JavaClass)
    requires forall p :: p in conflicting ==> |conflicting[p]| > 0 && AllOneParameter(conflicting[p])
  {
    p in conflicting &&
    inv.MethodInvoker? && inv.invoked in conflicting[p] &&
    OneParameter(inv.invoked) &&
    t == SetterParam(inv.invoked) &&
    (HasExact(conflicting[p], GetterTypeOf(getTypes, p)) ==> Some(t) == GetterTypeOf(getTypes, p)) &&
    (!HasExact(conflicting[p], GetterTypeOf(getTypes, p)) ==> MostSpecificSetter(conflicting[p], inv.invoked))
  }

  /** `getTypes.get(propName)`, with null as None. */
  function GetterTypeOf(getTypes: map<string, JavaClass>, p: string): Option<JavaClass> {
    if p in getTypes then Some(getTypes[p]) else None
  }

  /** `resolveSetterConflicts` with `addSetMethod`, over the properties in any order. */
  method ResolveSetterConflicts(conflicting: map<string, seq<JMethod>>, getTypes: map<string, JavaClass>)
    returns (r: Result<(map<string, Invoker>, map<string, JavaClass>), ReflectionError>)
    requires forall p :: p in conflicting ==> |conflicting[p]| > 0 && AllOneParameter(conflicting[p])
    ensures r.Success? ==> ResolvedSetters(conflicting, getTypes, r.value.0, r.value.1)
    ensures r.Failure? ==>
      exists p :: p in conflicting && !HasExact(conflicting[p], GetterTypeOf(getTypes, p)) && !SettersComparable(conflicting[p])
    ensures r.Failure? ==> r.error.AmbiguousSetter?
    ensures (forall p :: p in conflicting ==> SettersComparable(conflicting[p])) ==> r.Success?
  {
    var setMethods: map<string, Invoker> := map[];
    var setTypes: map<string, JavaClass> := map[];
    var remaining := conflicting.Keys;
    while remaining != {}
      invariant remaining <= conflicting.Keys
      invariant SettersSoFar(conflicting, getTypes, remaining, setMethods, setTypes)
      decreases |remaining|
    {
      var propName :| propName in remaining;
      var chosen := ResolvePropertySetter(conflicting, getTypes, propName);
      if chosen.Failure? {
        return Failure(chosen.error);
      }
      ghost var before := (setMethods, setTypes);
      if IsValidPropertyName(propName) {
        setMethods := setMethods[propName := MethodInvoker(chosen.value)];
        setTypes := setTypes[propName := SetterParam(chosen.value)];
      }
      SettersSoFarStep(conflicting, getTypes, remaining, propName, chosen.value,
                       before.0, before.1, setMethods, setTypes);
      remaining := remaining - {propName};
    }
    SettersSoFarDone(conflicting, getTypes, setMethods, setTypes);
    return Success((setMethods, setTypes));
  }

  /** The setters resolved once the properties outside `remaining` have been handled. */
  ghost predicate SettersSoFar(conflicting: map<string, seq<JMethod>>, getTypes: map<string, JavaClass>,
                               remaining: set<string>, setMethods: map<string, Invoker>, setTypes: map<string, JavaClass>)
    requires forall p :: p in conflicting ==> |conflicting[p]| > 0 && AllOneParameter(conflicting[p])
  {
    (forall p :: p in setMethods <==> p in conflicting && p !in remaining && IsValidPropertyName(p)) &&
    setTypes.Keys == setMethods.Keys &&
    forall p :: p in setMethods ==> SetterEntry(conflicting, getTypes, p, setMethods[p], setTypes[p])
  }

  lemma SettersSoFarStep(conflicting: map<string, seq<JMethod>>, getTypes: map<string, JavaClass>,
                         remaining: set<string>, propName: string, chosen: JMethod,
                         setMethods0: map<string, Invoker>, setTypes0: map<string, JavaClass>,
                         setMethods: map<string, Invoker>, setTypes: map<string, JavaClass>)
    requires forall p :: p in conflicting ==> |conflicting[p]| > 0 && AllOneParameter(conflicting[p])
    requires propName in remaining && remaining <= conflicting.Keys
    requires SettersSoFar(conflicting, getTypes, remaining, setMethods0, setTypes0)
    requires OneParameter(chosen)
    requires SetterEntry(conflicting, getTypes, propName, MethodInvoker(chosen), SetterParam(chosen))
    requires IsValidPropertyName(propName) ==>
      setMethods == setMethods0[propName := MethodInvoker(chosen)] && setTypes == setTypes0[propName := SetterParam(chosen)]
    requires !IsValidPropertyName(propName) ==> setMethods == setMethods0 && setTypes == setTypes0
    ensures SettersSoFar(conflicting, getTypes, remaining - {propName}, setMethods, setTypes)
  {
  }

  lemma SettersSoFarDone(conflicting: map<string, seq<JMethod>>, getTypes: map<string, JavaClass>,
                         setMethods: map<string, Invoker>, setTypes: map<string, JavaClass>)
    requires forall p :: p in conflicting ==> |conflicting[p]| > 0 && AllOneParameter(conflicting[p])
    requires SettersSoFar(conflicting, getTypes, {}, setMethods, setTypes)
    ensures ResolvedSetters(conflicting, getTypes, setMethods, setTypes)
  {
    assert setMethods.Keys == (set p | p in conflicting && IsValidPropertyName(p));
  }

  /** One step of `resolveSetterConflicts`: the setter chosen for one conflicting property. */
  method ResolvePropertySetter(conflicting: map<string, seq<JMethod>>, getTypes: map<string, JavaClass>,
                               propName: string)
    returns (chosen: Result<JMethod, ReflectionError>)
    requires forall p :: p in conflicting ==> |conflicting[p]| > 0 && AllOneParameter(conflicting[p])
    requires propName in conflicting
    ensures chosen.Success? ==> OneParameter(chosen.value)
    ensures chosen.Success? ==>
      SetterEntry(conflicting, getTypes, propName, MethodInvoker(chosen.value), SetterParam(chosen.value))
    ensures chosen.Failure? ==>
      !HasExact(conflicting[propName], GetterTypeOf(getTypes, propName)) &&
      !SettersComparable(conflicting[propName]) && chosen.error.AmbiguousSetter?
    ensures SettersComparable(conflicting[propName]) ==> chosen.Success?
  {
    var setters := conflicting[propName];
    var getterType := GetterTypeOf(getTypes, propName);
    chosen := ResolveSetter(propName, setters, getterType);
    ResolveSetterOutcome(propName, setters, getterType, chosen);
  }

  /** What ResolveSetter's contract gives about its outcome, in the terms the caller needs. */
  lemma ResolveSetterOutcome(propName: string, setters: seq<JMethod>, getterType: Option<JavaClass>,
                             r: Result<JMethod, ReflectionError>)
    requires |setters| > 0 && AllOneParameter(setters)
    requires forall k :: 0 <= k < |setters| && FirstExact(setters, getterType, k) ==> r == Success(setters[k])
    requires !HasExact(setters, getterType) ==> r == PickResult(setters, propName)
    ensures r.Success? ==> r.value in setters && OneParameter(r.value)
    ensures r.Success? && HasExact(setters, getterType) ==> getterType == Some(SetterParam(r.value))
    ensures r.Success? && !HasExact(setters, getterType) ==> MostSpecificSetter(setters, r.value)
    ensures r.Failure? ==> !HasExact(setters, getterType) && !SettersComparable(setters)
    ensures r.Failure? ==> r.error.AmbiguousSetter?
    ensures SettersComparable(setters) ==> r.Success?
  {
    if HasExact(setters, getterType) {
      var k := FirstExactIndex(setters, getterType, |setters|);
      assert r == Success(setters[k]);
    } else {
      assert setters[..|setters|] == setters;
      if PickUpTo(setters, propName, |setters|).Success? {
        PickUpToMostSpecific(setters, propName, |setters|);
      }
      if SettersComparable(setters) {
        PickUpToComparable(setters, propName, |setters|);
      }
    }
  }

  /** The least index below n whose setter matches the getter type. */
  lemma {:induction false} FirstExactIndex(setters: seq<JMethod>, getterType: Option<JavaClass>, n: nat) returns (k: nat)
    requires n <= |setters| && AllOneParameter(setters)
    requires exists j :: 0 <= j < n && getterType == Some(SetterParam(setters[j]))
    ensures k < n && FirstExact(setters, getterType, k)
  {
    if getterType == Some(SetterParam(setters[n - 1])) &&
       (n == 1 || !exists j :: 0 <= j < n - 1 && getterType == Some(SetterParam(setters[j]))) {
      k := n - 1;
    } else {
      k := FirstExactIndex(setters, getterType, n - 1);
    }
  }

  // ---------------------------------------------------------------------------------------
  // Fields as accessors

  /** The declared fields of the class, then of each superclass in turn. */
  function AllFields(hierarchy: seq<ClassDecl>): seq<JField> {
    if |hierarchy| == 0 then [] else hierarchy[0].declaredFields + AllFields(hierarchy[1..])
  }

  /** A field that may stand in for a setter: accessible, not both final and static, validly named. */
  predicate SettableField(f: JField) {
    f.accessible && !(f.isFinal && f.isStatic) && IsValidPropertyName(f.name)
  }

  /** A field that may stand in for a getter: accessible and validly named. */
  predicate GettableField(f: JField) {
    f.accessible && IsValidPropertyName(f.name)
  }

  predicate Qualifies(f: JField, setter: bool) {
    if setter then SettableField(f) else GettableField(f)
  }

  function FieldInvoker(f: JField, setter: bool): Invoker {
    if setter then SetFieldInvoker(f) else GetFieldInvoker(f)
  }

  /** Field j qualifies and no earlier qualifying field has its name. */
  predicate FirstQualifying(fields: seq<JField>, j: int, setter: bool)
    requires 0 <= j < |fields|
  {
    Qualifies(fields[j], setter) &&
    forall i :: 0 <= i < j && Qualifies(fields[i], setter) ==> fields[i].name != fields[j].name
  }

  /** Every entry present before is kept, invoker and type. */
  predicate EntriesKept(invokers0: map<string, Invoker>, types0: map<string, JavaClass>,
                        invokers: map<string, Invoker>, types: map<string, JavaClass>)
  {
    (forall k :: k in invokers0 ==> k in invokers && invokers[k] == invokers0[k]) &&
    (forall k :: k in invokers0 && k in types0 ==> k in types && types[k] == types0[k])
  }

  /** A name without an entry before gets the first qualifying field of that name among fields[..n]. */
  predicate FirstFieldsAdded(fields: seq<JField>, n: int, setter: bool, invokers0: map<string, Invoker>,
                             invokers: map<string, Invoker>, types: map<string, JavaClass>)
    requires 0 <= n <= |fields|
  {
    forall j :: 0 <= j < n && FirstQualifying(fields, j, setter) && fields[j].name !in invokers0 ==>
      fields[j].name in invokers && invokers[fields[j].name] == FieldInvoker(fields[j], setter) &&
      fields[j].name in types && types[fields[j].name] == fields[j].fieldType
  }

  /** Every new entry comes from a qualifying field among fields[..n]. */
  predicate OnlyFieldsAdded(fields: seq<JField>, n: int, setter: bool, invokers0: map<string, Invoker>,
                            invokers: map<string, Invoker>)
    requires 0 <= n <= |fields|
  {
    forall k :: k in invokers && k !in invokers0 ==>
      exists j :: 0 <= j < n && FirstQualifying(fields, j, setter) && fields[j].name == k
  }

  /**
   * How `addFields` extends one pair of accessor maps with fields[..n]: entries present before
   * are kept, and a name without an entry gets the first qualifying field of that name;
   * nothing else is added.
   */
  predicate FieldsAdded(fields: seq<JField>, n: int, setter: bool,
                        invokers0: map<string, Invoker>, types0: map<string, JavaClass>,
                        invokers: map<string, Invoker>, types: map<string, JavaClass>)
    requires 0 <= n <= |fields|
  {
    EntriesKept(invokers0, types0, invokers, types) &&
    FirstFieldsAdded(fields, n, setter, invokers0, invokers, types) &&
    OnlyFieldsAdded(fields, n, setter, invokers0, invokers)
  }

  /** `addFields` with `addSetField` and `addGetField`, over the hierarchy's fields in order. */
  method AddFields(hierarchy: seq<ClassDecl>,
                   getMethods0: map<string, Invoker>, getTypes0: map<string, JavaClass>,
                   setMethods0: map<string, Invoker>, setTypes0: map<string, JavaClass>)
    returns (getMethods: map<string, Invoker>, getTypes: map<string, JavaClass>,
             setMethods: map<string, Invoker>, setTypes: map<string, JavaClass>)
    ensures var fields := AllFields(hierarchy);
      FieldsAdded(fields, |fields|, true, setMethods0, setTypes0, setMethods, setTypes)
    ensures var fields := AllFields(hierarchy);
      FieldsAdded(fields, |fields|, false, getMethods0, getTypes0, getMethods, getTypes)
    ensures getMethods0.Keys == getTypes0.Keys ==> getMethods.Keys == getTypes.Keys
    ensures setMethods0.Keys == setTypes0.Keys ==> setMethods.Keys == setTypes.Keys
  {
    var fields := AllFields(hierarchy);
    getMethods, getTypes, setMethods, setTypes := getMethods0, getTypes0, setMethods0, setTypes0;
    var i := 0;
    while i < |fields|
      invariant 0 <= i <= |fields|
      invariant FieldsAdded(fields, i, true, setMethods0, setTypes0, setMethods, setTypes)
      invariant FieldsAdded(fields, i, false, getMethods0, getTypes0, getMethods, getTypes)
      invariant getMethods0.Keys == getTypes0.Keys ==> getMethods.Keys == getTypes.Keys
      invariant setMethods0.Keys == setTypes0.Keys ==> setMethods.Keys == setTypes.Keys
    {
      ghost var sm, st, gm, gt := setMethods, setTypes, getMethods, getTypes;
      getMethods, getTypes, setMethods, setTypes := AddField(fields[i], getMethods, getTypes, setMethods, setTypes);
      FieldStep(fields, i, true, setMethods0, setTypes0, sm, st, setMethods, setTypes);
      FieldStep(fields, i, false, getMethods0, getTypes0, gm, gt, getMethods, getTypes);
      i := i + 1;
    }
  }

  /** One iteration of `addFields`: an accessible field fills the setter and the getter of its name if they are free. */
  method AddField(field: JField,
                  getMethods0: map<string, Invoker>, getTypes0: map<string, JavaClass>,
                  setMethods0: map<string, Invoker>, setTypes0: map<string, JavaClass>)
    returns (getMethods: map<string, Invoker>, getTypes: map<string, JavaClass>,
             setMethods: map<string, Invoker>, setTypes: map<string, JavaClass>)
    ensures FieldStepTaken(field, true, setMethods0, setTypes0, setMethods, setTypes)
    ensures FieldStepTaken(field, false, getMethods0, getTypes0, getMethods, getTypes)
  {
    getMethods, getTypes, setMethods, setTypes := getMethods0, getTypes0, setMethods0, setTypes0;
    if field.accessible {
      if field.name !in setMethods && !(field.isFinal && field.isStatic) {
        setMethods, setTypes := AddSetField(field, setMethods, setTypes);
      }
      if field.name !in getMethods {
        getMethods, getTypes := AddGetField(field, getMethods, getTypes);
      }
    }
  }

  /** `addSetField`: a validly named field becomes the setter of its name. */
  method AddSetField(field: JField, setMethods0: map<string, Invoker>, setTypes0: map<string, JavaClass>)
    returns (setMethods: map<string, Invoker>, setTypes: map<string, JavaClass>)
    ensures IsValidPropertyName(field.name) ==>
      setMethods == setMethods0[field.name := SetFieldInvoker(field)] &&
      setTypes == setTypes0[field.name := field.fieldType]
    ensures !IsValidPropertyName(field.name) ==> setMethods == setMethods0 && setTypes == setTypes0
  {
    setMethods, setTypes := setMethods0, setTypes0;
    if IsValidPropertyName(field.name) {
      setMethods := setMethods[field.name := SetFieldInvoker(field)];
      setTypes := setTypes[field.name := field.fieldType];
    }
  }

  /** `addGetField`: a validly named field becomes the getter of its name. */
  method AddGetField(field: JField, getMethods0: map<string, Invoker>, getTypes0: map<string, JavaClass>)
    returns (getMethods: map<string, Invoker>, getTypes: map<string, JavaClass>)
    ensures IsValidPropertyName(field.name) ==>
      getMethods == getMethods0[field.name := GetFieldInvoker(field)] &&
      getTypes == getTypes0[field.name := field.fieldType]
    ensures !IsValidPropertyName(field.name) ==> getMethods == getMethods0 && getTypes == getTypes0
  {
    getMethods, getTypes := getMethods0, getTypes0;
    if IsValidPropertyName(field.name) {
      getMethods := getMethods[field.name := GetFieldInvoker(field)];
      getTypes := getTypes[field.name := field.fieldType];
    }
  }

  /** The step condition: field f is added exactly when it qualifies and has no entry yet. */
  predicate FieldStepTaken(f: JField, setter: bool,
                           invokers: map<string, Invoker>, types: map<string, JavaClass>,
                           invokers1: map<string, Invoker>, types1: map<string, JavaClass>)
  {
    if Qualifies(f, setter) && f.name !in invokers then
      invokers1 == invokers[f.name := FieldInvoker(f, setter)] && types1 == types[f.name := f.fieldType]
    else invokers1 == invokers && types1 == types
  }

  /** One field processed: FieldsAdded carries over from fields[..i] to fields[..i + 1]. */
  lemma FieldStep(fields: seq<JField>, i: nat, setter: bool,
                  invokers0: map<string, Invoker>, types0: map<string, JavaClass>,
                  invokers: map<string, Invoker>, types: map<string, JavaClass>,
                  invokers1: map<string, Invoker>, types1: map<string, JavaClass>)
    requires i < |fields|
    requires FieldsAdded(fields, i, setter, invokers0, types0, invokers, types)
    requires FieldStepTaken(fields[i], setter, invokers, types, invokers1, types1)
    ensures FieldsAdded(fields, i + 1, setter, invokers0, types0, invokers1, types1)
    ensures invokers.Keys == types.Keys ==> invokers1.Keys == types1.Keys
  {
    FirstFieldsStep(fields, i, setter, invokers0, types0, invokers, types, invokers1, types1);
    OnlyFieldsStep(fields, i, setter, invokers0, types0, invokers, types, invokers1, types1);
    EntriesKeptStep(fields[i], setter, invokers0, types0, invokers, types, invokers1, types1);
  }

  /** Adding a field entry under a new name keeps the entries that were there before. */
  lemma EntriesKeptStep(f: JField, setter: bool,
                        invokers0: map<string, Invoker>, types0: map<string, JavaClass>,
                        invokers: map<string, Invoker>, types: map<string, JavaClass>,
                        invokers1: map<string, Invoker>, types1: map<string, JavaClass>)
    requires EntriesKept(invokers0, types0, invokers, types)
    requires FieldStepTaken(f, setter, invokers, types, invokers1, types1)
    ensures EntriesKept(invokers0, types0, invokers1, types1)
    ensures invokers.Keys == types.Keys ==> invokers1.Keys == types1.Keys
  {
  }

  /** After fields[..n], every qualifying field's name has an entry. */
  lemma QualifyingNamePresent(fields: seq<JField>, n: int, m: int, setter: bool,
                              invokers0: map<string, Invoker>, invokers: map<string, Invoker>,
                              types: map<string, JavaClass>)
    requires 0 <= m < n <= |fields| && Qualifies(fields[m], setter)
    requires FirstFieldsAdded(fields, n, setter, invokers0, invokers, types)
    requires forall k :: k in invokers0 ==> k in invokers
    ensures fields[m].name in invokers
    decreases m
  {
    if !FirstQualifying(fields, m, setter) {
      var e :| 0 <= e < m && Qualifies(fields[e], setter) && fields[e].name == fields[m].name;
      QualifyingNamePresent(fields, n, e, setter, invokers0, invokers, types);
    }
  }

  /** The first qualifying field of a name without an entry before finds no entry yet. */
  lemma FirstNameAbsent(fields: seq<JField>, i: nat, setter: bool,
                        invokers0: map<string, Invoker>, invokers: map<string, Invoker>)
    requires i < |fields|
    requires OnlyFieldsAdded(fields, i, setter, invokers0, invokers)
    requires FirstQualifying(fields, i, setter) && fields[i].name !in invokers0
    ensures fields[i].name !in invokers
  {
    forall e | 0 <= e < i && FirstQualifying(fields, e, setter)
      ensures fields[e].name != fields[i].name
    {
    }
  }

  lemma FirstFieldsStep(fields: seq<JField>, i: nat, setter: bool,
                        invokers0: map<string, Invoker>, types0: map<string, JavaClass>,
                        invokers: map<string, Invoker>, types: map<string, JavaClass>,
                        invokers1: map<string, Invoker>, types1: map<string, JavaClass>)
    requires i < |fields|
    requires FieldsAdded(fields, i, setter, invokers0, types0, invokers, types)
    requires FieldStepTaken(fields[i], setter, invokers, types, invokers1, types1)
    ensures FirstFieldsAdded(fields, i + 1, setter, invokers0, invokers1, types1)
  {
    var f := fields[i];
    if FirstQualifying(fields, i, setter) && f.name !in invokers0 {
      FirstNameAbsent(fields, i, setter, invokers0, invokers);
    }
    forall j | 0 <= j < i + 1 && FirstQualifying(fields, j, setter) && fields[j].name !in invokers0
      ensures fields[j].name in invokers1 && invokers1[fields[j].name] == FieldInvoker(fields[j], setter)
      ensures fields[j].name in types1 && types1[fields[j].name] == fields[j].fieldType
    {
      if j < i {
        assert fields[j].name in invokers && fields[j].name in types;
      }
    }
  }

  lemma OnlyFieldsStep(fields: seq<JField>, i: nat, setter: bool,
                       invokers0: map<string, Invoker>, types0: map<string, JavaClass>,
                       invokers: map<string, Invoker>, types: map<string, JavaClass>,
                       invokers1: map<string, Invoker>, types1: map<string, JavaClass>)
    requires i < |fields|
    requires FieldsAdded(fields, i, setter, invokers0, types0, invokers, types)
    requires FieldStepTaken(fields[i], setter, invokers, types, invokers1, types1)
    ensures OnlyFieldsAdded(fields, i + 1, setter, invokers0, invokers1)
  {
    if Qualifies(fields[i], setter) && fields[i].name !in invokers {
      forall m | 0 <= m < i && Qualifies(fields[m], setter)
        ensures fields[m].name != fields[i].name
      {
        QualifyingNamePresent(fields, i, m, setter, invokers0, invokers, types);
      }
      assert FirstQualifying(fields, i, setter);
    }
  }

  // ---------------------------------------------------------------------------------------
  // The case-insensitive property map

  /** Puts each name under its upper-case form, later names replacing earlier ones. */
  function PutUpper(m: map<string, string>, names: seq<string>): map<string, string>
    decreases |names|
  {
    if |names| == 0 then m else PutUpper(m[ToUpper(names[0]) := names[0]], names[1..])
  }

  predicate UpperAmong(names: seq<string>, u: string) {
    exists i :: 0 <= i < |names| && ToUpper(names[i]) == u
  }

  /** What PutUpper keeps and adds. */
  lemma {:induction false} PutUpperFacts(m: map<string, string>, names: seq<string>)
    ensures var r := PutUpper(m, names);
      (forall u :: u in r <==> u in m || UpperAmong(names, u)) &&
      (forall u :: UpperAmong(names, u) ==> u in r && r[u] in names && ToUpper(r[u]) == u) &&
      (forall u :: u in m && !UpperAmong(names, u) ==> r[u] == m[u])
    decreases |names|
  {
    if |names| > 0 {
      var m1 := m[ToUpper(names[0]) := names[0]];
      var rest := names[1..];
      PutUpperFacts(m1, rest);
      var r := PutUpper(m, names);
      forall u | UpperAmong(names, u) || UpperAmong(rest, u)
        ensures UpperAmong(names, u) <==> u == ToUpper(names[0]) || UpperAmong(rest, u)
      {
        if UpperAmong(rest, u) {
          var i :| 0 <= i < |rest| && ToUpper(rest[i]) == u;
          assert names[i + 1] == rest[i];
        }
        if UpperAmong(names, u) && u != ToUpper(names[0]) {
          var i :| 0 <= i < |names| && ToUpper(names[i]) == u;
          assert rest[i - 1] == names[i];
        }
      }
      assert UpperAmong(names, ToUpper(names[0]));
      forall u | UpperAmong(rest, u)
        ensures r[u] in names
      {
        assert r[u] in rest;
      }
    }
  }

  /** Puts the names under their upper-case forms one by one, as the constructor's loops do. */
  method PutUpperNames(m0: map<string, string>, names: seq<string>) returns (m: map<string, string>)
    ensures m == PutUpper(m0, names)
  {
    m := m0;
    var i := 0;
    while i < |names|
      invariant 0 <= i <= |names|
      invariant PutUpper(m, names[i..]) == PutUpper(m0, names)
    {
      assert names[i..][1..] == names[i + 1..];
      m := m[ToUpper(names[i]) := names[i]];
      i := i + 1;
    }
  }

  /** The keys of a map, in an arbitrary order (`keySet().toArray`). */
  method KeysOf<V>(m: map<string, V>) returns (names: seq<string>)
    ensures forall p :: p in names <==> p in m
  {
    names := [];
    var remaining := m.Keys;
    while remaining != {}
      invariant remaining <= m.Keys
      invariant forall p :: p in names <==> p in m && p !in remaining
      decreases |remaining|
    {
      var k :| k in remaining;
      names := names + [k];
      remaining := remaining - {k};
    }
  }

  // ---------------------------------------------------------------------------------------
  // The reflector

  /** The cached description of one class: its readable and writable properties. */
  class Reflector {
    const reflectedType: JavaClass
    const getMethods: map<string, Invoker>
    const getTypes: map<string, JavaClass>
    const setMethods: map<string, Invoker>
    const setTypes: map<string, JavaClass>
    const readablePropertyNames: seq<string>
    const writeablePropertyNames: seq<string>
    const caseInsensitivePropertyMap: map<string, string>

    /** The invariant the constructor establishes. */
    ghost predicate Valid() {
      getTypes.Keys == getMethods.Keys && setTypes.Keys == setMethods.Keys &&
      (forall p :: p in getMethods ==> IsValidPropertyName(p)) &&
      (forall p :: p in setMethods ==> IsValidPropertyName(p)) &&
      (forall p :: p in readablePropertyNames <==> p in getMethods) &&
      (forall p :: p in writeablePropertyNames <==> p in setMethods) &&
      caseInsensitivePropertyMap == PutUpper(PutUpper(map[], readablePropertyNames), writeablePropertyNames)
    }

    /** The tail of the Java constructor: property name arrays and the case-insensitive map. */
    constructor (reflectedType: JavaClass,
                 getMethods: map<string, Invoker>, getTypes: map<string, JavaClass>,
                 setMethods: map<string, Invoker>, setTypes: map<string, JavaClass>)
      requires getTypes.Keys == getMethods.Keys && setTypes.Keys == setMethods.Keys
      requires forall p :: p in getMethods ==> IsValidPropertyName(p)
      requires forall p :: p in setMethods ==> IsValidPropertyName(p)
      ensures Valid()
      ensures this.reflectedType == reflectedType
      ensures this.getMethods == getMethods && this.getTypes == getTypes
      ensures this.setMethods == setMethods && this.setTypes == setTypes
    {
      var readable := KeysOf(getMethods);
      var writeable := KeysOf(setMethods);
      var caseMap := PutUpperNames(map[], readable);
      caseMap := PutUpperNames(caseMap, writeable);
      this.reflectedType := reflectedType;
      this.getMethods := getMethods;
      this.getTypes := getTypes;
      this.setMethods := setMethods;
      this.setTypes := setTypes;
      readablePropertyNames := readable;
      writeablePropertyNames := writeable;
      caseInsensitivePropertyMap := caseMap;
    }

    /** `getSetInvoker`; a missing setter is a ReflectionException. */
    function GetSetInvoker(propertyName: string): (r: Result<Invoker, ReflectionError>)
      ensures r.Success? <==> propertyName in setMethods
      ensures r.Success? ==> r.value == setMethods[propertyName]
      ensures r.Failure? ==> r.error == NoSetter(propertyName, reflectedType.name)
    {
      if propertyName in setMethods then Success(setMethods[propertyName])
      else Failure(NoSetter(propertyName, reflectedType.name))
    }

    /** `getGetInvoker`; a missing getter is a ReflectionException. */
    function GetGetInvoker(propertyName: string): (r: Result<Invoker, ReflectionError>)
      ensures r.Success? <==> propertyName in getMethods
      ensures r.Success? ==> r.value == getMethods[propertyName]
      ensures r.Failure? ==> r.error == NoGetter(propertyName, reflectedType.name)
    {
      if propertyName in getMethods then Success(getMethods[propertyName])
      else Failure(NoGetter(propertyName, reflectedType.name))
    }

    /** `getSetterType`: looked up in setTypes, with the setter's error message. */
    function GetSetterType(propertyName: string): (r: Result<JavaClass, ReflectionError>)
      ensures r.Success? <==> propertyName in setTypes
      ensures r.Success? ==> r.value == setTypes[propertyName]
      ensures r.Failure? ==> r.error == NoSetter(propertyName, reflectedType.name)
    {
      if propertyName in setTypes then Success(setTypes[propertyName])
      else Failure(NoSetter(propertyName, reflectedType.name))
    }

    /** `getGetterType`: looked up in getTypes, with the getter's error message. */
    function GetGetterType(propertyName: string): (r: Result<JavaClass, ReflectionError>)
      ensures r.Success? <==> propertyName in getTypes
      ensures r.Success? ==> r.value == getTypes[propertyName]
      ensures r.Failure? ==> r.error == NoGetter(propertyName, reflectedType.name)
    {
      if propertyName in getTypes then Success(getTypes[propertyName])
      else Failure(NoGetter(propertyName, reflectedType.name))
    }

    predicate HasSetter(propertyName: string) {
      propertyName in setMethods
    }

    predicate HasGetter(propertyName: string) {
      propertyName in getMethods
    }

    /** `findPropertyName`: the property whose upper-case form is the name's. */
    function FindPropertyName(name: string): Option<string> {
      var u := ToUpper(name);
      if u in caseInsensitivePropertyMap then Some(caseInsensitivePropertyMap[u]) else None
    }
  }

  /** On a valid reflector, a type lookup succeeds exactly when the invoker lookup does. */
  lemma AccessorsAgree(refl: Reflector, name: string)
    requires refl.Valid()
    ensures refl.GetSetterType(name).Success? <==> refl.HasSetter(name)
    ensures refl.GetSetInvoker(name).Success? <==> refl.HasSetter(name)
    ensures refl.GetGetterType(name).Success? <==> refl.HasGetter(name)
    ensures refl.GetGetInvoker(name).Success? <==> refl.HasGetter(name)
    ensures name in refl.readablePropertyNames <==> refl.HasGetter(name)
    ensures name in refl.writeablePropertyNames <==> refl.HasSetter(name)
  {
  }

  predicate IsProperty(refl: Reflector, q: string) {
    q in refl.getMethods || q in refl.setMethods
  }

  /**
   * `findPropertyName` finds a property that equals the name ignoring case whenever one exists,
   * and prefers a writable one.
   */
  lemma FindPropertyNameSpec(refl: Reflector, name: string)
    requires refl.Valid()
    ensures var r := refl.FindPropertyName(name);
      r.Some? ==> IsProperty(refl, r.value) && EqualsIgnoreCase(r.value, name)
    ensures refl.FindPropertyName(name).Some? <==>
      exists q :: IsProperty(refl, q) && EqualsIgnoreCase(q, name)
    ensures (exists q :: q in refl.setMethods && EqualsIgnoreCase(q, name)) ==>
      var r := refl.FindPropertyName(name); r.Some? && r.value in refl.setMethods
  {
    var readable, writeable := refl.readablePropertyNames, refl.writeablePropertyNames;
    CaseMapLookup(readable, writeable, name);
    if exists q :: IsProperty(refl, q) && EqualsIgnoreCase(q, name) {
      var q :| IsProperty(refl, q) && EqualsIgnoreCase(q, name);
      assert q in readable || q in writeable;
    }
    if exists q :: q in refl.setMethods && EqualsIgnoreCase(q, name) {
      var q :| q in refl.setMethods && EqualsIgnoreCase(q, name);
      assert q in writeable;
    }
  }

  /** The case-insensitive map of two name lists: what a lookup of a name's upper-case form finds. */
  lemma CaseMapLookup(readable: seq<string>, writeable: seq<string>, name: string)
    ensures var cm := PutUpper(PutUpper(map[], readable), writeable);
      var u := ToUpper(name);
      (u in cm ==> (cm[u] in readable || cm[u] in writeable) && EqualsIgnoreCase(cm[u], name)) &&
      (u in cm <==> exists q :: (q in readable || q in writeable) && EqualsIgnoreCase(q, name)) &&
      ((exists q :: q in writeable && EqualsIgnoreCase(q, name)) ==> u in cm && cm[u] in writeable)
  {
    var first := PutUpper(map[], readable);
    PutUpperFacts(map[], readable);
    PutUpperFacts(first, writeable);
    var u := ToUpper(name);
    if exists q :: (q in readable || q in writeable) && EqualsIgnoreCase(q, name) {
      var q :| (q in readable || q in writeable) && EqualsIgnoreCase(q, name);
      if q in readable {
        var i :| 0 <= i < |readable| && readable[i] == q;
        assert UpperAmong(readable, u);
      } else {
        var i :| 0 <= i < |writeable| && writeable[i] == q;
        assert UpperAmong(writeable, u);
      }
    }
    if exists q :: q in writeable && EqualsIgnoreCase(q, name) {
      var q :| q in writeable && EqualsIgnoreCase(q, name);
      var i :| 0 <= i < |writeable| && writeable[i] == q;
      assert UpperAmong(writeable, u);
    }
  }

  // ---------------------------------------------------------------------------------------
  // The whole construction

  /** The methods `getClassMethods` collects for the hierarchy. */
  function UniqueMethodsOf(hierarchy: seq<ClassDecl>): map<string, JMethod> {
    UniqueSpec(map[], VisitOrder(hierarchy))
  }

  /** Some collected method is an accessor of the given kind for property p. */
  predicate HasAccessorMethod(hierarchy: seq<ClassDecl>, methodToProperty: string -> string,
                              kind: AccessorKind, p: string)
  {
    exists m :: m in UniqueMethodsOf(hierarchy).Values && IsAccessor(m, kind) && methodToProperty(m.name) == p
  }

  /** An accessor entry for property p, with its type, comes from a method or field of the hierarchy. */
  predicate EntrySound(hierarchy: seq<ClassDecl>, methodToProperty: string -> string, kind: AccessorKind,
                       p: string, inv: Invoker, t: JavaClass)
  {
    match inv
    case MethodInvoker(m) =>
      m in UniqueMethodsOf(hierarchy).Values && IsAccessor(m, kind) && methodToProperty(m.name) == p &&
      (kind == Getter ==> t == m.returnType) &&
      (kind == Setter ==> OneParameter(m) && t == SetterParam(m))
    case SetFieldInvoker(f) =>
      kind == Setter && f in AllFields(hierarchy) && SettableField(f) && f.name == p && t == f.fieldType
    case GetFieldInvoker(f) =>
      kind == Getter && f in AllFields(hierarchy) && GettableField(f) && f.name == p && t == f.fieldType
  }

  /** The property groups CollectConflicts forms are exactly the properties with an accessor method. */
  lemma ConflictKeys(hierarchy: seq<ClassDecl>, methods: seq<JMethod>, kind: AccessorKind,
                     methodToProperty: string -> string, conflicting: map<string, seq<JMethod>>)
    requires forall m :: m in UniqueMethodsOf(hierarchy).Values <==> m in methods
    requires forall p :: p in conflicting <==> Candidates(methods, kind, methodToProperty, p) != []
    ensures forall p :: p in conflicting <==> HasAccessorMethod(hierarchy, methodToProperty, kind, p)
  {
    forall p | HasAccessorMethod(hierarchy, methodToProperty, kind, p)
      ensures p in conflicting
    {
      var m :| m in UniqueMethodsOf(hierarchy).Values && IsAccessor(m, kind) && methodToProperty(m.name) == p;
      var j :| 0 <= j < |methods| && methods[j] == m;
      CandidatesComplete(methods, kind, methodToProperty, j);
    }
    forall p | p in conflicting
      ensures HasAccessorMethod(hierarchy, methodToProperty, kind, p)
    {
      var c := Candidates(methods, kind, methodToProperty, p);
      assert c[0] in methods;
    }
  }

  /** The entries after AddFields are sound when the method entries before it were. */
  lemma FieldsKeepSound(hierarchy: seq<ClassDecl>, methodToProperty: string -> string, kind: AccessorKind,
                        invokers0: map<string, Invoker>, types0: map<string, JavaClass>,
                        invokers: map<string, Invoker>, types: map<string, JavaClass>)
    requires invokers0.Keys == types0.Keys
    requires forall p :: p in invokers0 ==> EntrySound(hierarchy, methodToProperty, kind, p, invokers0[p], types0[p])
    requires var fields := AllFields(hierarchy);
      FieldsAdded(fields, |fields|, kind == Setter, invokers0, types0, invokers, types)
    requires invokers.Keys == types.Keys
    ensures forall p :: p in invokers ==> EntrySound(hierarchy, methodToProperty, kind, p, invokers[p], types[p])
    ensures forall p :: p in invokers ==> IsValidPropertyName(p) || p in invokers0
  {
    var fields := AllFields(hierarchy);
    forall p | p in invokers
      ensures EntrySound(hierarchy, methodToProperty, kind, p, invokers[p], types[p])
      ensures IsValidPropertyName(p) || p in invokers0
    {
      if p !in invokers0 {
        var j :| 0 <= j < |fields| && FirstQualifying(fields, j, kind == Setter) && fields[j].name == p;
        assert fields[j] in fields;
      }
    }
  }

  /**
   * The Java constructor: collect the class's methods, resolve getter and then setter
   * conflicts, fill in fields, and describe the result. A conflict that cannot be resolved
   * is a ReflectionException.
   */
  method NewReflector(hierarchy: seq<ClassDecl>, methodToProperty: string -> string)
    returns (r: Result<Reflector, ReflectionError>)
    requires |hierarchy| > 0
    ensures r.Success? ==> r.value.Valid() && r.value.reflectedType == hierarchy[0].cls
    ensures r.Success? ==> forall p :: p in r.value.getMethods ==>
      EntrySound(hierarchy, methodToProperty, Getter, p, r.value.getMethods[p], r.value.getTypes[p])
    ensures r.Success? ==> forall p :: p in r.value.setMethods ==>
      EntrySound(hierarchy, methodToProperty, Setter, p, r.value.setMethods[p], r.value.setTypes[p])
    ensures r.Success? ==> forall p :: HasAccessorMethod(hierarchy, methodToProperty, Getter, p) && IsValidPropertyName(p) ==>
      p in r.value.getMethods && r.value.getMethods[p].MethodInvoker?
    ensures r.Success? ==> forall p :: HasAccessorMethod(hierarchy, methodToProperty, Setter, p) && IsValidPropertyName(p) ==>
      p in r.value.setMethods && r.value.setMethods[p].MethodInvoker?
    ensures r.Success? ==> var fields := AllFields(hierarchy);
      forall j :: (0 <= j < |fields| && FirstQualifying(fields, j, false) &&
                   !HasAccessorMethod(hierarchy, methodToProperty, Getter, fields[j].name)) ==>
        fields[j].name in r.value.getMethods && r.value.getMethods[fields[j].name] == GetFieldInvoker(fields[j])
    ensures r.Success? ==> var fields := AllFields(hierarchy);
      forall j :: (0 <= j < |fields| && FirstQualifying(fields, j, true) &&
                   !HasAccessorMethod(hierarchy, methodToProperty, Setter, fields[j].name)) ==>
        fields[j].name in r.value.setMethods && r.value.setMethods[fields[j].name] == SetFieldInvoker(fields[j])
    ensures r.Failure? ==> r.error.AmbiguousGetter? || r.error.AmbiguousSetter?
    ensures GettersComparableIn(hierarchy, methodToProperty) && SettersComparableIn(hierarchy, methodToProperty) ==> r.Success?
  {
    var resolved := ResolveMethods(hierarchy, methodToProperty);
    if resolved.Failure? {
      return Failure(resolved.error);
    }
    var (getMethods0, getTypes0, setMethods0, setTypes0) := resolved.value;
    var getMethods, getTypes, setMethods, setTypes := AddFields(hierarchy, getMethods0, getTypes0, setMethods0, setTypes0);
    FieldStage(hierarchy, methodToProperty, Getter, getMethods0, getTypes0, getMethods, getTypes);
    FieldStage(hierarchy, methodToProperty, Setter, setMethods0, setTypes0, setMethods, setTypes);
    var reflector := new Reflector(hierarchy[0].cls, getMethods, getTypes, setMethods, setTypes);
    return Success(reflector);
  }

  /**
   * The method half of the constructor: collect the class's methods, then group and resolve
   * the getters, then the setters (which look at the getter types).
   */
  method ResolveMethods(hierarchy: seq<ClassDecl>, methodToProperty: string -> string)
    returns (r: Result<(map<string, Invoker>, map<string, JavaClass>, map<string, Invoker>, map<string, JavaClass>), ReflectionError>)
    ensures r.Success? ==> MethodEntries(hierarchy, methodToProperty, Getter, r.value.0, r.value.1)
    ensures r.Success? ==> MethodEntries(hierarchy, methodToProperty, Setter, r.value.2, r.value.3)
    ensures r.Failure? ==> r.error.AmbiguousGetter? || r.error.AmbiguousSetter?
    ensures GettersComparableIn(hierarchy, methodToProperty) && SettersComparableIn(hierarchy, methodToProperty) ==> r.Success?
  {
    var uniqueMethods := GetClassMethods(hierarchy);
    UniqueMethodsInjective(hierarchy);
    var methods := MapValues(uniqueMethods);
    assert forall m :: m in UniqueMethodsOf(hierarchy).Values <==> m in methods;
    var getters := ResolveGetters(hierarchy, methodToProperty, methods);
    if getters.Failure? {
      return Failure(getters.error);
    }
    var (getMethods, getTypes) := getters.value;
    var setters := ResolveSetters(hierarchy, methodToProperty, methods, getTypes);
    if setters.Failure? {
      return Failure(setters.error);
    }
    var (setMethods, setTypes) := setters.value;
    return Success((getMethods, getTypes, setMethods, setTypes));
  }

  /** The getter half of ResolveMethods: collect the candidates per property, then resolve the conflicts. */
  method ResolveGetters(hierarchy: seq<ClassDecl>, methodToProperty: string -> string, methods: seq<JMethod>)
    returns (r: Result<(map<string, Invoker>, map<string, JavaClass>), ReflectionError>)
    requires forall m :: m in UniqueMethodsOf(hierarchy).Values <==> m in methods
    ensures r.Success? ==> MethodEntries(hierarchy, methodToProperty, Getter, r.value.0, r.value.1)
    ensures r.Failure? ==> r.error.AmbiguousGetter?
    ensures Distinct(methods) && GettersComparableIn(hierarchy, methodToProperty) ==> r.Success?
  {
    var conflicting := CollectConflicts(methods, Getter, methodToProperty);
    ConflictKeys(hierarchy, methods, Getter, methodToProperty, conflicting);
    if Distinct(methods) && GettersComparableIn(hierarchy, methodToProperty) {
      GetterConflictsComparable(hierarchy, methods, methodToProperty, conflicting);
    }
    r := ResolveGetterConflicts(conflicting);
    if r.Success? {
      MethodStage(hierarchy, methodToProperty, Getter, methods, conflicting, r.value.0, r.value.1);
    }
  }

  /** The setter half of ResolveMethods, which consults the getter types already resolved. */
  method ResolveSetters(hierarchy: seq<ClassDecl>, methodToProperty: string -> string, methods: seq<JMethod>,
                        getTypes: map<string, JavaClass>)
    returns (r: Result<(map<string, Invoker>, map<string, JavaClass>), ReflectionError>)
    requires forall m :: m in UniqueMethodsOf(hierarchy).Values <==> m in methods
    ensures r.Success? ==> MethodEntries(hierarchy, methodToProperty, Setter, r.value.0, r.value.1)
    ensures r.Failure? ==> r.error.AmbiguousSetter?
    ensures Distinct(methods) && SettersComparableIn(hierarchy, methodToProperty) ==> r.Success?
  {
    var conflicting := CollectConflicts(methods, Setter, methodToProperty);
    ConflictKeys(hierarchy, methods, Setter, methodToProperty, conflicting);
    if Distinct(methods) && SettersComparableIn(hierarchy, methodToProperty) {
      SettersComparableCandidates(hierarchy, methods, methodToProperty);
    }
    r := ResolveSetterConflicts(conflicting, getTypes);
    if r.Success? {
      MethodStage(hierarchy, methodToProperty, Setter, methods, conflicting, r.value.0, r.value.1);
    }
  }

  /** No two collected getters of one property have equal or unrelated return types. */
  ghost predicate GettersComparableIn(hierarchy: seq<ClassDecl>, methodToProperty: string -> string) {
    forall m1, m2 ::
      (m1 in UniqueMethodsOf(hierarchy).Values && m2 in UniqueMethodsOf(hierarchy).Values && m1 != m2 &&
       IsAccessor(m1, Getter) && IsAccessor(m2, Getter) && methodToProperty(m1.name) == methodToProperty(m2.name)) ==>
      m1.returnType != m2.returnType && !Unrelated(m1.returnType, m2.returnType)
  }

  /** No two collected setters of one property have unrelated parameter types. */
  ghost predicate SettersComparableIn(hierarchy: seq<ClassDecl>, methodToProperty: string -> string) {
    forall m1, m2 ::
      (m1 in UniqueMethodsOf(hierarchy).Values && m2 in UniqueMethodsOf(hierarchy).Values && m1 != m2 &&
       IsAccessor(m1, Setter) && IsAccessor(m2, Setter) && methodToProperty(m1.name) == methodToProperty(m2.name)) ==>
      !Unrelated(SetterParam(m1), SetterParam(m2))
  }

  /** The candidates drawn from distinct methods are distinct. */
  lemma {:induction false} CandidatesDistinct(methods: seq<JMethod>, kind: AccessorKind, methodToProperty: string -> string, p: string)
    requires Distinct(methods)
    ensures Distinct(Candidates(methods, kind, methodToProperty, p))
    decreases |methods|
  {
    if |methods| > 0 {
      var init := methods[..|methods| - 1];
      assert Distinct(init) by {
        forall i, j | 0 <= i < j < |init| ensures init[i] != init[j] {
          assert init[i] == methods[i] && init[j] == methods[j];
        }
      }
      CandidatesDistinct(init, kind, methodToProperty, p);
      var m := methods[|methods| - 1];
      assert m !in init by {
        forall i | 0 <= i < |init| ensures init[i] != m {
          assert init[i] == methods[i];
        }
      }
    }
  }

  /** Over distinct methods, comparable getters in the hierarchy make every property's getters comparable. */
  lemma GettersComparableCandidates(hierarchy: seq<ClassDecl>, methods: seq<JMethod>, methodToProperty: string -> string, p: string)
    requires forall m :: m in UniqueMethodsOf(hierarchy).Values <==> m in methods
    requires Distinct(methods)
    requires GettersComparableIn(hierarchy, methodToProperty)
    ensures GettersComparable(Candidates(methods, Getter, methodToProperty, p))
  {
    var c := Candidates(methods, Getter, methodToProperty, p);
    CandidatesDistinct(methods, Getter, methodToProperty, p);
    forall i, j | 0 <= i < j < |c| ensures !BadGetterPair(c, i, j) {
      assert c[i] != c[j] && c[i] in methods && c[j] in methods;
    }
  }

  /** The conflict groups of distinct methods are all comparable when the hierarchy's getters are. */
  lemma GetterConflictsComparable(hierarchy: seq<ClassDecl>, methods: seq<JMethod>, methodToProperty: string -> string,
                                  conflicting: map<string, seq<JMethod>>)
    requires forall m :: m in UniqueMethodsOf(hierarchy).Values <==> m in methods
    requires Distinct(methods) && GettersComparableIn(hierarchy, methodToProperty)
    requires forall p :: p in conflicting ==> conflicting[p] == Candidates(methods, Getter, methodToProperty, p)
    ensures AllGettersComparable(conflicting)
  {
    forall p | p in conflicting ensures GettersComparable(conflicting[p]) {
      GettersComparableCandidates(hierarchy, methods, methodToProperty, p);
    }
  }

  /** Over distinct methods, comparable setters in the hierarchy make every property's setters comparable. */
  lemma SettersComparableCandidates(hierarchy: seq<ClassDecl>, methods: seq<JMethod>, methodToProperty: string -> string)
    requires forall m :: m in UniqueMethodsOf(hierarchy).Values <==> m in methods
    requires Distinct(methods)
    requires SettersComparableIn(hierarchy, methodToProperty)
    ensures forall p :: SettersComparable(Candidates(methods, Setter, methodToProperty, p))
  {
    forall p ensures SettersComparable(Candidates(methods, Setter, methodToProperty, p)) {
      var c := Candidates(methods, Setter, methodToProperty, p);
      CandidatesDistinct(methods, Setter, methodToProperty, p);
      forall i, j | 0 <= i < j < |c| ensures !Unrelated(SetterParam(c[i]), SetterParam(c[j])) {
        assert c[i] != c[j] && c[i] in methods && c[j] in methods;
      }
    }
  }

  /** After conflict resolution: one method invoker per validly named accessor property, each sound. */
  ghost predicate MethodEntries(hierarchy: seq<ClassDecl>, methodToProperty: string -> string, kind: AccessorKind,
                                invokers: map<string, Invoker>, types: map<string, JavaClass>)
  {
    invokers.Keys == types.Keys &&
    (forall p :: p in invokers <==> HasAccessorMethod(hierarchy, methodToProperty, kind, p) && IsValidPropertyName(p)) &&
    (forall p :: p in invokers ==> invokers[p].MethodInvoker?) &&
    (forall p :: p in invokers ==> EntrySound(hierarchy, methodToProperty, kind, p, invokers[p], types[p]))
  }

  /** After the fields are added: the entries the constructor describes. */
  ghost predicate FinalAccessors(hierarchy: seq<ClassDecl>, methodToProperty: string -> string, kind: AccessorKind,
                                 invokers: map<string, Invoker>, types: map<string, JavaClass>)
  {
    var fields := AllFields(hierarchy);
    invokers.Keys == types.Keys &&
    (forall p :: p in invokers ==> IsValidPropertyName(p)) &&
    (forall p :: p in invokers ==> EntrySound(hierarchy, methodToProperty, kind, p, invokers[p], types[p])) &&
    (forall p :: HasAccessorMethod(hierarchy, methodToProperty, kind, p) && IsValidPropertyName(p) ==>
      p in invokers && invokers[p].MethodInvoker?) &&
    (forall j :: (0 <= j < |fields| && FirstQualifying(fields, j, kind == Setter) &&
                  !HasAccessorMethod(hierarchy, methodToProperty, kind, fields[j].name)) ==>
      fields[j].name in invokers && invokers[fields[j].name] == FieldInvoker(fields[j], kind == Setter))
  }

  /** The resolved groups give sound method entries for exactly the validly named accessor properties. */
  lemma MethodStage(hierarchy: seq<ClassDecl>, methodToProperty: string -> string, kind: AccessorKind,
                    methods: seq<JMethod>, conflicting: map<string, seq<JMethod>>,
                    invokers: map<string, Invoker>, types: map<string, JavaClass>)
    requires forall m :: m in UniqueMethodsOf(hierarchy).Values <==> m in methods
    requires forall p :: p in conflicting <==> HasAccessorMethod(hierarchy, methodToProperty, kind, p)
    requires forall p :: p in conflicting ==> conflicting[p] == Candidates(methods, kind, methodToProperty, p)
    requires invokers.Keys == (set p | p in conflicting && IsValidPropertyName(p)) && types.Keys == invokers.Keys
    requires forall p :: p in invokers ==>
      invokers[p].MethodInvoker? && invokers[p].invoked in conflicting[p] &&
      (kind == Getter ==> types[p] == invokers[p].invoked.returnType) &&
      (kind == Setter ==> OneParameter(invokers[p].invoked) && types[p] == SetterParam(invokers[p].invoked))
    ensures MethodEntries(hierarchy, methodToProperty, kind, invokers, types)
  {
    MethodEntriesSound(hierarchy, methodToProperty, kind, methods, conflicting, invokers);
    forall p
      ensures p in invokers <==> HasAccessorMethod(hierarchy, methodToProperty, kind, p) && IsValidPropertyName(p)
    {
      assert p in invokers <==> p in conflicting && IsValidPropertyName(p);
    }
    forall p | p in invokers
      ensures EntrySound(hierarchy, methodToProperty, kind, p, invokers[p], types[p])
    {
      var m := invokers[p].invoked;
      assert m in UniqueMethodsOf(hierarchy).Values && IsAccessor(m, kind) && methodToProperty(m.name) == p;
    }
  }

  /** Adding the fields to sound method entries gives the described entries. */
  lemma FieldStage(hierarchy: seq<ClassDecl>, methodToProperty: string -> string, kind: AccessorKind,
                   invokers0: map<string, Invoker>, types0: map<string, JavaClass>,
                   invokers: map<string, Invoker>, types: map<string, JavaClass>)
    requires MethodEntries(hierarchy, methodToProperty, kind, invokers0, types0)
    requires var fields := AllFields(hierarchy);
      FieldsAdded(fields, |fields|, kind == Setter, invokers0, types0, invokers, types)
    requires invokers.Keys == types.Keys
    ensures FinalAccessors(hierarchy, methodToProperty, kind, invokers, types)
  {
    FieldsKeepSound(hierarchy, methodToProperty, kind, invokers0, types0, invokers, types);
    FinalEntries(hierarchy, methodToProperty, kind, invokers0, types0, invokers, types);
  }

  /** A method entry chosen from a property's group is one of the property's accessors. */
  lemma MethodEntriesSound(hierarchy: seq<ClassDecl>, methodToProperty: string -> string, kind: AccessorKind,
                           methods: seq<JMethod>, conflicting: map<string, seq<JMethod>>,
                           invokers: map<string, Invoker>)
    requires forall m :: m in UniqueMethodsOf(hierarchy).Values <==> m in methods
    requires forall p :: p in conflicting ==> conflicting[p] == Candidates(methods, kind, methodToProperty, p)
    requires forall p :: p in invokers ==>
      p in conflicting && invokers[p].MethodInvoker? && invokers[p].invoked in conflicting[p]
    ensures forall p :: p in invokers ==>
      invokers[p].invoked in UniqueMethodsOf(hierarchy).Values && IsAccessor(invokers[p].invoked, kind) &&
      methodToProperty(invokers[p].invoked.name) == p
  {
    forall p | p in invokers
      ensures invokers[p].invoked in methods && IsAccessor(invokers[p].invoked, kind) &&
        methodToProperty(invokers[p].invoked.name) == p
    {
      var c := Candidates(methods, kind, methodToProperty, p);
      var i :| 0 <= i < |c| && c[i] == invokers[p].invoked;
    }
  }

  /** Method accessors are never replaced by fields; fields fill in only the names left without one. */
  lemma FinalEntries(hierarchy: seq<ClassDecl>, methodToProperty: string -> string, kind: AccessorKind,
                     invokers0: map<string, Invoker>, types0: map<string, JavaClass>,
                     invokers: map<string, Invoker>, types: map<string, JavaClass>)
    requires forall p :: p in invokers0 <==> HasAccessorMethod(hierarchy, methodToProperty, kind, p) && IsValidPropertyName(p)
    requires forall p :: p in invokers0 ==> invokers0[p].MethodInvoker?
    requires var fields := AllFields(hierarchy);
      FieldsAdded(fields, |fields|, kind == Setter, invokers0, types0, invokers, types)
    ensures forall p :: HasAccessorMethod(hierarchy, methodToProperty, kind, p) && IsValidPropertyName(p) ==>
      p in invokers && invokers[p].MethodInvoker?
    ensures var fields := AllFields(hierarchy);
      forall j :: (0 <= j < |fields| && FirstQualifying(fields, j, kind == Setter) &&
                   !HasAccessorMethod(hierarchy, methodToProperty, kind, fields[j].name)) ==>
        fields[j].name in invokers && invokers[fields[j].name] == FieldInvoker(fields[j], kind == Setter)
  {
  }
}
