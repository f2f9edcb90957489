/**
 * Java classes as opaque values. Reflection is not modelled: a class is its name, its
 * superclass chain, the interfaces it declares and whether it is an enum. Assignability
 * (`Class.isAssignableFrom`) is the walk up that structure.
 */
module JavaTypes {

  datatype JavaClass = JavaClass(
    name: string,
    superclass: Option<JavaClass>,
    interfaces: seq<JavaClass>,
    isEnum: bool)

  import opened Wrappers

  /**
   * `target.isAssignableFrom(source)`: `source` is `target` or inherits from it, or `target`
   * is `java.lang.Object` and `source` is a reference type. The second case covers interfaces,
   * whose superclass is absent but which `Object` is still assignable from.
   */
  predicate IsAssignableFrom(target: JavaClass, source: JavaClass) {
    Inherits(target, source) || (target == ObjectClass && !IsPrimitive(source))
  }

  /** `source` is `target` or reaches it through its superclass chain and declared interfaces. */
  predicate Inherits(target: JavaClass, source: JavaClass)
    decreases source
  {
    || target == source
    || (source.superclass.Some? && Inherits(target, source.superclass.value))
    || (exists k :: 0 <= k < |source.interfaces| && Inherits(target, source.interfaces[k]))
  }

  /** Inheritance is transitive. */
  lemma {:induction false} InheritsTransitive(a: JavaClass, b: JavaClass, c: JavaClass)
    requires Inherits(a, b) && Inherits(b, c)
    ensures Inherits(a, c)
    decreases c
  {
    if b == c {
    } else if c.superclass.Some? && Inherits(b, c.superclass.value) {
      InheritsTransitive(a, b, c.superclass.value);
    } else {
      var k :| 0 <= k < |c.interfaces| && Inherits(b, c.interfaces[k]);
      InheritsTransitive(a, b, c.interfaces[k]);
    }
  }

  /** A class with neither superclass nor interfaces inherits only from itself. */
  lemma InheritsRoot(target: JavaClass, source: JavaClass)
    requires source.superclass.None? && source.interfaces == []
    ensures Inherits(target, source) <==> target == source
  {
  }

  /** Assignability is transitive. */
  lemma AssignableTransitive(a: JavaClass, b: JavaClass, c: JavaClass)
    requires IsAssignableFrom(a, b) && IsAssignableFrom(b, c)
    ensures IsAssignableFrom(a, c)
  {
    if Inherits(a, b) && Inherits(b, c) {
      InheritsTransitive(a, b, c);
    } else if Inherits(b, c) {
      // a is Object and b a reference type; a primitive c would inherit only from itself
      if IsPrimitive(c) {
        InheritsRoot(b, c);
      }
    } else {
      // b is Object, which inherits only from itself
      InheritsRoot(a, b);
    }
  }

  /** The length of the longest inheritance path above a class. */
  function Height(c: JavaClass): (h: nat)
    decreases c
  {
    var fromSuper := if c.superclass.Some? then Height(c.superclass.value) + 1 else 0;
    var fromInterfaces := MaxHeight(c, 0);
    if fromSuper < fromInterfaces then fromInterfaces else fromSuper
  }

  /** The largest `Height + 1` among the interfaces of `c` from index `k` on. */
  function MaxHeight(c: JavaClass, k: nat): (h: nat)
    requires k <= |c.interfaces|
    ensures forall j :: k <= j < |c.interfaces| ==> Height(c.interfaces[j]) + 1 <= h
    decreases c, |c.interfaces| - k
  {
    if k == |c.interfaces| then 0
    else
      var here := Height(c.interfaces[k]) + 1;
      var rest := MaxHeight(c, k + 1);
      if here < rest then rest else here
  }

  /** A proper ancestor sits strictly lower than its descendant. */
  lemma {:induction false} InheritsHeight(target: JavaClass, source: JavaClass)
    requires Inherits(target, source)
    ensures Height(target) <= Height(source)
    ensures target != source ==> Height(target) < Height(source)
    decreases source
  {
    if target == source {
    } else if source.superclass.Some? && Inherits(target, source.superclass.value) {
      InheritsHeight(target, source.superclass.value);
    } else {
      var k :| 0 <= k < |source.interfaces| && Inherits(target, source.interfaces[k]);
      InheritsHeight(target, source.interfaces[k]);
      assert Height(source.interfaces[k]) + 1 <= MaxHeight(source, 0);
    }
  }

  /** Two classes each assignable from the other are the same class. */
  lemma AssignableAntisymmetric(a: JavaClass, b: JavaClass)
    requires IsAssignableFrom(a, b) && IsAssignableFrom(b, a)
    ensures a == b
  {
    if Inherits(a, b) && Inherits(b, a) {
      if a != b {
        InheritsHeight(a, b);
        InheritsHeight(b, a);
      }
    } else if Inherits(a, b) {
      // b is Object, which inherits only from itself
      InheritsRoot(a, b);
    } else {
      InheritsRoot(b, a);
    }
  }

  /** `Object` is assignable from an interface such as `java.util.Map`, not from a primitive. */
  lemma ObjectAboveInterfaces()
    ensures IsAssignableFrom(ObjectClass, MapInterface) && !IsAssignableFrom(MapInterface, ObjectClass)
    ensures !IsAssignableFrom(ObjectClass, IntType) && IsAssignableFrom(ObjectClass, IntegerClass)
  {
    InheritsRoot(MapInterface, ObjectClass);
    InheritsRoot(ObjectClass, IntType);
  }

  function Leaf(name: string, superclass: Option<JavaClass>): JavaClass {
    JavaClass(name, superclass, [], false)
  }

  /** `java.lang.Object`. */
  const ObjectClass: JavaClass := Leaf("java.lang.Object", None)

  // The primitive classes have no superclass; `void.class.isPrimitive()` holds in Java as well.
  const VoidType: JavaClass := Leaf("void", None)
  const IntType: JavaClass := Leaf("int", None)
  const LongType: JavaClass := Leaf("long", None)
  const BooleanType: JavaClass := Leaf("boolean", None)

  const IntegerClass: JavaClass := Leaf("java.lang.Integer", Some(Leaf("java.lang.Number", Some(ObjectClass))))
  const LongClass: JavaClass := Leaf("java.lang.Long", Some(Leaf("java.lang.Number", Some(ObjectClass))))
  const BooleanClass: JavaClass := Leaf("java.lang.Boolean", Some(ObjectClass))
  const StringClass: JavaClass := Leaf("java.lang.String", Some(ObjectClass))
  const MapInterface: JavaClass := Leaf("java.util.Map", None)
  const RowBoundsClass: JavaClass := Leaf("org.apache.ibatis.session.RowBounds", Some(ObjectClass))
  const ResultHandlerInterface: JavaClass := Leaf("org.apache.ibatis.session.ResultHandler", None)

  const PrimitiveNames: set<string> := {"boolean", "byte", "char", "short", "int", "long", "float", "double", "void"}

  /** `Class.isPrimitive()` */
  predicate IsPrimitive(c: JavaClass) {
    c.name in PrimitiveNames && c.superclass == None && c.interfaces == []
  }
}

/** Java runtime values as the core sees them; `Ref` is any other object, by identity. */
module Values {
  datatype Value =
    | Null
    | Int(i: int)      // java.lang.Integer / int, a 32-bit value
    | Long(l: int)     // java.lang.Long / long, a 64-bit value
    | Bool(b: bool)
    | Str(s: string)
    | Ref(id: nat)

  const IntMin: int := -0x8000_0000
  const IntMax: int := 0x7fff_ffff
  const LongMin: int := -0x8000_0000_0000_0000
  const LongMax: int := 0x7fff_ffff_ffff_ffff

  predicate InInt32(x: int) {
    IntMin <= x <= IntMax
  }
}
