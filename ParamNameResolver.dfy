/**
 * ParamNameResolver: names the parameters of a mapper method (skipping RowBounds and
 * ResultHandler parameters) and turns an argument array into the parameter object handed to
 * the SQL layer, adding the generic aliases param1, param2, ...
 */
module ParamNameResolver {
  import opened Wrappers
  import opened Text
  import opened JavaTypes
  import opened Values

  const GenericNamePrefix: string := "param"

  datatype Annotation = ParamAnnotation(value: string) | OtherAnnotation(annotationType: string)

  /**
   * One declared parameter: its type, its annotations, and the name reflection reports for it
   * (`Parameter.getName()`; None where java.lang.reflect.Parameter is unavailable).
   */
  datatype MethodParameter = MethodParameter(
    paramType: JavaClass,
    annotations: seq<Annotation>,
    actualName: Option<string>)

  /**
   * The resolver's state: the sorted map from parameter index to name, as its entries in
   * increasing index order, and whether any parameter carried @Param.
   */
  datatype Resolver = Resolver(names: seq<(nat, string)>, hasParamAnnotation: bool)

  /** The parameter object built from the arguments. */
  datatype NamedParams = NoParams | Single(arg: Value) | ParamMap(entries: map<string, Value>)

  /** `isSpecialParameter`: RowBounds and ResultHandler parameters are not named. */
  predicate IsSpecialParameter(c: JavaClass) {
    IsAssignableFrom(RowBoundsClass, c) || IsAssignableFrom(ResultHandlerInterface, c)
  }

  /** The positions of the parameters that get a name, in increasing order. */
  function NamedIndices(params: seq<MethodParameter>, k: nat): (r: seq<nat>)
    requires k <= |params|
    ensures forall j :: 0 <= j < |r| ==> r[j] < k && !IsSpecialParameter(params[r[j]].paramType)
    ensures forall j, l :: 0 <= j < l < |r| ==> r[j] < r[l]
  {
    if k == 0 then []
    else if IsSpecialParameter(params[k - 1].paramType) then NamedIndices(params, k - 1)
    else NamedIndices(params, k - 1) + [k - 1]
  }

  /** Every parameter that is not special is among the named ones. */
  lemma {:induction false} NamedIndicesComplete(params: seq<MethodParameter>, k: nat, idx: nat)
    requires idx < k <= |params|
    requires !IsSpecialParameter(params[idx].paramType)
    ensures idx in NamedIndices(params, k)
  {
    if idx < k - 1 {
      NamedIndicesComplete(params, k - 1, idx);
    }
  }

  /** The value of the first @Param annotation, if any. */
  function ParamValue(annotations: seq<Annotation>): Option<string> {
    if |annotations| == 0 then None
    else if annotations[0].ParamAnnotation? then Some(annotations[0].value)
    else ParamValue(annotations[1..])
  }

  /** The name rule: @Param, else the actual name when enabled, else the count of names so far. */
  function ChosenName(p: MethodParameter, useActualParamName: bool, soFar: nat): string {
    match ParamValue(p.annotations)
    case Some(v) => v
    case None =>
      if useActualParamName && p.actualName.Some? then p.actualName.value else NatToString(soFar)
  }

  /** The names the constructor is meant to produce for the first k parameters. */
  function NamesUpTo(params: seq<MethodParameter>, useActualParamName: bool, k: nat): seq<(nat, string)>
    requires k <= |params|
  {
    if k == 0 then []
    else
      var before := NamesUpTo(params, useActualParamName, k - 1);
      if IsSpecialParameter(params[k - 1].paramType) then before
      else before + [(k - 1, ChosenName(params[k - 1], useActualParamName, |before|))]
  }

  /** One name per non-special parameter among the first k, at its position. */
  lemma {:induction false} NamesUpToIndices(params: seq<MethodParameter>, useActualParamName: bool, k: nat)
    requires k <= |params|
    ensures var r := NamesUpTo(params, useActualParamName, k);
      |r| == |NamedIndices(params, k)| &&
      forall j :: 0 <= j < |r| ==> r[j].0 == NamedIndices(params, k)[j]
  {
    if k > 0 {
      NamesUpToIndices(params, useActualParamName, k - 1);
    }
  }

  /** The names the constructor is meant to produce. */
  function SpecNames(params: seq<MethodParameter>, useActualParamName: bool): (r: seq<(nat, string)>)
    ensures |r| == |NamedIndices(params, |params|)|
    ensures forall j :: 0 <= j < |r| ==> r[j].0 == NamedIndices(params, |params|)[j]
  {
    NamesUpToIndices(params, useActualParamName, |params|);
    NamesUpTo(params, useActualParamName, |params|)
  }

  /** Some parameter among the first k is not special and carries @Param. */
  predicate AnnotatedUpTo(params: seq<MethodParameter>, k: nat)
    requires k <= |params|
  {
    k > 0 &&
    (AnnotatedUpTo(params, k - 1) ||
     (!IsSpecialParameter(params[k - 1].paramType) && ParamValue(params[k - 1].annotations).Some?))
  }

  lemma {:induction false} AnnotatedUpToExists(params: seq<MethodParameter>, k: nat)
    requires k <= |params|
    ensures AnnotatedUpTo(params, k) <==>
      exists i :: 0 <= i < k && !IsSpecialParameter(params[i].paramType) && ParamValue(params[i].annotations).Some?
  {
    if k > 0 {
      AnnotatedUpToExists(params, k - 1);
    }
  }

  /** The ParamNameResolver constructor. */
  method NewResolver(params: seq<MethodParameter>, useActualParamName: bool) returns (r: Resolver)
    ensures r.names == SpecNames(params, useActualParamName)
    ensures r.hasParamAnnotation <==>
      exists k :: 0 <= k < |params| && !IsSpecialParameter(params[k].paramType) && ParamValue(params[k].annotations).Some?
  {
    var names: seq<(nat, string)> := [];
    var hasParamAnnotation := false;
    var paramIndex := 0;
    while paramIndex < |params|
      invariant 0 <= paramIndex <= |params|
      invariant names == NamesUpTo(params, useActualParamName, paramIndex)
      invariant hasParamAnnotation == AnnotatedUpTo(params, paramIndex)
    {
      if IsSpecialParameter(params[paramIndex].paramType) {
        paramIndex := paramIndex + 1;
        continue;
      }
      var found := FindParamValue(params[paramIndex].annotations);
      var name: string;
      if found.Some? {
        hasParamAnnotation := true;
        name := found.value;
      } else if useActualParamName && params[paramIndex].actualName.Some? {
        name := params[paramIndex].actualName.value;
      } else {
        name := NatToString(|names|);
      }
      assert name == ChosenName(params[paramIndex], useActualParamName, |names|);
      names := names + [(paramIndex, name)];
      paramIndex := paramIndex + 1;
    }
    AnnotatedUpToExists(params, |params|);
    r := Resolver(names, hasParamAnnotation);
  }

  /** The inner loop of the constructor: the value of the first @Param annotation. */
  method FindParamValue(anns: seq<Annotation>) returns (name: Option<string>)
    ensures name == ParamValue(anns)
  {
    name := None;
    var a := 0;
    while a < |anns|
      invariant 0 <= a <= |anns|
      invariant ParamValue(anns) == ParamValue(anns[a..])
    {
      if anns[a].ParamAnnotation? {
        return Some(anns[a].value);
      }
      assert anns[a..][1..] == anns[a + 1..];
      a := a + 1;
    }
  }

  /** Special parameters never receive a name, and every other parameter does. */
  lemma NamesSkipExactlySpecial(params: seq<MethodParameter>, useActualParamName: bool, idx: nat)
    requires idx < |params|
    ensures (exists j :: 0 <= j < |SpecNames(params, useActualParamName)| && SpecNames(params, useActualParamName)[j].0 == idx)
            <==> !IsSpecialParameter(params[idx].paramType)
  {
    var names := SpecNames(params, useActualParamName);
    var ix := NamedIndices(params, |params|);
    if !IsSpecialParameter(params[idx].paramType) {
      NamedIndicesComplete(params, |params|, idx);
      var j :| 0 <= j < |ix| && ix[j] == idx;
      assert names[j].0 == idx;
    }
  }

  /** `getNames()`: the names in increasing parameter index. */
  function GetNames(r: Resolver): (s: seq<string>)
    ensures |s| == |r.names| && forall j :: 0 <= j < |s| ==> s[j] == r.names[j].1
  {
    seq(|r.names|, j requires 0 <= j < |r.names| => r.names[j].1)
  }

  /** The generic alias of the i-th named parameter (0-based): "param" + (i + 1). */
  function GenericName(i: nat): string {
    GenericNamePrefix + NatToString(i + 1)
  }

  predicate IsName(r: Resolver, s: string) {
    exists j :: 0 <= j < |r.names| && r.names[j].1 == s
  }

  /** The arguments cover every named position. */
  predicate Covers(r: Resolver, args: seq<Value>) {
    forall j :: 0 <= j < |r.names| ==> r.names[j].0 < |args|
  }

  /** The map `getNamedParams` fills in, after its first i iterations. */
  function BuildParamMap(r: Resolver, args: seq<Value>, i: nat): map<string, Value>
    requires i <= |r.names| && Covers(r, args)
  {
    if i == 0 then map[]
    else
      var entry := r.names[i - 1];
      var m := BuildParamMap(r, args, i - 1)[entry.1 := args[entry.0]];
      if IsName(r, GenericName(i - 1)) then m else m[GenericName(i - 1) := args[entry.0]]
  }

  /** `getNamedParams(args)`; None is a null argument array. */
  method GetNamedParams(r: Resolver, args: Option<seq<Value>>) returns (p: NamedParams)
    requires args.Some? ==> Covers(r, args.value)
    ensures (args.None? || |r.names| == 0) <==> p.NoParams?
    ensures p.Single? <==> args.Some? && |r.names| == 1 && !r.hasParamAnnotation
    ensures p.Single? ==> p.arg == args.value[r.names[0].0]
    ensures p.ParamMap? ==> args.Some? && p.entries == BuildParamMap(r, args.value, |r.names|)
  {
    if args.None? || |r.names| == 0 {
      return NoParams;
    } else if !r.hasParamAnnotation && |r.names| == 1 {
      return Single(args.value[r.names[0].0]);
    }
    var a := args.value;
    var param: map<string, Value> := map[];
    var i := 0;
    while i < |r.names|
      invariant 0 <= i <= |r.names|
      invariant param == BuildParamMap(r, a, i)
    {
      var entry := r.names[i];
      var value := a[entry.0];
      param := param[entry.1 := value];
      var genericParamName := GenericName(i);
      if !IsName(r, genericParamName) {
        param := param[genericParamName := value];
      }
      assert param == BuildParamMap(r, a, i + 1);
      i := i + 1;
    }
    return ParamMap(param);
  }

  /** Some of the first i parameters is named key. */
  predicate NamedBefore(r: Resolver, i: nat, key: string)
    requires i <= |r.names|
  {
    exists j :: 0 <= j < i && r.names[j].1 == key
  }

  /** key is the alias of one of the first i parameters, and no name shadows it. */
  predicate AliasBefore(r: Resolver, i: nat, key: string)
  {
    !IsName(r, key) && exists g :: 0 <= g < i && key == GenericName(g)
  }

  /** The keys of the parameter map: every name, and every generic alias no name shadows. */
  lemma {:induction false} ParamMapKeys(r: Resolver, args: seq<Value>, i: nat, key: string)
    requires i <= |r.names| && Covers(r, args)
    ensures key in BuildParamMap(r, args, i) <==> NamedBefore(r, i, key) || AliasBefore(r, i, key)
  {
    if i > 0 {
      ParamMapKeys(r, args, i - 1, key);
      var n := r.names[i - 1].1;
      var g := GenericName(i - 1);
      assert key in BuildParamMap(r, args, i) <==>
        key in BuildParamMap(r, args, i - 1) || key == n || (key == g && !IsName(r, g));
      assert NamedBefore(r, i, key) <==> NamedBefore(r, i - 1, key) || key == n by {
        if NamedBefore(r, i, key) && !NamedBefore(r, i - 1, key) {
          var j :| 0 <= j < i && r.names[j].1 == key;
          assert j == i - 1;
        }
      }
      assert AliasBefore(r, i, key) <==> AliasBefore(r, i - 1, key) || (key == g && !IsName(r, g)) by {
        if AliasBefore(r, i, key) && !AliasBefore(r, i - 1, key) {
          var h :| 0 <= h < i && key == GenericName(h);
          assert h == i - 1;
        }
      }
    }
  }

  /** A name maps to the argument of its last parameter carrying that name. */
  lemma {:induction false} ParamMapNamedValue(r: Resolver, args: seq<Value>, i: nat, j: nat)
    requires i <= |r.names| && Covers(r, args) && j < i
    requires forall l :: j < l < i ==> r.names[l].1 != r.names[j].1
    ensures r.names[j].1 in BuildParamMap(r, args, i)
    ensures BuildParamMap(r, args, i)[r.names[j].1] == args[r.names[j].0]
  {
    if j < i - 1 {
      ParamMapNamedValue(r, args, i - 1, j);
      assert GenericName(i - 1) != r.names[j].1 || IsName(r, GenericName(i - 1));
    }
  }

  /** The alias "param" + (g + 1) maps to the g-th named argument unless a name shadows it. */
  lemma {:induction false} ParamMapGenericValue(r: Resolver, args: seq<Value>, i: nat, g: nat)
    requires i <= |r.names| && Covers(r, args) && g < i
    requires !IsName(r, GenericName(g))
    ensures GenericName(g) in BuildParamMap(r, args, i)
    ensures BuildParamMap(r, args, i)[GenericName(g)] == args[r.names[g].0]
  {
    if g < i - 1 {
      ParamMapGenericValue(r, args, i - 1, g);
      assert r.names[i - 1].1 != GenericName(g);
      GenericNamesDistinct(g, i - 1);
    }
  }

  /** Generic aliases of different positions differ. */
  lemma GenericNamesDistinct(g: nat, i: nat)
    requires g != i
    ensures GenericName(g) != GenericName(i)
  {
    assert GenericName(g)[|GenericNamePrefix|..] == NatToString(g + 1);
    assert GenericName(i)[|GenericNamePrefix|..] == NatToString(i + 1);
  }

  lemma IntNotSpecial()
    ensures !IsSpecialParameter(IntType)
  {
  }

  lemma RowBoundsSpecial()
    ensures IsSpecialParameter(RowBoundsClass)
  {
  }

  /** `aMethod(int a, RowBounds rb, int b)` is named {0: "0", 2: "1"}. */
  lemma RowBoundsExample(a: MethodParameter, rb: MethodParameter, b: MethodParameter)
    requires a.paramType == IntType && b.paramType == IntType && rb.paramType == RowBoundsClass
    requires a.annotations == [] && b.annotations == []
    ensures SpecNames([a, rb, b], false) == [(0, "0"), (2, "1")]
  {
    IntNotSpecial();
    RowBoundsSpecial();
    var ps := [a, rb, b];
    assert ChosenName(a, false, 0) == "0";
    assert ChosenName(b, false, 1) == "1";
    assert NamesUpTo(ps, false, 1) == [(0, "0")];
    assert NamesUpTo(ps, false, 2) == [(0, "0")];
  }

  /** `aMethod(@Param("M") int a, @Param("N") int b)` is named {0: "M", 1: "N"}. */
  lemma AnnotatedExample(a: MethodParameter, b: MethodParameter)
    requires a.paramType == IntType && b.paramType == IntType
    requires a.annotations == [ParamAnnotation("M")] && b.annotations == [ParamAnnotation("N")]
    ensures SpecNames([a, b], true) == [(0, "M"), (1, "N")]
  {
    IntNotSpecial();
    var ps := [a, b];
    assert NamesUpTo(ps, true, 1) == [(0, "M")];
  }
}
