/**
 * MapperMethod: binds a mapper interface method to a mapped statement (SqlCommand), describes
 * its signature (MethodSignature), converts row counts to the declared return type and checks
 * the result of `execute`.
 */
module MapperMethod {
  import opened Wrappers
  import opened JavaTypes
  import opened Values
  import ParamNameResolver

  datatype SqlCommandType = Unknown | Insert | Update | Delete | Select | Flush

  /** What the configuration knows about one mapped statement. */
  datatype MappedStatementInfo = MappedStatementInfo(id: string, commandType: SqlCommandType)

  /** What reflection reports about the mapper method that matters here. */
  datatype MethodInfo = MethodInfo(
    name: string,
    declaringClass: JavaClass,
    hasFlushAnnotation: bool,
    returnType: JavaClass,
    mapKeyAnnotation: Option<string>,
    parameters: seq<ParamNameResolver.MethodParameter>)

  /** A resolved command; the name is None (null) for a FLUSH command. */
  datatype SqlCommand = SqlCommand(name: Option<string>, commandType: SqlCommandType)

  datatype BindingError =
    | StatementNotFound(statementName: string)
    | UnknownExecutionMethod(commandName: Option<string>)
    | UnsupportedReturnType(commandName: Option<string>, returnType: JavaClass)
    | NullForPrimitive(commandName: Option<string>, returnType: JavaClass)
    | MultipleSpecialParameters(methodName: string, paramType: JavaClass)
    | ParameterNotFound(key: string, available: set<string>)

  const CursorInterface: JavaClass := Leaf("org.apache.ibatis.cursor.Cursor", None)

  function StatementName(owner: JavaClass, methodName: string): string {
    owner.name + "." + methodName
  }

  /** The statement the method is bound to: its own interface first, then the declaring interface. */
  function FindStatement(statements: map<string, MappedStatementInfo>, mapperInterface: JavaClass, m: MethodInfo)
    : (r: Option<MappedStatementInfo>)
    ensures StatementName(mapperInterface, m.name) in statements ==>
      r == Some(statements[StatementName(mapperInterface, m.name)])
    ensures StatementName(mapperInterface, m.name) !in statements && mapperInterface != m.declaringClass ==>
      r == (if StatementName(m.declaringClass, m.name) in statements
            then Some(statements[StatementName(m.declaringClass, m.name)]) else None)
    ensures StatementName(mapperInterface, m.name) !in statements && mapperInterface == m.declaringClass ==> r == None
  {
    var statementName := StatementName(mapperInterface, m.name);
    if statementName in statements then Some(statements[statementName])
    else if mapperInterface != m.declaringClass then
      var parentStatementName := StatementName(m.declaringClass, m.name);
      if parentStatementName in statements then Some(statements[parentStatementName]) else None
    else None
  }

  /** The SqlCommand constructor. */
  function ResolveSqlCommand(statements: map<string, MappedStatementInfo>, mapperInterface: JavaClass, m: MethodInfo)
    : (r: Result<SqlCommand, BindingError>)
    ensures FindStatement(statements, mapperInterface, m).None? ==>
      (if m.hasFlushAnnotation then r == Success(SqlCommand(None, Flush))
       else r == Failure(StatementNotFound(StatementName(mapperInterface, m.name))))
    ensures FindStatement(statements, mapperInterface, m).Some? ==>
      var ms := FindStatement(statements, mapperInterface, m).value;
      (if ms.commandType == Unknown then r == Failure(UnknownExecutionMethod(Some(ms.id)))
       else r == Success(SqlCommand(Some(ms.id), ms.commandType)))
    ensures r.Success? ==> r.value.commandType != Unknown
    ensures r.Success? ==> (r.value.name.None? <==> r.value.commandType == Flush && FindStatement(statements, mapperInterface, m).None?)
  {
    match FindStatement(statements, mapperInterface, m)
    case None =>
      if m.hasFlushAnnotation then Success(SqlCommand(None, Flush))
      else Failure(StatementNotFound(StatementName(mapperInterface, m.name)))
    case Some(ms) =>
      if ms.commandType == Unknown then Failure(UnknownExecutionMethod(Some(ms.id)))
      else Success(SqlCommand(Some(ms.id), ms.commandType))
  }

  /** A method inherited from a parent mapper binds to the parent's statement when the child has none. */
  lemma InheritedStatement(statements: map<string, MappedStatementInfo>, child: JavaClass, m: MethodInfo, ms: MappedStatementInfo)
    requires child != m.declaringClass
    requires StatementName(child, m.name) !in statements
    requires StatementName(m.declaringClass, m.name) in statements && statements[StatementName(m.declaringClass, m.name)] == ms
    requires ms.commandType != Unknown
    ensures ResolveSqlCommand(statements, child, m) == Success(SqlCommand(Some(ms.id), ms.commandType))
  {
  }

  predicate ReturnsVoid(returnType: JavaClass) {
    returnType == VoidType
  }

  /** `rowCountResult`: the row count as the declared return type. */
  function RowCountResult(command: SqlCommand, returnType: JavaClass, rowCount: int): (r: Result<Value, BindingError>)
    requires InInt32(rowCount)
    ensures ReturnsVoid(returnType) ==> r == Success(Null)
    ensures !ReturnsVoid(returnType) && (returnType == IntegerClass || returnType == IntType) ==> r == Success(Int(rowCount))
    ensures returnType == LongClass || returnType == LongType ==> r == Success(Long(rowCount))
    ensures returnType == BooleanClass || returnType == BooleanType ==> r == Success(Bool(rowCount > 0))
    ensures r.Failure? <==>
      !(ReturnsVoid(returnType) || returnType in {IntegerClass, IntType, LongClass, LongType, BooleanClass, BooleanType})
    ensures r.Failure? ==> r.error == UnsupportedReturnType(command.name, returnType)
  {
    if ReturnsVoid(returnType) then Success(Null)
    else if returnType == IntegerClass || returnType == IntType then Success(Int(rowCount))
    else if returnType == LongClass || returnType == LongType then Success(Long(rowCount))
    else if returnType == BooleanClass || returnType == BooleanType then Success(Bool(rowCount > 0))
    else Failure(UnsupportedReturnType(command.name, returnType))
  }

  /** The check at the end of `execute`: a null result for a non-void primitive return type fails. */
  function CheckResult(command: SqlCommand, returnType: JavaClass, result: Value): (r: Result<Value, BindingError>)
    ensures r.Failure? <==> result == Null && IsPrimitive(returnType) && !ReturnsVoid(returnType)
    ensures r.Success? ==> r.value == result
    ensures r.Failure? ==> r.error == NullForPrimitive(command.name, returnType)
  {
    if result == Null && IsPrimitive(returnType) && !ReturnsVoid(returnType) then
      Failure(NullForPrimitive(command.name, returnType))
    else Success(result)
  }

  /** A converted row count always passes the null-primitive check. */
  lemma RowCountPassesCheck(command: SqlCommand, returnType: JavaClass, rowCount: int)
    requires InInt32(rowCount)
    requires RowCountResult(command, returnType, rowCount).Success?
    ensures CheckResult(command, returnType, RowCountResult(command, returnType, rowCount).value).Success?
  {
  }

  /** What the session answered: a row count for INSERT/UPDATE/DELETE, a value for SELECT and FLUSH. */
  datatype SessionAnswer = RowCount(count: int) | Answer(result: Value)

  /**
   * The result handling of `execute`: the command type picks the conversion, UNKNOWN is an
   * error, and the null-primitive check runs last. The SqlSession calls themselves are the answer.
   */
  function Execute(command: SqlCommand, returnType: JavaClass, answer: SessionAnswer): (r: Result<Value, BindingError>)
    requires answer.RowCount? ==> InInt32(answer.count)
    requires command.commandType in {Insert, Update, Delete} <==> answer.RowCount?
    ensures command.commandType == Unknown ==> r == Failure(UnknownExecutionMethod(command.name))
    ensures command.commandType in {Insert, Update, Delete} ==>
      r == RowCountResult(command, returnType, answer.count)
    ensures command.commandType in {Select, Flush} ==> r == CheckResult(command, returnType, answer.result)
  {
    match command.commandType
    case Unknown => Failure(UnknownExecutionMethod(command.name))
    case Insert => RowCountResult(command, returnType, answer.count)
    case Update => RowCountResult(command, returnType, answer.count)
    case Delete => RowCountResult(command, returnType, answer.count)
    case Select => CheckResult(command, returnType, answer.result)
    case Flush => CheckResult(command, returnType, answer.result)
  }

  /** A null single-row select into an `int` method fails; into `Integer` it is returned. */
  lemma NullSelectExample(command: SqlCommand)
    requires command.commandType == Select
    ensures Execute(command, IntType, Answer(Null)) == Failure(NullForPrimitive(command.name, IntType))
    ensures Execute(command, IntegerClass, Answer(Null)) == Success(Null)
  {
    assert IsPrimitive(IntType);
    assert !IsPrimitive(IntegerClass);
  }

  /** `ParamMap.get`: a missing key is an error naming the available keys. */
  function ParamMapGet(m: map<string, Value>, key: string): (r: Result<Value, BindingError>)
    ensures r.Success? <==> key in m
    ensures r.Success? ==> r.value == m[key]
    ensures r.Failure? ==> r.error == ParameterNotFound(key, m.Keys)
  {
    if key !in m then Failure(ParameterNotFound(key, m.Keys)) else Success(m[key])
  }

  predicate MatchesAt(types: seq<JavaClass>, paramType: JavaClass, i: int)
    requires 0 <= i < |types|
  {
    IsAssignableFrom(paramType, types[i])
  }

  /** Two parameters are of the given special type. */
  predicate MatchesTwice(types: seq<JavaClass>, paramType: JavaClass) {
    exists i, j :: 0 <= i < j < |types| && MatchesAt(types, paramType, i) && MatchesAt(types, paramType, j)
  }

  /** `getUniqueParamIndex`: the position of the only parameter of the given type. */
  method GetUniqueParamIndex(methodName: string, types: seq<JavaClass>, paramType: JavaClass)
    returns (r: Result<Option<nat>, BindingError>)
    ensures r == Success(None) <==> forall i :: 0 <= i < |types| ==> !MatchesAt(types, paramType, i)
    ensures r.Success? && r.value.Some? ==>
      r.value.value < |types| && MatchesAt(types, paramType, r.value.value) &&
      forall j :: 0 <= j < |types| && j != r.value.value ==> !MatchesAt(types, paramType, j)
    ensures r.Failure? <==> MatchesTwice(types, paramType)
    ensures r.Failure? ==> r.error == MultipleSpecialParameters(methodName, paramType)
  {
    var index: Option<nat> := None;
    var i := 0;
    while i < |types|
      invariant 0 <= i <= |types|
      invariant index.None? ==> forall k :: 0 <= k < i ==> !MatchesAt(types, paramType, k)
      invariant index.Some? ==>
        index.value < i && MatchesAt(types, paramType, index.value) &&
        (forall k :: 0 <= k < i && k != index.value ==> !MatchesAt(types, paramType, k))
    {
      if MatchesAt(types, paramType, i) {
        if index.None? {
          index := Some(i);
        } else {
          return Failure(MultipleSpecialParameters(methodName, paramType));
        }
      }
      i := i + 1;
    }
    return Success(index);
  }

  /** `getMapKey`: the @MapKey value, only for methods returning a Map. */
  function GetMapKey(m: MethodInfo): (r: Option<string>)
    ensures r.Some? <==> IsAssignableFrom(MapInterface, m.returnType) && m.mapKeyAnnotation.Some?
    ensures r.Some? ==> r == m.mapKeyAnnotation
  {
    if IsAssignableFrom(MapInterface, m.returnType) then m.mapKeyAnnotation else None
  }

  datatype MethodSignature = MethodSignature(
    returnType: JavaClass,
    returnsVoid: bool,
    returnsMany: bool,
    returnsMap: bool,
    returnsCursor: bool,
    mapKey: Option<string>,
    rowBoundsIndex: Option<nat>,
    resultHandlerIndex: Option<nat>,
    paramNameResolver: ParamNameResolver.Resolver)

  function ParameterTypes(m: MethodInfo): (types: seq<JavaClass>)
    ensures |types| == |m.parameters|
    ensures forall i :: 0 <= i < |types| ==> types[i] == m.parameters[i].paramType
  {
    seq(|m.parameters|, i requires 0 <= i < |m.parameters| => m.parameters[i].paramType)
  }

  /**
   * The MethodSignature constructor. The return type is taken as already resolved, and whether it
   * is a collection or an array (the ObjectFactory's answer) is an input.
   */
  method NewMethodSignature(m: MethodInfo, isCollectionOrArray: bool, useActualParamName: bool)
    returns (r: Result<MethodSignature, BindingError>)
    ensures r.Success? ==>
      var s := r.value;
      s.returnType == m.returnType &&
      (s.returnsVoid <==> m.returnType == VoidType) &&
      s.returnsMany == isCollectionOrArray &&
      (s.returnsCursor <==> m.returnType == CursorInterface) &&
      s.mapKey == GetMapKey(m) &&
      (s.returnsMap <==> s.mapKey.Some?) &&
      s.paramNameResolver.names == ParamNameResolver.SpecNames(m.parameters, useActualParamName)
    ensures r.Success? && r.value.rowBoundsIndex.Some? ==>
      var k := r.value.rowBoundsIndex.value;
      k < |m.parameters| && IsAssignableFrom(RowBoundsClass, m.parameters[k].paramType)
    ensures r.Success? && r.value.rowBoundsIndex.None? ==>
      forall k :: 0 <= k < |m.parameters| ==> !IsAssignableFrom(RowBoundsClass, m.parameters[k].paramType)
    ensures r.Success? && r.value.resultHandlerIndex.Some? ==>
      var k := r.value.resultHandlerIndex.value;
      k < |m.parameters| && IsAssignableFrom(ResultHandlerInterface, m.parameters[k].paramType)
    ensures r.Success? && r.value.resultHandlerIndex.None? ==>
      forall k :: 0 <= k < |m.parameters| ==> !IsAssignableFrom(ResultHandlerInterface, m.parameters[k].paramType)
    ensures r.Failure? <==>
      MatchesTwice(ParameterTypes(m), RowBoundsClass) || MatchesTwice(ParameterTypes(m), ResultHandlerInterface)
    ensures MatchesTwice(ParameterTypes(m), RowBoundsClass) ==>
      r == Failure(MultipleSpecialParameters(m.name, RowBoundsClass))
    ensures !MatchesTwice(ParameterTypes(m), RowBoundsClass) && MatchesTwice(ParameterTypes(m), ResultHandlerInterface) ==>
      r == Failure(MultipleSpecialParameters(m.name, ResultHandlerInterface))
  {
    var types := ParameterTypes(m);
    var returnsVoid := m.returnType == VoidType;
    var returnsCursor := m.returnType == CursorInterface;
    var mapKey := GetMapKey(m);
    var rowBoundsIndex :- GetUniqueParamIndex(m.name, types, RowBoundsClass);
    var resultHandlerIndex :- GetUniqueParamIndex(m.name, types, ResultHandlerInterface);
    forall k | 0 <= k < |m.parameters|
      ensures rowBoundsIndex.None? ==> !IsAssignableFrom(RowBoundsClass, m.parameters[k].paramType)
      ensures resultHandlerIndex.None? ==> !IsAssignableFrom(ResultHandlerInterface, m.parameters[k].paramType)
    {
      assert types[k] == m.parameters[k].paramType;
      assert rowBoundsIndex.None? ==> !MatchesAt(types, RowBoundsClass, k);
      assert resultHandlerIndex.None? ==> !MatchesAt(types, ResultHandlerInterface, k);
    }
    var resolver := ParamNameResolver.NewResolver(m.parameters, useActualParamName);
    return Success(MethodSignature(m.returnType, returnsVoid, isCollectionOrArray, mapKey.Some?, returnsCursor,
      mapKey, rowBoundsIndex, resultHandlerIndex, resolver));
  }
}
