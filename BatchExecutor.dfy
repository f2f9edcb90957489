/**
 * The batching executor's statement grouping. JDBC statements are opaque handles numbered as they
 * are prepared; `executeBatch` is a function from handle to outcome; the calls made on the
 * statements are appended to a trace. The closed check and the local-cache clearing that precede
 * `doUpdate` belong to the base executor (BaseExecutor.Executor.Update).
 */
module BatchExecutor {
  import opened Wrappers
  import opened Values
  import opened Text
  import BaseExecutor

  type MappedStatement = BaseExecutor.MappedStatement
  type StatementHandle = nat

  /** `Integer.MIN_VALUE + 1002`, what a batched update reports as its row count. */
  const BatchUpdateReturnValue: int := IntMin + 1002

  lemma BatchUpdateReturnValueIs()
    ensures BatchUpdateReturnValue == -2147482646 && InInt32(BatchUpdateReturnValue)
  {
  }

  /** A statement's group of updates, and the counts its `executeBatch` reported. */
  datatype BatchResult = BatchResult(mappedStatement: MappedStatement, sql: string, parameterObjects: seq<Value>, updateCounts: Option<seq<int>>)

  /** What `executeBatch` does on a statement. */
  datatype ExecuteOutcome =
    | Counts(counts: seq<int>)
    | BatchUpdateFailure(cause: string)
    | OtherSqlFailure(cause: string)

  datatype JdbcCall =
    | Prepare(stmt: StatementHandle, sql: string)
    | AddBatch(stmt: StatementHandle, parameterObject: Value)
    | ExecuteBatch(stmt: StatementHandle)
    | ExecuteQuery(stmt: StatementHandle, parameterObject: Value)
    | CloseStatement(stmt: StatementHandle)

  datatype BatchError =
    /** A `BatchExecutorException`: its message, the results of the batches before the failed one, and the failed batch. */
    | BatchExecutorException(message: string, successfulBatchResults: seq<BatchResult>, failingBatchResult: BatchResult)
    | SqlFailure(cause: string)

  /** The message of the exception raised when the batch at 0-based index `i` fails. */
  function FailureMessage(statementId: string, i: nat): string {
    statementId + " (batch index #" + NatToString(i + 1) + ")" + " failed." +
    (if i > 0 then " " + NatToString(i) + " prior sub executor(s) completed successfully, but will be rolled back." else "")
  }

  /** The message names the batch by its 1-based index and counts the prior batches. */
  lemma FailureMessageSpec(statementId: string, i: nat)
    ensures var m := FailureMessage(statementId, i);
      var named := statementId + " (batch index #" + NatToString(i + 1);
      |named| <= |m| && m[..|named|] == named &&
      (i == 0 <==> m == statementId + " (batch index #1) failed.")
  {
    var m := FailureMessage(statementId, i);
    var head := statementId + " (batch index #" + NatToString(i + 1) + ")" + " failed.";
    var named := statementId + " (batch index #" + NatToString(i + 1);
    assert m[..|named|] == named;
    if i == 0 {
      assert NatToString(1) == "1";
    } else {
      assert |m| > |head|;
      assert |statementId + " (batch index #1) failed."| == |statementId| + 25;
      assert |head| >= |statementId| + 25;
    }
  }

  /** Every parameter object of the groups, in order. */
  function AllParameters(results: seq<BatchResult>): seq<Value> {
    if |results| == 0 then [] else AllParameters(results[..|results| - 1]) + results[|results| - 1].parameterObjects
  }

  /** A new group extends the flattened sequence by its parameters. */
  lemma AllParametersAppend(results: seq<BatchResult>, group: BatchResult)
    ensures AllParameters(results + [group]) == AllParameters(results) + group.parameterObjects
  {
    assert (results + [group])[..|results|] == results;
  }

  /** Adding a parameter to the last group extends the flattened sequence by that parameter. */
  lemma AllParametersAddToLast(results: seq<BatchResult>, p: Value)
    requires |results| > 0
    ensures var last := results[|results| - 1];
      AllParameters(results[|results| - 1 := last.(parameterObjects := last.parameterObjects + [p])]) == AllParameters(results) + [p]
  {
    var n := |results|;
    var last := results[n - 1];
    var updated := results[n - 1 := last.(parameterObjects := last.parameterObjects + [p])];
    assert updated[..n - 1] == results[..n - 1];
  }

  /** The results of the first `k` batches, each with the counts its statement reported. */
  function Completed(results: seq<BatchResult>, statements: seq<StatementHandle>, executeBatch: StatementHandle -> ExecuteOutcome, k: nat): (r: seq<BatchResult>)
    requires k <= |results| && k <= |statements|
    requires forall j :: 0 <= j < k ==> executeBatch(statements[j]).Counts?
    ensures |r| == k
    ensures forall j :: 0 <= j < k ==> r[j] == results[j].(updateCounts := Some(executeBatch(statements[j]).counts))
  {
    if k == 0 then [] else
      Completed(results, statements, executeBatch, k - 1) + [results[k - 1].(updateCounts := Some(executeBatch(statements[k - 1]).counts))]
  }

  /** The index of the first statement whose `executeBatch` fails, or the number of statements. */
  function FirstFailure(statements: seq<StatementHandle>, executeBatch: StatementHandle -> ExecuteOutcome): (k: nat)
    ensures k <= |statements|
    ensures forall j :: 0 <= j < k ==> executeBatch(statements[j]).Counts?
    ensures k < |statements| ==> !executeBatch(statements[k]).Counts?
  {
    if |statements| == 0 then 0
    else if !executeBatch(statements[0]).Counts? then 0
    else 1 + FirstFailure(statements[1..], executeBatch)
  }

  lemma {:induction false} FirstFailureAt(statements: seq<StatementHandle>, executeBatch: StatementHandle -> ExecuteOutcome, k: nat)
    requires k <= |statements|
    requires forall j :: 0 <= j < k ==> executeBatch(statements[j]).Counts?
    requires k < |statements| ==> !executeBatch(statements[k]).Counts?
    ensures FirstFailure(statements, executeBatch) == k
  {
    if k > 0 {
      FirstFailureAt(statements[1..], executeBatch, k - 1);
    }
  }

  function ExecuteCalls(statements: seq<StatementHandle>): (r: seq<JdbcCall>)
    ensures |r| == |statements|
    ensures forall j :: 0 <= j < |r| ==> r[j] == ExecuteBatch(statements[j])
  {
    if |statements| == 0 then [] else ExecuteCalls(statements[..|statements| - 1]) + [ExecuteBatch(statements[|statements| - 1])]
  }

  lemma ExecuteCallsStep(statements: seq<StatementHandle>, i: nat)
    requires i < |statements|
    ensures ExecuteCalls(statements[..i + 1]) == ExecuteCalls(statements[..i]) + [ExecuteBatch(statements[i])]
  {
    assert statements[..i + 1][..i] == statements[..i];
  }

  function CloseCalls(statements: seq<StatementHandle>): (r: seq<JdbcCall>)
    ensures |r| == |statements|
    ensures forall j :: 0 <= j < |r| ==> r[j] == CloseStatement(statements[j])
  {
    if |statements| == 0 then [] else CloseCalls(statements[..|statements| - 1]) + [CloseStatement(statements[|statements| - 1])]
  }

  /**
   * What a flush that is not a rollback returns: every batch's result with its counts, in
   * statement order, or the error of the first failing batch — for a batch-update failure, one
   * naming its 1-based index and carrying the results before it.
   */
  function FlushResult(results: seq<BatchResult>, statements: seq<StatementHandle>, executeBatch: StatementHandle -> ExecuteOutcome): Result<seq<BatchResult>, BatchError>
    requires |results| == |statements|
  {
    var k := FirstFailure(statements, executeBatch);
    var done := Completed(results, statements, executeBatch, k);
    if k == |statements| then Success(done)
    else match executeBatch(statements[k])
      case BatchUpdateFailure(_) => Failure(BatchExecutorException(FailureMessage(results[k].mappedStatement.id, k), done, results[k]))
      case OtherSqlFailure(cause) => Failure(SqlFailure(cause))
  }

  /** The `executeBatch` calls a flush makes: up to and including the first failing one. */
  function ExecutedCalls(statements: seq<StatementHandle>, executeBatch: StatementHandle -> ExecuteOutcome): seq<JdbcCall> {
    var k := FirstFailure(statements, executeBatch);
    ExecuteCalls(statements[..if k < |statements| then k + 1 else k])
  }

  /** The flush result once the index of the first failing batch is known. */
  lemma FlushResultAt(results: seq<BatchResult>, statements: seq<StatementHandle>, executeBatch: StatementHandle -> ExecuteOutcome, k: nat)
    requires |results| == |statements| && k <= |statements|
    requires forall j :: 0 <= j < k ==> executeBatch(statements[j]).Counts?
    requires k < |statements| ==> !executeBatch(statements[k]).Counts?
    ensures k == |statements| ==> FlushResult(results, statements, executeBatch) == Success(Completed(results, statements, executeBatch, k))
    ensures k < |statements| && executeBatch(statements[k]).BatchUpdateFailure? ==>
      FlushResult(results, statements, executeBatch) ==
        Failure(BatchExecutorException(FailureMessage(results[k].mappedStatement.id, k), Completed(results, statements, executeBatch, k), results[k]))
    ensures k < |statements| && executeBatch(statements[k]).OtherSqlFailure? ==>
      FlushResult(results, statements, executeBatch) == Failure(SqlFailure(executeBatch(statements[k]).cause))
    ensures k < |statements| ==> ExecutedCalls(statements, executeBatch) == ExecuteCalls(statements[..k + 1])
    ensures k == |statements| ==> ExecutedCalls(statements, executeBatch) == ExecuteCalls(statements)
  {
    FirstFailureAt(statements, executeBatch, k);
    assert statements[..|statements|] == statements;
  }

  /** A flush fails exactly when some batch fails; when none does, every statement was executed. */
  lemma FlushOutcome(results: seq<BatchResult>, statements: seq<StatementHandle>, executeBatch: StatementHandle -> ExecuteOutcome)
    requires |results| == |statements|
    ensures FlushResult(results, statements, executeBatch).Failure? <==> FirstFailure(statements, executeBatch) < |statements|
    ensures FirstFailure(statements, executeBatch) == |statements| ==> ExecutedCalls(statements, executeBatch) == ExecuteCalls(statements)
  {
    assert statements[..|statements|] == statements;
  }

  /** A flush succeeds exactly when every batch does, and then returns one result per statement with its counts. */
  lemma FlushResultSpec(results: seq<BatchResult>, statements: seq<StatementHandle>, executeBatch: StatementHandle -> ExecuteOutcome)
    requires |results| == |statements|
    ensures var r := FlushResult(results, statements, executeBatch);
      (r.Success? <==> forall j :: 0 <= j < |statements| ==> executeBatch(statements[j]).Counts?) &&
      (r.Success? ==>
        |r.value| == |results| &&
        forall j :: 0 <= j < |results| ==>
          r.value[j].mappedStatement == results[j].mappedStatement && r.value[j].sql == results[j].sql &&
          r.value[j].parameterObjects == results[j].parameterObjects &&
          r.value[j].updateCounts == Some(executeBatch(statements[j]).counts))
  {
  }

  /** A failed batch at index k is reported with exactly the k results before it, and its message counts them. */
  lemma FlushFailureSpec(results: seq<BatchResult>, statements: seq<StatementHandle>, executeBatch: StatementHandle -> ExecuteOutcome, k: nat)
    requires |results| == |statements| && k < |statements|
    requires forall j :: 0 <= j < k ==> executeBatch(statements[j]).Counts?
    requires executeBatch(statements[k]).BatchUpdateFailure?
    ensures var r := FlushResult(results, statements, executeBatch);
      r.Failure? && r.error.BatchExecutorException? &&
      |r.error.successfulBatchResults| == k && r.error.failingBatchResult == results[k] &&
      r.error.message == FailureMessage(results[k].mappedStatement.id, k)
  {
    FirstFailureAt(statements, executeBatch, k);
  }

  /**
   * One group per statement; a current SQL exactly when some group is open, and then the last
   * group is for the current SQL and statement; neighbouring groups differ in SQL or statement,
   * and no group is empty.
   */
  ghost predicate ValidGroups(statementList: seq<StatementHandle>, batchResultList: seq<BatchResult>,
                              currentSql: Option<string>, currentStatement: Option<MappedStatement>)
  {
    |statementList| == |batchResultList| &&
    (currentSql.Some? <==> |batchResultList| > 0) &&
    (currentSql.Some? ==>
      currentStatement.Some? &&
      batchResultList[|batchResultList| - 1].sql == currentSql.value &&
      batchResultList[|batchResultList| - 1].mappedStatement == currentStatement.value) &&
    (forall j :: 0 <= j < |batchResultList| - 1 ==>
      (batchResultList[j].sql, batchResultList[j].mappedStatement) != (batchResultList[j + 1].sql, batchResultList[j + 1].mappedStatement)) &&
    (forall j :: 0 <= j < |batchResultList| ==> |batchResultList[j].parameterObjects| > 0 && batchResultList[j].updateCounts.None?)
  }

  /** Joining the open group keeps the groups well formed. */
  lemma JoinKeepsValid(statementList: seq<StatementHandle>, batchResultList: seq<BatchResult>,
                       sql: string, ms: MappedStatement, parameterObject: Value)
    requires ValidGroups(statementList, batchResultList, Some(sql), Some(ms))
    ensures var last := |batchResultList| - 1;
      var group := batchResultList[last];
      ValidGroups(statementList, batchResultList[last := group.(parameterObjects := group.parameterObjects + [parameterObject])], Some(sql), Some(ms))
  {
  }

  /** Opening a group for a different SQL or statement keeps the groups well formed. */
  lemma OpenKeepsValid(statementList: seq<StatementHandle>, batchResultList: seq<BatchResult>,
                       currentSql: Option<string>, currentStatement: Option<MappedStatement>,
                       stmt: StatementHandle, sql: string, ms: MappedStatement, parameterObject: Value)
    requires ValidGroups(statementList, batchResultList, currentSql, currentStatement)
    requires !(currentSql == Some(sql) && currentStatement == Some(ms))
    ensures ValidGroups(statementList + [stmt], batchResultList + [BatchResult(ms, sql, [parameterObject], None)], Some(sql), Some(ms))
  {
  }

  /**
   * The loop of `doFlushStatements`: the statements run in order and the first failure stops
   * the rest; a batch-update failure is reported with the results before it. Returns the
   * `executeBatch` calls it made, in order.
   */
  method ExecuteAll(statements: seq<StatementHandle>, batchResults: seq<BatchResult>, executeBatch: StatementHandle -> ExecuteOutcome)
    returns (r: Result<seq<BatchResult>, BatchError>, calls: seq<JdbcCall>)
    requires |statements| == |batchResults|
    ensures r == FlushResult(batchResults, statements, executeBatch)
    ensures calls == ExecutedCalls(statements, executeBatch)
  {
    var results: seq<BatchResult> := [];
    calls := [];
    var i := 0;
    var n := |statements|;
    while i < n
      invariant 0 <= i <= n
      invariant forall j :: 0 <= j < i ==> executeBatch(statements[j]).Counts?
      invariant results == Completed(batchResults, statements, executeBatch, i)
      invariant calls == ExecuteCalls(statements[..i])
    {
      var stmt := statements[i];
      var batchResult := batchResults[i];
      ExecuteCallsStep(statements, i);
      calls := calls + [ExecuteBatch(stmt)];
      var outcome := executeBatch(stmt);
      if !outcome.Counts? {
        FlushResultAt(batchResults, statements, executeBatch, i);
        if outcome.BatchUpdateFailure? {
          return Failure(BatchExecutorException(FailureMessage(batchResult.mappedStatement.id, i), results, batchResult)), calls;
        } else {
          return Failure(SqlFailure(outcome.cause)), calls;
        }
      }
      results := results + [batchResult.(updateCounts := Some(outcome.counts))];
      i := i + 1;
    }
    assert statements[..n] == statements;
    FlushResultAt(batchResults, statements, executeBatch, n);
    return Success(results), calls;
  }

  class BatchExecutor {
    var statementList: seq<StatementHandle>
    var batchResultList: seq<BatchResult>
    var currentSql: Option<string>
    var currentStatement: Option<MappedStatement>
    /** The handle the next prepared statement gets. */
    var nextStatement: StatementHandle
    /** Every call made on a JDBC statement, oldest first. */
    var jdbc: seq<JdbcCall>

    ghost predicate Valid()
      reads this
    {
      ValidGroups(statementList, batchResultList, currentSql, currentStatement)
    }

    constructor ()
      ensures Valid()
      ensures statementList == [] && batchResultList == [] && currentSql == None && currentStatement == None && jdbc == []
    {
      statementList := [];
      batchResultList := [];
      currentSql := None;
      currentStatement := None;
      nextStatement := 0;
      jdbc := [];
    }

    /**
     * `doUpdate`: an update with the same SQL and statement as the previous one joins its group
     * and its statement; any other opens a new statement and a new group.
     */
    method DoUpdate(ms: MappedStatement, parameterObject: Value, sql: string) returns (r: int)
      requires Valid()
      modifies this
      ensures Valid()
      ensures r == BatchUpdateReturnValue
      ensures AllParameters(batchResultList) == AllParameters(old(batchResultList)) + [parameterObject]
      ensures old(currentSql) == Some(sql) && old(currentStatement) == Some(ms) ==>
        var last := |old(batchResultList)| - 1;
        var group := old(batchResultList)[last];
        statementList == old(statementList) && nextStatement == old(nextStatement) &&
        batchResultList == old(batchResultList)[last := group.(parameterObjects := group.parameterObjects + [parameterObject])] &&
        jdbc == old(jdbc) + [AddBatch(old(statementList)[last], parameterObject)]
      ensures !(old(currentSql) == Some(sql) && old(currentStatement) == Some(ms)) ==>
        var stmt := old(nextStatement);
        statementList == old(statementList) + [stmt] && nextStatement == stmt + 1 &&
        batchResultList == old(batchResultList) + [BatchResult(ms, sql, [parameterObject], None)] &&
        jdbc == old(jdbc) + [Prepare(stmt, sql), AddBatch(stmt, parameterObject)]
      ensures currentSql == Some(sql) && currentStatement == Some(ms)
    {
      if currentSql == Some(sql) && currentStatement == Some(ms) {
        JoinBatch(parameterObject);
      } else {
        OpenBatch(ms, sql, parameterObject);
      }
      return BatchUpdateReturnValue;
    }

    /** The same SQL and statement as the previous update: the parameter joins the last group and its statement. */
    method JoinBatch(parameterObject: Value)
      requires Valid() && currentSql.Some?
      modifies this`batchResultList, this`jdbc
      ensures Valid()
      ensures AllParameters(batchResultList) == AllParameters(old(batchResultList)) + [parameterObject]
      ensures var last := |old(batchResultList)| - 1;
        var group := old(batchResultList)[last];
        batchResultList == old(batchResultList)[last := group.(parameterObjects := group.parameterObjects + [parameterObject])] &&
        jdbc == old(jdbc) + [AddBatch(statementList[last], parameterObject)]
    {
      var last := |statementList| - 1;
      var stmt := statementList[last];
      var batchResult := batchResultList[last];
      AllParametersAddToLast(batchResultList, parameterObject);
      JoinKeepsValid(statementList, batchResultList, currentSql.value, currentStatement.value, parameterObject);
      batchResultList := batchResultList[last := batchResult.(parameterObjects := batchResult.parameterObjects + [parameterObject])];
      jdbc := jdbc + [AddBatch(stmt, parameterObject)];
    }

    /** Any other update: a new statement is prepared, the parameter added to its batch, and a group opened for it. */
    method OpenBatch(ms: MappedStatement, sql: string, parameterObject: Value)
      requires Valid() && !(currentSql == Some(sql) && currentStatement == Some(ms))
      modifies this
      ensures nextStatement == old(nextStatement) + 1
      ensures statementList == old(statementList) + [old(nextStatement)]
      ensures batchResultList == old(batchResultList) + [BatchResult(ms, sql, [parameterObject], None)]
      ensures jdbc == old(jdbc) + [Prepare(old(nextStatement), sql), AddBatch(old(nextStatement), parameterObject)]
      ensures currentSql == Some(sql) && currentStatement == Some(ms)
      ensures Valid()
      ensures AllParameters(batchResultList) == AllParameters(old(batchResultList)) + [parameterObject]
    {
      var stmt := nextStatement;
      var group := BatchResult(ms, sql, [parameterObject], None);
      OpenKeepsValid(statementList, batchResultList, currentSql, currentStatement, stmt, sql, ms, parameterObject);
      AllParametersAppend(batchResultList, group);
      nextStatement, currentSql, currentStatement := nextStatement + 1, Some(sql), Some(ms);
      statementList, batchResultList := statementList + [stmt], batchResultList + [group];
      jdbc := jdbc + [Prepare(stmt, sql), AddBatch(stmt, parameterObject)];
    }

    /**
     * `doFlushStatements`: on rollback nothing is executed and the result is empty; otherwise the
     * statements run in order (ExecuteAll). In every case all statements are closed and both
     * lists and the current SQL are cleared; the current statement is kept.
     */
    method DoFlushStatements(isRollback: bool, executeBatch: StatementHandle -> ExecuteOutcome) returns (r: Result<seq<BatchResult>, BatchError>)
      requires Valid()
      modifies this
      ensures Valid()
      ensures statementList == [] && batchResultList == [] && currentSql == None
      ensures currentStatement == old(currentStatement) && nextStatement == old(nextStatement)
      ensures isRollback ==> r == Success([]) && jdbc == old(jdbc) + CloseCalls(old(statementList))
      ensures !isRollback ==>
        r == FlushResult(old(batchResultList), old(statementList), executeBatch) &&
        jdbc == old(jdbc) + ExecutedCalls(old(statementList), executeBatch) + CloseCalls(old(statementList))
    {
      if isRollback {
        r := Success([]);
      } else {
        var calls;
        r, calls := ExecuteAll(statementList, batchResultList, executeBatch);
        jdbc := jdbc + calls;
      }
      CloseAll();
      currentSql := None;
      statementList := [];
      batchResultList := [];
    }

    /** The `finally` loop: close every statement in order. */
    method CloseAll()
      modifies this
      ensures jdbc == old(jdbc) + CloseCalls(statementList)
      ensures statementList == old(statementList) && batchResultList == old(batchResultList)
      ensures currentSql == old(currentSql) && currentStatement == old(currentStatement) && nextStatement == old(nextStatement)
    {
      var i := 0;
      while i < |statementList|
        invariant 0 <= i <= |statementList|
        invariant jdbc == old(jdbc) + CloseCalls(statementList[..i])
        invariant statementList == old(statementList) && batchResultList == old(batchResultList)
        invariant currentSql == old(currentSql) && currentStatement == old(currentStatement) && nextStatement == old(nextStatement)
      {
        assert statementList[..i + 1][..i] == statementList[..i];
        jdbc := jdbc + [CloseStatement(statementList[i])];
        i := i + 1;
      }
      assert statementList[..i] == statementList;
    }

    /**
     * `doQuery`: pending batches are flushed first; a failed flush ends the query. Then a fresh
     * statement runs the query and is closed.
     */
    method DoQuery(ms: MappedStatement, parameterObject: Value, sql: string,
                   executeBatch: StatementHandle -> ExecuteOutcome, database: Result<seq<Value>, string>)
      returns (r: Result<seq<Value>, BatchError>)
      requires Valid()
      modifies this
      ensures Valid()
      ensures statementList == [] && batchResultList == [] && currentSql == None
      ensures currentStatement == old(currentStatement)
      ensures FirstFailure(old(statementList), executeBatch) < |old(statementList)| ==>
        r.Failure? && r.error == FlushResult(old(batchResultList), old(statementList), executeBatch).error &&
        jdbc == old(jdbc) + ExecutedCalls(old(statementList), executeBatch) + CloseCalls(old(statementList)) &&
        nextStatement == old(nextStatement)
      ensures FirstFailure(old(statementList), executeBatch) == |old(statementList)| ==>
        var stmt := old(nextStatement);
        nextStatement == stmt + 1 &&
        jdbc == old(jdbc) + ExecuteCalls(old(statementList)) + CloseCalls(old(statementList)) +
          [Prepare(stmt, sql), ExecuteQuery(stmt, parameterObject), CloseStatement(stmt)] &&
        (database.Success? ==> r == Success(database.value)) &&
        (database.Failure? ==> r == Failure(SqlFailure(database.error)))
    {
      FlushOutcome(batchResultList, statementList, executeBatch);
      var flushed := DoFlushStatements(false, executeBatch);
      if flushed.Failure? {
        return Failure(flushed.error);
      }
      var stmt := nextStatement;
      nextStatement := nextStatement + 1;
      jdbc := jdbc + [Prepare(stmt, sql), ExecuteQuery(stmt, parameterObject), CloseStatement(stmt)];
      if database.Failure? {
        return Failure(SqlFailure(database.error));
      }
      return Success(database.value);
    }
  }

  /** A flush of a well-formed executor returns one result per statement, in statement order, carrying every parameter. */
  lemma FlushKeepsEveryParameter(results: seq<BatchResult>, statements: seq<StatementHandle>, executeBatch: StatementHandle -> ExecuteOutcome)
    requires |results| == |statements|
    requires forall j :: 0 <= j < |statements| ==> executeBatch(statements[j]).Counts?
    ensures AllParameters(Completed(results, statements, executeBatch, |results|)) == AllParameters(results)
  {
    CompletedParameters(results, statements, executeBatch, |results|);
    assert results[..|results|] == results;
  }

  lemma CompletedParameters(results: seq<BatchResult>, statements: seq<StatementHandle>, executeBatch: StatementHandle -> ExecuteOutcome, k: nat)
    requires k <= |results| && k <= |statements|
    requires forall j :: 0 <= j < k ==> executeBatch(statements[j]).Counts?
    ensures AllParameters(Completed(results, statements, executeBatch, k)) == AllParameters(results[..k])
  {
    SameParameters(Completed(results, statements, executeBatch, k), results[..k]);
  }

  /** Groups that carry the same parameters, position by position, flatten to the same sequence. */
  lemma {:induction false} SameParameters(a: seq<BatchResult>, b: seq<BatchResult>)
    requires |a| == |b|
    requires forall j :: 0 <= j < |a| ==> a[j].parameterObjects == b[j].parameterObjects
    ensures AllParameters(a) == AllParameters(b)
  {
    if |a| > 0 {
      var n := |a| - 1;
      SameParameters(a[..n], b[..n]);
    }
  }
}
