/**
 * The delta-operation executor of the curator (`execute_operations`) and the summary
 * `run_curator` returns, over record sequences. Operations arrive as loosely typed JSON
 * objects: every key may be missing, and an entry of the list may not be an object at all.
 */
module CuratorSpec {
  import opened Wrappers
  import opened Seqs
  import opened Bullets
  import opened StoreSpec

  /**
   * One entry of the proposed `operations` list: an object whose keys may each be missing,
   * or a value of another JSON type (named by its Python type, such as `str`).
   */
  datatype Operation =
    | Operation(opType: Option<string>, content: Option<string>, section: Option<string>,
                bulletId: Option<string>, newContent: Option<string>, reasoning: Option<string>)
    | NotAnObject(typeName: string)

  /** One entry of `execution_results`; `bulletId` is absent from unknown-type and error results. */
  datatype OpResult = OpResult(operation: Option<string>, success: bool, bulletId: Option<string>,
                               reasoning: string, message: string)

  /** The store after one operation, and that operation's result. */
  datatype Step = Step(records: seq<BulletRecord>, result: OpResult)

  /** The store after a batch, and the results in operation order. */
  datatype Batch = Batch(records: seq<BulletRecord>, results: seq<OpResult>)

  const NoReasoning: string := "No reasoning provided"
  const ErrorPrefix: string := "Error executing operation: "
  const UnknownPrefix: string := "Unknown operation type: "

  /** The five operation types the executor understands. */
  predicate KnownType(t: Option<string>) {
    t == Some("add") || t == Some("remove") || t == Some("modify") || t == Some("mark_helpful") || t == Some("mark_harmful")
  }

  /** How an f-string shows the type: Python prints a missing value as `None`. */
  function TypeText(t: Option<string>): string {
    if t.None? then "None" else t.value
  }

  /** The text of a `KeyError` for a missing key: the key in quotes. */
  function KeyErrorText(key: string): string {
    "'" + key + "'"
  }

  /** The text of the `AttributeError` raised by calling `.get` on a non-object entry. */
  function AttributeErrorText(typeName: string): string {
    "'" + typeName + "' object has no attribute 'get'"
  }

  /**
   * The first required key that is missing, in the order the branch reads them:
   * `content` then `section` for an add, `bullet_id` for the other known types.
   */
  function MissingKey(op: Operation): (k: Option<string>)
    requires op.Operation?
    ensures k.Some? ==> k.value in {"content", "section", "bullet_id"}
    ensures op.opType == Some("add") ==> (k.None? <==> op.content.Some? && op.section.Some?)
    ensures KnownType(op.opType) && op.opType != Some("add") ==> (k.None? <==> op.bulletId.Some?)
  {
    if op.opType == Some("add") then
      if op.content.None? then Some("content") else if op.section.None? then Some("section") else None
    else if KnownType(op.opType) then
      if op.bulletId.None? then Some("bullet_id") else None
    else None
  }

  /** The arguments of the `modify_bullet` call each id-based type makes, and its success message. */
  datatype Edit = Edit(newContent: Option<string>, markHelpful: bool, markHarmful: bool, done: string)

  function EditOf(op: Operation): Edit
    requires op.Operation?
  {
    if op.opType == Some("modify") then Edit(op.newContent, false, false, "Modified bullet")
    else if op.opType == Some("mark_helpful") then Edit(None, true, false, "Marked as helpful")
    else Edit(None, false, true, "Marked as harmful")
  }

  /**
   * One pass of the loop body of `execute_operations` (corrected: a non-object entry becomes
   * a failure result instead of escaping the loop). `stamp` and `now` stand for the clock
   * readings the store takes for a new id and for timestamps.
   */
  function ExecuteOne(recs: seq<BulletRecord>, op: Operation, stamp: string, now: string): (s: Step)
    ensures |s.records| <= |recs| + 1
    ensures s.result.success ==> s.result.bulletId.Some?
    ensures op.NotAnObject? ==> !s.result.success && s.records == recs
  {
    match op
    case NotAnObject(t) =>
      Step(recs, OpResult(None, false, None, NoReasoning, ErrorPrefix + AttributeErrorText(t)))
    case Operation(opType, content, section, bulletId, newContent, reasoning) =>
      var why := reasoning.GetOr(NoReasoning);
      if !KnownType(opType) then
        Step(recs, OpResult(opType, false, None, why, UnknownPrefix + TypeText(opType)))
      else if MissingKey(op).Some? then
        Step(recs, OpResult(opType, false, None, why, ErrorPrefix + KeyErrorText(MissingKey(op).value)))
      else if opType == Some("add") then
        var r := NewRecord(content.value, section.value, stamp, now);
        Step(recs + [r], OpResult(opType, true, Some(r.id), why, "Added new bullet to section '" + section.value + "'"))
      else if opType == Some("remove") then
        var after := Removed(recs, bulletId.value);
        var ok := |after| < |recs|;
        Step(after, OpResult(opType, ok, bulletId, why, if ok then "Removed bullet" else "Bullet not found"))
      else
        var e := EditOf(op);
        var ok := bulletId.value in Ids(recs);
        Step(Modified(recs, bulletId.value, e.newContent, e.markHelpful, e.markHarmful, now),
             OpResult(opType, ok, bulletId, why, if ok then e.done else "Bullet not found"))
  }

  /**
   * `execute_operations` over a whole list: the operations run in order, each on the store the
   * previous ones left; operation k takes the clock readings `ids(k)` and `clock(k)`.
   * There is exactly one result per operation.
   */
  function ExecuteAll(recs: seq<BulletRecord>, ops: seq<Operation>, ids: nat -> string, clock: nat -> string)
    : (b: Batch)
    ensures |b.results| == |ops|
    decreases |ops|
  {
    if ops == [] then Batch(recs, [])
    else
      var n := |ops| - 1;
      var before := ExecuteAll(recs, ops[..n], ids, clock);
      var step := ExecuteOne(before.records, ops[n], ids(n), clock(n));
      Batch(step.records, before.results + [step.result])
  }

  /** The batch of the first n + 1 operations extends the batch of the first n by one step. */
  lemma ExecuteAllSnoc(recs: seq<BulletRecord>, ops: seq<Operation>, ids: nat -> string, clock: nat -> string, n: nat)
    requires n < |ops|
    ensures var before := ExecuteAll(recs, ops[..n], ids, clock);
      var step := ExecuteOne(before.records, ops[n], ids(n), clock(n));
      ExecuteAll(recs, ops[..n + 1], ids, clock) == Batch(step.records, before.results + [step.result])
  {
    assert ops[..n + 1][..n] == ops[..n] && ops[..n + 1][n] == ops[n];
  }

  /** Running a longer list first produces exactly the results of its prefix. */
  lemma {:induction false} ExecuteAllPrefix(recs: seq<BulletRecord>, ops: seq<Operation>, ids: nat -> string,
                                            clock: nat -> string, k: nat)
    requires k <= |ops|
    ensures ExecuteAll(recs, ops, ids, clock).results[..k] == ExecuteAll(recs, ops[..k], ids, clock).results
    decreases |ops|
  {
    if k < |ops| {
      var n := |ops| - 1;
      assert ops[..n][..k] == ops[..k];
      ExecuteAllPrefix(recs, ops[..n], ids, clock, k);
    } else {
      assert ops[..k] == ops;
    }
  }

  /**
   * The batch never aborts: result k is the result of operation k run on the store that the
   * operations before it produced, whatever those operations were.
   */
  lemma ResultsInOrder(recs: seq<BulletRecord>, ops: seq<Operation>, ids: nat -> string, clock: nat -> string, k: nat)
    requires k < |ops|
    ensures ExecuteAll(recs, ops, ids, clock).results[k]
         == ExecuteOne(ExecuteAll(recs, ops[..k], ids, clock).records, ops[k], ids(k), clock(k)).result
  {
    ExecuteAllPrefix(recs, ops, ids, clock, k + 1);
    var p := ops[..k + 1];
    assert p[..k] == ops[..k] && p[k] == ops[k];
  }

  /** A failed operation of any kind leaves the store as it was. */
  lemma FailureLeavesStore(recs: seq<BulletRecord>, op: Operation, stamp: string, now: string)
    ensures !ExecuteOne(recs, op, stamp, now).result.success ==> ExecuteOne(recs, op, stamp, now).records == recs
  {
    if op.Operation? && KnownType(op.opType) && MissingKey(op).None? && op.opType == Some("remove") {
      RemovedShrinksIffPresent(recs, op.bulletId.value);
    }
  }

  /** An unknown type fails with the "Unknown operation type" message and no bullet id. */
  lemma UnknownTypeFails(recs: seq<BulletRecord>, op: Operation, stamp: string, now: string)
    requires op.Operation? && !KnownType(op.opType)
    ensures var s := ExecuteOne(recs, op, stamp, now);
      s == Step(recs, OpResult(op.opType, false, None, op.reasoning.GetOr(NoReasoning), UnknownPrefix + TypeText(op.opType)))
  {
  }

  /** A missing required key fails with the `KeyError` message, before the store is touched. */
  lemma MissingKeyFails(recs: seq<BulletRecord>, op: Operation, stamp: string, now: string)
    requires op.Operation? && KnownType(op.opType) && MissingKey(op).Some?
    ensures var s := ExecuteOne(recs, op, stamp, now);
      s.records == recs && !s.result.success && s.result.bulletId.None? &&
      s.result.message == ErrorPrefix + KeyErrorText(MissingKey(op).value)
  {
  }

  /** A complete add appends exactly one new bullet and reports its id. */
  lemma AddAppends(recs: seq<BulletRecord>, op: Operation, stamp: string, now: string)
    requires op.Operation? && op.opType == Some("add") && op.content.Some? && op.section.Some?
    ensures var s := ExecuteOne(recs, op, stamp, now);
      s.result.success && s.result.bulletId == Some(IdPrefix + stamp) &&
      s.records == recs + [NewRecord(op.content.value, op.section.value, stamp, now)]
  {
  }

  /** For remove, modify and the two marks, success means exactly that a bullet carried the id. */
  lemma SuccessIffPresent(recs: seq<BulletRecord>, op: Operation, stamp: string, now: string)
    requires op.Operation? && KnownType(op.opType) && op.opType != Some("add") && op.bulletId.Some?
    ensures ExecuteOne(recs, op, stamp, now).result.success <==> op.bulletId.value in Ids(recs)
    ensures ExecuteOne(recs, op, stamp, now).result.bulletId == op.bulletId
  {
    if op.opType == Some("remove") {
      RemovedShrinksIffPresent(recs, op.bulletId.value);
    }
  }

  /**
   * `mark_helpful` on a present id raises the helpful count of the first bullet with that id
   * by exactly one and changes nothing else in the store.
   */
  lemma MarkHelpfulRaisesByOne(recs: seq<BulletRecord>, op: Operation, stamp: string, now: string)
    requires op.Operation? && op.opType == Some("mark_helpful") && op.bulletId.Some?
    requires op.bulletId.value in Ids(recs)
    ensures var after := ExecuteOne(recs, op, stamp, now).records;
      var k := FirstIndex(Ids(recs), op.bulletId.value).value;
      |after| == |recs| && k < |recs| &&
      after[k] == recs[k].(helpfulCount := recs[k].helpfulCount + 1, lastUpdated := now) &&
      forall j :: 0 <= j < |recs| && j != k ==> after[j] == recs[j]
  {
  }

  /** The number of results that report success. */
  function CountSuccessful(results: seq<OpResult>): (n: nat)
    ensures n <= |results|
    decreases |results|
  {
    if results == [] then 0
    else CountSuccessful(results[..|results| - 1]) + (if results[|results| - 1].success then 1 else 0)
  }

  /** The positions whose result reports success. */
  function SuccessPositions(results: seq<OpResult>): set<nat> {
    set k: nat | k < |results| && results[k].success
  }

  /** The count is the size of the set of successful positions. */
  lemma {:induction false} CountIsSuccessPositions(results: seq<OpResult>)
    ensures CountSuccessful(results) == |SuccessPositions(results)|
    decreases |results|
  {
    if results != [] {
      var n := |results| - 1;
      var init := results[..n];
      CountIsSuccessPositions(init);
      var small := SuccessPositions(init);
      assert SuccessPositions(results) == small + (if results[n].success then {n} else {}) by {
        forall k: nat | k < n ensures init[k] == results[k] {}
      }
      assert n !in small;
    }
  }

  /** The dictionary `run_curator` returns, or its error form when an exception escapes. */
  datatype CuratorReport =
    | CuratorReport(operationsProposed: seq<Operation>, executionResults: seq<OpResult>,
                    totalOperations: nat, successfulOperations: nat)
    | CuratorFailure(error: string, operationsProposed: seq<Operation>, executionResults: seq<OpResult>)

  /** The aggregation at the end of `run_curator`. */
  function Report(ops: seq<Operation>, results: seq<OpResult>): (r: CuratorReport)
    ensures r.CuratorReport? && r.successfulOperations <= |results|
  {
    CuratorReport(ops, results, |ops|, CountSuccessful(results))
  }

  /**
   * `run_curator` after a successful reply (corrected executor): the total is the number of
   * proposed operations and of results, and the successes are counted exactly.
   */
  function RunCurator(recs: seq<BulletRecord>, ops: seq<Operation>, ids: nat -> string, clock: nat -> string)
    : (out: (seq<BulletRecord>, CuratorReport))
    ensures out.1.CuratorReport? && out.1.operationsProposed == ops
    ensures out.1.totalOperations == |ops| == |out.1.executionResults|
    ensures out.1.successfulOperations <= out.1.totalOperations
  {
    var b := ExecuteAll(recs, ops, ids, clock);
    (b.records, Report(ops, b.results))
  }

  /** The success count of the report is the number of results with `success` set. */
  lemma ReportCountsSuccesses(recs: seq<BulletRecord>, ops: seq<Operation>, ids: nat -> string, clock: nat -> string)
    ensures var r := RunCurator(recs, ops, ids, clock).1;
      r.successfulOperations == |SuccessPositions(r.executionResults)|
  {
    CountIsSuccessPositions(ExecuteAll(recs, ops, ids, clock).results);
  }

  // ---------------------------------------------------------------- as written

  /** The outcome of the loop as written: either it finishes, or an exception escapes it. */
  datatype Outcome = Finished(batch: Batch) | Aborted(records: seq<BulletRecord>, error: string)

  /**
   * `execute_operations` as written: `op.get(...)` runs before the `try`, so a non-object
   * entry raises out of the loop, after the earlier operations have already changed the store.
   */
  function ExecuteAllAsWritten(recs: seq<BulletRecord>, ops: seq<Operation>, ids: nat -> string, clock: nat -> string)
    : (o: Outcome)
    ensures o.Finished? ==> o.batch == ExecuteAll(recs, ops, ids, clock)
    decreases |ops|
  {
    if ops == [] then Finished(Batch(recs, []))
    else
      var n := |ops| - 1;
      match ExecuteAllAsWritten(recs, ops[..n], ids, clock)
      case Aborted(rs, e) => Aborted(rs, e)
      case Finished(before) =>
        if ops[n].NotAnObject? then Aborted(before.records, AttributeErrorText(ops[n].typeName))
        else
          var step := ExecuteOne(before.records, ops[n], ids(n), clock(n));
          Finished(Batch(step.records, before.results + [step.result]))
  }

  /** As written, the pass runs to the end exactly when every proposed operation is an object. */
  lemma {:induction false} AsWrittenFinishesIffObjects(recs: seq<BulletRecord>, ops: seq<Operation>, ids: nat -> string, clock: nat -> string)
    ensures ExecuteAllAsWritten(recs, ops, ids, clock).Finished? <==> forall k :: 0 <= k < |ops| ==> ops[k].Operation?
    decreases |ops|
  {
    if ops != [] {
      var n := |ops| - 1;
      assert ExecuteAllAsWritten(recs, ops, ids, clock).Finished?
        <==> ExecuteAllAsWritten(recs, ops[..n], ids, clock).Finished? && ops[n].Operation?;
      assert ExecuteAllAsWritten(recs, ops[..n], ids, clock).Finished?
        <==> forall k :: 0 <= k < n ==> ops[k].Operation?
      by {
        AsWrittenFinishesIffObjects(recs, ops[..n], ids, clock);
        assert forall k :: 0 <= k < n ==> ops[..n][k] == ops[k];
      }
    }
  }

  /** `run_curator` as written: an escaping exception yields the error form with no results. */
  function RunCuratorAsWritten(recs: seq<BulletRecord>, ops: seq<Operation>, ids: nat -> string, clock: nat -> string)
    : (out: (seq<BulletRecord>, CuratorReport))
    ensures out.1.CuratorReport? ==> out == RunCurator(recs, ops, ids, clock)
    ensures out.1.CuratorFailure? <==> exists k :: 0 <= k < |ops| && ops[k].NotAnObject?
  {
    AsWrittenFinishesIffObjects(recs, ops, ids, clock);
    match ExecuteAllAsWritten(recs, ops, ids, clock)
    case Finished(b) => (b.records, Report(ops, b.results))
    case Aborted(rs, e) => (rs, CuratorFailure("Curator failed: " + e, [], []))
  }

  /** A complete add, the first operation of the example below. */
  function ExampleAdd(): Operation {
    Operation(Some("add"), Some("Ask about allergies before medications"), Some("questioning"), None, None, None)
  }

  /**
   * An add followed by a bare string: as written, the add is applied to the store, yet the
   * report carries an error and no results, so the applied change is never reported.
   */
  lemma AsWrittenLosesAppliedResults(ids: nat -> string, clock: nat -> string)
    ensures var out := RunCuratorAsWritten([], [ExampleAdd(), NotAnObject("str")], ids, clock);
      |out.0| == 1 && out.1.CuratorFailure? && out.1.executionResults == []
  {
    var ops := [ExampleAdd(), NotAnObject("str")];
    assert ops[..1] == [ExampleAdd()] && ops[..1][..0] == [];
    AddExampleStep(ids, clock);
    assert ExecuteAllAsWritten([], ops[..1], ids, clock).Finished?;
    assert ExecuteAllAsWritten([], ops[..1], ids, clock).batch.records == [AddExampleRecord(ids, clock)];
  }

  /** The record the example add creates. */
  function AddExampleRecord(ids: nat -> string, clock: nat -> string): BulletRecord {
    NewRecord("Ask about allergies before medications", "questioning", ids(0), clock(0))
  }

  /** The example add, run first on an empty store, succeeds and creates one record. */
  lemma AddExampleStep(ids: nat -> string, clock: nat -> string)
    ensures ExecuteAll([], [ExampleAdd()], ids, clock).records == [AddExampleRecord(ids, clock)]
    ensures ExecuteAll([], [ExampleAdd()], ids, clock).results[0].success
    ensures ExecuteOne([], ExampleAdd(), ids(0), clock(0)).records == [AddExampleRecord(ids, clock)]
  {
    assert [ExampleAdd()][..0] == [];
    assert MissingKey(ExampleAdd()).None?;
  }

  /** Corrected, the same list yields one result per entry: the add succeeds, the string fails. */
  lemma CorrectedReportsEveryOperation(ids: nat -> string, clock: nat -> string)
    ensures var out := RunCurator([], [ExampleAdd(), NotAnObject("str")], ids, clock);
      |out.0| == 1 && out.1.totalOperations == 2 &&
      out.1.executionResults[0].success && !out.1.executionResults[1].success &&
      out.1.successfulOperations == 1
  {
    var ops := [ExampleAdd(), NotAnObject("str")];
    assert ops[..1] == [ExampleAdd()];
    AddExampleStep(ids, clock);
    var b := ExecuteAll([], ops, ids, clock);
    assert b.results == ExecuteAll([], ops[..1], ids, clock).results + [ExecuteOne([AddExampleRecord(ids, clock)], ops[1], ids(1), clock(1)).result];
    assert b.records == [AddExampleRecord(ids, clock)];
    assert CountSuccessful(b.results[..1]) == 1 by {
      assert b.results[..1][..0] == [];
    }
    assert b.results[..2] == b.results;
  }

  /** A removal of an id that no bullet has, the second operation of the example below. */
  function ExampleRemove(): Operation {
    Operation(Some("remove"), None, None, Some("bullet_missing"), None, None)
  }

  /** A helpful mark for the bullet the example add creates, the third operation. */
  function ExampleMark(ids: nat -> string): Operation {
    Operation(Some("mark_helpful"), None, None, Some(IdPrefix + ids(0)), None, None)
  }

  /** After the add, removing an id nobody has fails and leaves the store as it was. */
  lemma ExampleRemoveFails(ids: nat -> string, clock: nat -> string)
    requires ids(0) != "missing"
    ensures var two := ExecuteAll([], [ExampleAdd(), ExampleRemove()], ids, clock);
      two.records == [AddExampleRecord(ids, clock)] && two.results[0].success && !two.results[1].success
  {
    AddExampleStep(ids, clock);
    var one := ExecuteAll([], [ExampleAdd()], ids, clock);
    assert "bullet_missing" !in Ids(one.records) by {
      assert Ids(one.records) == [IdPrefix + ids(0)];
      assert IdPrefix + "missing" != IdPrefix + ids(0) by {
        assert (IdPrefix + "missing")[|IdPrefix|..] == "missing";
        assert (IdPrefix + ids(0))[|IdPrefix|..] == ids(0);
      }
    }
    SuccessIffPresent(one.records, ExampleRemove(), ids(1), clock(1));
    FailureLeavesStore(one.records, ExampleRemove(), ids(1), clock(1));
    assert [ExampleAdd(), ExampleRemove()][..1] == [ExampleAdd()];
  }

  /**
   * A typical batch: add a bullet, remove an id nobody has, then mark the new bullet helpful.
   * The results are success, failure, success, and the new bullet ends with one helpful vote.
   */
  lemma ExampleBatch(ids: nat -> string, clock: nat -> string)
    requires ids(0) != "missing"
    ensures var b := ExecuteAll([], [ExampleAdd(), ExampleRemove(), ExampleMark(ids)], ids, clock);
      |b.results| == 3 && b.results[0].success && !b.results[1].success && b.results[2].success &&
      |b.records| == 1 && b.records[0].helpfulCount == 1
  {
    ExampleRemoveFails(ids, clock);
    var two := ExecuteAll([], [ExampleAdd(), ExampleRemove()], ids, clock);
    assert Ids(two.records) == [IdPrefix + ids(0)];
    assert FirstIndex(Ids(two.records), IdPrefix + ids(0)) == Some(0);
    SuccessIffPresent(two.records, ExampleMark(ids), ids(2), clock(2));
    MarkHelpfulRaisesByOne(two.records, ExampleMark(ids), ids(2), clock(2));
    assert [ExampleAdd(), ExampleRemove(), ExampleMark(ids)][..2] == [ExampleAdd(), ExampleRemove()];
  }
}
