/** The repository calls the batch subsystem makes
    (pkg/services/featureOne/script/expenses.go and the DB-backed functions of
    pkg/services/featureOne/script/expensesBatch.go). Their SQL bodies are not
    part of this model: each method records the call in a ghost log and
    returns an answer the model does not constrain. */
module Gateway {
  import opened Wrappers
  import opened ExpenseModel

  /** One call into the database, with its arguments. */
  datatype Call =
    | ExpenseExistsCall(userID: int, expenseID: int)
    | UpdateExpenseCall(userID: int, expenseID: int, req: UpdateExpenseRequest)
    | CreateExpenseCall(userID: int, create: CreateExpenseRequest)
    | CreateBatchJobCall(userID: int, jobType: JobType, totalItems: int)
    | UpdateBatchJobCall(jobID: int, snapshot: Snapshot)
    | BatchJobExistsCall(userID: int, jobID: int)
    | GetBatchJobCall(userID: int, jobID: int)

  /** The snapshots written to the job store, in the order of the calls. */
  function Snapshots(calls: seq<Call>): (log: seq<Snapshot>)
    ensures |log| <= |calls|
    decreases |calls|
  {
    if |calls| == 0 then []
    else Snapshots(calls[..|calls| - 1])
         + (match calls[|calls| - 1]
            case UpdateBatchJobCall(_, snap) => [snap]
            case _ => [])
  }

  lemma {:induction false} SnapshotsAppend(a: seq<Call>, b: seq<Call>)
    ensures Snapshots(a + b) == Snapshots(a) + Snapshots(b)
    decreases |b|
  {
    if |b| > 0 {
      SnapshotsAppend(a, b[..|b| - 1]);
      assert (a + b)[..|a + b| - 1] == a + b[..|b| - 1];
      assert (a + b)[|a + b| - 1] == b[|b| - 1];
    } else {
      assert a + b == a;
    }
  }

  lemma SnapshotsOfOne(c: Call)
    ensures Snapshots([c]) == (if c.UpdateBatchJobCall? then [c.snapshot] else [])
  {
    assert [c][..0] == [];
  }

  lemma SnapshotsOfSum(all: seq<Call>, a: seq<Call>, b: seq<Call>)
    requires all == a + b
    ensures Snapshots(all) == Snapshots(a) + Snapshots(b)
  {
    SnapshotsAppend(a, b);
  }

  /** The snapshots of three calls are those of each call, in order. */
  lemma SnapshotsOfThree(a: Call, b: Call, c: Call)
    ensures Snapshots([a, b, c]) == Snapshots([a]) + Snapshots([b]) + Snapshots([c])
  {
    SnapshotsAppend([a], [b]);
    SnapshotsAppend([a] + [b], [c]);
    assert [a] + [b] + [c] == [a, b, c];
  }

  /** The calls that satisfy `keep`, in their original order. */
  function Only(calls: seq<Call>, keep: Call -> bool): seq<Call>
    decreases |calls|
  {
    if |calls| == 0 then []
    else Only(calls[..|calls| - 1], keep) + (if keep(calls[|calls| - 1]) then [calls[|calls| - 1]] else [])
  }

  lemma {:induction false} OnlyAppend(a: seq<Call>, b: seq<Call>, keep: Call -> bool)
    ensures Only(a + b, keep) == Only(a, keep) + Only(b, keep)
    decreases |b|
  {
    if |b| > 0 {
      OnlyAppend(a, b[..|b| - 1], keep);
      assert (a + b)[..|a + b| - 1] == a + b[..|b| - 1];
      assert (a + b)[|a + b| - 1] == b[|b| - 1];
    } else {
      assert a + b == a;
    }
  }

  lemma OnlyOfOne(c: Call, keep: Call -> bool)
    ensures Only([c], keep) == (if keep(c) then [c] else [])
  {
    assert [c][..0] == [];
  }

  lemma OnlyOfThree(a: Call, b: Call, c: Call, keep: Call -> bool)
    ensures Only([a, b, c], keep) == Only([a], keep) + Only([b], keep) + Only([c], keep)
  {
    OnlyAppend([a], [b], keep);
    OnlyAppend([a] + [b], [c], keep);
    assert [a] + [b] + [c] == [a, b, c];
  }

  lemma OnlyOfTwo(a: Call, b: Call, keep: Call -> bool)
    ensures Only([a, b], keep) == Only([a], keep) + Only([b], keep)
  {
    OnlyAppend([a], [b], keep);
    assert [a] + [b] == [a, b];
  }

  lemma SnapshotsOfTwo(a: Call, b: Call)
    ensures Snapshots([a, b]) == Snapshots([a]) + Snapshots([b])
  {
    SnapshotsAppend([a], [b]);
    assert [a] + [b] == [a, b];
  }

  lemma OnlyOfSum(all: seq<Call>, a: seq<Call>, b: seq<Call>, keep: Call -> bool)
    requires all == a + b
    ensures Only(all, keep) == Only(a, keep) + Only(b, keep)
  {
    OnlyAppend(a, b, keep);
  }

  predicate IsExistsCall(c: Call) { c.ExpenseExistsCall? }
  predicate IsUpdateCall(c: Call) { c.UpdateExpenseCall? }
  predicate IsCreateCall(c: Call) { c.CreateExpenseCall? }

  class Repository {
    /** Every call made to the database so far, oldest first. */
    ghost var calls: seq<Call>

    constructor ()
      ensures calls == []
    {
      calls := [];
    }

    /** ExpenseExists: whether the user owns a live expense with this ID. */
    method ExpenseExists(userID: int, expenseID: int) returns (found: bool)
      modifies this
      ensures calls == old(calls) + [ExpenseExistsCall(userID, expenseID)]
    {
      found :| true;
      calls := calls + [ExpenseExistsCall(userID, expenseID)];
    }

    /** UpdateExpense: the updated expense, or the store's error. */
    method UpdateExpense(userID: int, expenseID: int, req: UpdateExpenseRequest)
      returns (r: Result<ExpenseRecord, string>)
      modifies this
      ensures calls == old(calls) + [UpdateExpenseCall(userID, expenseID, req)]
    {
      r :| true;
      calls := calls + [UpdateExpenseCall(userID, expenseID, req)];
    }

    /** CreateExpense: the created expense, or the store's error. */
    method CreateExpense(userID: int, req: CreateExpenseRequest) returns (r: Result<ExpenseRecord, string>)
      modifies this
      ensures calls == old(calls) + [CreateExpenseCall(userID, req)]
    {
      r :| true;
      calls := calls + [CreateExpenseCall(userID, req)];
    }

    /** CreateBatchJob: the new job's ID, or the store's error. */
    method CreateBatchJob(userID: int, jobType: JobType, totalItems: int) returns (r: Result<int, string>)
      modifies this
      ensures calls == old(calls) + [CreateBatchJobCall(userID, jobType, totalItems)]
    {
      r :| true;
      calls := calls + [CreateBatchJobCall(userID, jobType, totalItems)];
    }

    /** UpdateBatchJob: marshals the results (an absent results value is
        stored as NULL) and persists the snapshot with the `update_batch_job`
        database function; answers with the store's error, if any. */
    method UpdateBatchJob(jobID: int, snapshot: Snapshot) returns (err: Option<string>)
      modifies this
      ensures calls == old(calls) + [UpdateBatchJobCall(jobID, snapshot)]
    {
      err :| true;
      calls := calls + [UpdateBatchJobCall(jobID, snapshot)];
    }

    /** BatchJobExists: whether the job exists and belongs to the user; a
        database error reads as false. */
    method BatchJobExists(userID: int, jobID: int) returns (found: bool)
      modifies this
      ensures calls == old(calls) + [BatchJobExistsCall(userID, jobID)]
    {
      found :| true;
      calls := calls + [BatchJobExistsCall(userID, jobID)];
    }

    /** GetBatchJob: the job as stored, or a database or decoding error. */
    method GetBatchJob(userID: int, jobID: int) returns (r: Result<BatchJobView, string>)
      modifies this
      ensures calls == old(calls) + [GetBatchJobCall(userID, jobID)]
    {
      r :| true;
      calls := calls + [GetBatchJobCall(userID, jobID)];
    }
  }
}
