/** The background executors (pkg/services/featureOne/script/expensesBatch.go):
    ProcessBatchUpdate and ProcessBatchUpload walk their items in order,
    call the store for each one, keep successCount, failCount and the list
    of failure records, and write snapshots to the job store. Each method is
    proved to make exactly the calls of a specification function over the
    store's answers; the lemmas below relate those calls to the run log of
    BatchRun. */
module BatchExecutor {
  import opened Wrappers
  import opened ExpenseModel
  import opened ExpenseValidation
  import opened Gateway
  import opened BatchRun

  const ExpenseNotFound: string := "Expense not found"
  const UpdateFailed: string := "Failed to update expense"
  const ValidationFailed: string := "Validation failed: "
  const CreateFailed: string := "Failed to create expense"

  lemma AppendAssoc(a: seq<Call>, b: seq<Call>, c: seq<Call>)
    ensures a + b + c == a + (b + c)
  {
  }

  lemma RunShape(before: seq<Call>, start: Call, loop: seq<Call>, final: Call)
    ensures before + [start] + loop + [final] == before + ([start] + loop + [final])
  {
  }

  // ---------------------------------------------------------------------
  // ProcessBatchUpdate
  // ---------------------------------------------------------------------

  /** What the store answered for one item of a batch update. */
  datatype UpdateOutcome = NotFound | UpdateError | Updated

  /** The verdict on item i: a missing expense and a failed update are
      failures naming the item and its expense ID. */
  function UpdateVerdict(i: int, item: BatchUpdateItem, o: UpdateOutcome): Verdict {
    match o
    case NotFound => FailedWith(BatchUpdateResultItem(i, item.expenseID, ExpenseNotFound, false))
    case UpdateError => FailedWith(BatchUpdateResultItem(i, item.expenseID, UpdateFailed, false))
    case Updated => Succeeded
  }

  function UpdateVerdicts(items: seq<BatchUpdateItem>, outs: seq<UpdateOutcome>): seq<Verdict>
    requires |items| == |outs|
  {
    seq(|items|, i requires 0 <= i < |items| => UpdateVerdict(i, items[i], outs[i]))
  }

  /** A missing expense skips the progress write; every other item writes one. */
  function UpdateWrites(outs: seq<UpdateOutcome>): seq<bool> {
    seq(|outs|, i requires 0 <= i < |outs| => outs[i] != NotFound)
  }

  /** The store calls for item i, given the state `after` it. */
  function UpdateItemCalls(jobID: int, userID: int, i: int, item: BatchUpdateItem, o: UpdateOutcome, after: Tally): seq<Call> {
    if o == NotFound then [ExpenseExistsCall(userID, item.expenseID)]
    else [ExpenseExistsCall(userID, item.expenseID),
          UpdateExpenseCall(userID, item.expenseID, UpdateRequestOf(item)),
          UpdateBatchJobCall(jobID, ProgressSnapshot(i + 1, after))]
  }

  function UpdateLoopCalls(jobID: int, userID: int, items: seq<BatchUpdateItem>, outs: seq<UpdateOutcome>): seq<Call>
    requires |items| == |outs|
    decreases |items|
  {
    if |items| == 0 then []
    else
      var n := |items| - 1;
      UpdateLoopCalls(jobID, userID, items[..n], outs[..n])
      + UpdateItemCalls(jobID, userID, n, items[n], outs[n], TallyOf(UpdateVerdicts(items, outs)))
  }

  /** Every store call a batch update makes, given the store's answers. */
  function UpdateRunCalls(jobID: int, userID: int, items: seq<BatchUpdateItem>, outs: seq<UpdateOutcome>): seq<Call>
    requires |items| == |outs|
  {
    [UpdateBatchJobCall(jobID, StartSnapshot())]
    + UpdateLoopCalls(jobID, userID, items, outs)
    + [UpdateBatchJobCall(jobID, FinalSnapshot(|items|, TallyOf(UpdateVerdicts(items, outs))))]
  }

  lemma UpdateLoopStep(jobID: int, userID: int, items: seq<BatchUpdateItem>, outs: seq<UpdateOutcome>, o: UpdateOutcome)
    requires |outs| < |items|
    ensures var i := |outs|;
            UpdateLoopCalls(jobID, userID, items[..i + 1], outs + [o])
            == UpdateLoopCalls(jobID, userID, items[..i], outs)
               + UpdateItemCalls(jobID, userID, i, items[i], o, TallyOf(UpdateVerdicts(items[..i + 1], outs + [o])))
    ensures var i := |outs|;
            TallyOf(UpdateVerdicts(items[..i + 1], outs + [o]))
            == Record(TallyOf(UpdateVerdicts(items[..i], outs)), UpdateVerdict(i, items[i], o))
  {
    var i := |outs|;
    assert items[..i + 1][..i] == items[..i];
    assert (outs + [o])[..i] == outs;
    var vs := UpdateVerdicts(items[..i + 1], outs + [o]);
    assert vs[..i] == UpdateVerdicts(items[..i], outs);
  }

  /** One turn of the update loop keeps both loop invariants. */
  lemma UpdateStep(jobID: int, userID: int, items: seq<BatchUpdateItem>, outs: seq<UpdateOutcome>, o: UpdateOutcome,
                   tally: Tally, next: Tally, prefix: seq<Call>, before: seq<Call>, after: seq<Call>)
    requires |outs| < |items|
    requires tally == TallyOf(UpdateVerdicts(items[..|outs|], outs))
    requires next == Record(tally, UpdateVerdict(|outs|, items[|outs|], o))
    requires before == prefix + UpdateLoopCalls(jobID, userID, items[..|outs|], outs)
    requires after == before + UpdateItemCalls(jobID, userID, |outs|, items[|outs|], o, next)
    ensures next == TallyOf(UpdateVerdicts(items[..|outs| + 1], outs + [o]))
    ensures after == prefix + UpdateLoopCalls(jobID, userID, items[..|outs| + 1], outs + [o])
  {
    UpdateLoopStep(jobID, userID, items, outs, o);
    AppendAssoc(prefix, UpdateLoopCalls(jobID, userID, items[..|outs|], outs),
                UpdateItemCalls(jobID, userID, |outs|, items[|outs|], o, next));
  }

  /** The body of ProcessBatchUpdate's loop for item i: a missing expense is
      a failure and skips the progress write (the loop's `continue`); a
      found one is updated, counted, and followed by a progress write. */
  method ProcessUpdateItem(db: Repository, jobID: int, userID: int, i: nat, update: BatchUpdateItem,
                           successCount: nat, failCount: nat, results: seq<BatchUpdateResultItem>)
    returns (successes: nat, failures: nat, records: seq<BatchUpdateResultItem>, ghost o: UpdateOutcome)
    modifies db
    ensures Tally(successes, failures, records) == Record(Tally(successCount, failCount, results), UpdateVerdict(i, update, o))
    ensures db.calls == old(db.calls) + UpdateItemCalls(jobID, userID, i, update, o, Tally(successes, failures, records))
  {
    successes, failures, records := successCount, failCount, results;
    var req := UpdateRequestOf(update);

    var found := db.ExpenseExists(userID, update.expenseID);
    if !found {
      failures := failures + 1;
      records := records + [BatchUpdateResultItem(i, update.expenseID, ExpenseNotFound, false)];
      o := NotFound;
      return;
    }

    var r := db.UpdateExpense(userID, update.expenseID, req);
    if r.Failure? {
      failures := failures + 1;
      records := records + [BatchUpdateResultItem(i, update.expenseID, UpdateFailed, false)];
      o := UpdateError;
    } else {
      successes := successes + 1;
      o := Updated;
    }

    var _ := db.UpdateBatchJob(jobID, Snapshot(Processing, i + 1, successes, failures, Some(records)));
  }

  /** ProcessBatchUpdate: the store's answers are the ghost `outs`; the calls
      made are exactly UpdateRunCalls of those answers. */
  method ProcessBatchUpdate(db: Repository, jobID: int, userID: int, updates: seq<BatchUpdateItem>)
    returns (ghost outs: seq<UpdateOutcome>)
    modifies db
    ensures |outs| == |updates|
    ensures db.calls == old(db.calls) + UpdateRunCalls(jobID, userID, updates, outs)
  {
    var _ := db.UpdateBatchJob(jobID, Snapshot(Processing, 0, 0, 0, None));
    ghost var prefix := db.calls;

    var results: seq<BatchUpdateResultItem> := [];
    var successCount: nat := 0;
    var failCount: nat := 0;
    outs := [];

    for i := 0 to |updates|
      invariant |outs| == i
      invariant Tally(successCount, failCount, results) == TallyOf(UpdateVerdicts(updates[..i], outs))
      invariant db.calls == prefix + UpdateLoopCalls(jobID, userID, updates[..i], outs)
    {
      ghost var before := db.calls;
      ghost var tally := Tally(successCount, failCount, results);
      ghost var o;
      successCount, failCount, results, o :=
        ProcessUpdateItem(db, jobID, userID, i, updates[i], successCount, failCount, results);
      UpdateStep(jobID, userID, updates, outs, o, tally, Tally(successCount, failCount, results), prefix, before, db.calls);
      outs := outs + [o];
    }

    assert updates[..|updates|] == updates;
    var finalStatus := Completed;
    if failCount == |updates| {
      finalStatus := Failed;
    }
    var _ := db.UpdateBatchJob(jobID, Snapshot(finalStatus, |updates|, successCount, failCount, Some(results)));
    RunShape(old(db.calls), UpdateBatchJobCall(jobID, StartSnapshot()), UpdateLoopCalls(jobID, userID, updates, outs),
             UpdateBatchJobCall(jobID, FinalSnapshot(|updates|, TallyOf(UpdateVerdicts(updates, outs)))));
  }

  // ---------------------------------------------------------------------
  // ProcessBatchUpload
  // ---------------------------------------------------------------------

  /** The validation result of each row, in order. */
  function RowChecks(rows: seq<CSVExpenseRow>): (checks: seq<Option<ValidationError>>)
    ensures |checks| == |rows|
  {
    seq(|rows|, i requires 0 <= i < |rows| => ValidateCreateExpense(CreateRequestOf(rows[i])))
  }

  /** `checks` are the validation results of `rows`, one per row. */
  predicate ChecksOf(rows: seq<CSVExpenseRow>, checks: seq<Option<ValidationError>>)
    decreases |rows|
  {
    |rows| == |checks|
    && (|rows| == 0
        || (ChecksOf(rows[..|rows| - 1], checks[..|checks| - 1])
            && checks[|checks| - 1] == ValidateCreateExpense(CreateRequestOf(rows[|rows| - 1]))))
  }

  lemma {:induction false} ChecksOfRowChecks(rows: seq<CSVExpenseRow>, checks: seq<Option<ValidationError>>)
    requires ChecksOf(rows, checks)
    ensures checks == RowChecks(rows)
    decreases |rows|
  {
    if |rows| > 0 {
      var n := |rows| - 1;
      ChecksOfRowChecks(rows[..n], checks[..n]);
      assert checks == checks[..n] + [checks[n]];
      assert RowChecks(rows) == RowChecks(rows[..n]) + [RowChecks(rows)[n]];
    }
  }

  lemma ChecksOfStep(rows: seq<CSVExpenseRow>, checks: seq<Option<ValidationError>>, check: Option<ValidationError>)
    requires |checks| < |rows| && ChecksOf(rows[..|checks|], checks)
    requires check == ValidateCreateExpense(CreateRequestOf(rows[|checks|]))
    ensures ChecksOf(rows[..|checks| + 1], checks + [check])
  {
    var i := |checks|;
    assert rows[..i + 1][..i] == rows[..i];
    assert (checks + [check])[..i] == checks;
  }

  /** The verdict on row i, given its validation result: a row that fails
      validation, and a row the store does not create, are failures naming
      the item (with expense ID 0). */
  function UploadVerdict(i: int, check: Option<ValidationError>, created: bool): Verdict {
    match check
    case Some(e) => FailedWith(BatchUpdateResultItem(i, 0, ValidationFailed + e.Message(), false))
    case None =>
      if created then Succeeded
      else FailedWith(BatchUpdateResultItem(i, 0, CreateFailed, false))
  }

  function UploadVerdicts(checks: seq<Option<ValidationError>>, created: seq<bool>): seq<Verdict>
    requires |checks| == |created|
  {
    seq(|checks|, i requires 0 <= i < |checks| => UploadVerdict(i, checks[i], created[i]))
  }

  /** Which rows pass validation (and so reach the store). */
  function ValidRows(checks: seq<Option<ValidationError>>): seq<bool> {
    seq(|checks|, i requires 0 <= i < |checks| => checks[i].None?)
  }

  /** Every row writes a progress snapshot. */
  function EveryRow(n: nat): seq<bool> {
    seq(n, i requires 0 <= i < n => true)
  }

  function UploadItemCalls(jobID: int, userID: int, i: int, row: CSVExpenseRow, check: Option<ValidationError>, after: Tally): seq<Call> {
    if check.Some? then [UpdateBatchJobCall(jobID, ProgressSnapshot(i + 1, after))]
    else [CreateExpenseCall(userID, CreateRequestOf(row)), UpdateBatchJobCall(jobID, ProgressSnapshot(i + 1, after))]
  }

  function UploadLoopCalls(jobID: int, userID: int, rows: seq<CSVExpenseRow>,
                           checks: seq<Option<ValidationError>>, created: seq<bool>): seq<Call>
    requires |rows| == |checks| == |created|
    decreases |rows|
  {
    if |rows| == 0 then []
    else
      var n := |rows| - 1;
      UploadLoopCalls(jobID, userID, rows[..n], checks[..n], created[..n])
      + UploadItemCalls(jobID, userID, n, rows[n], checks[n], TallyOf(UploadVerdicts(checks, created)))
  }

  /** Every store call a CSV upload run makes, given each row's validation
      result and the store's answers. */
  function UploadRunCalls(jobID: int, userID: int, rows: seq<CSVExpenseRow>,
                          checks: seq<Option<ValidationError>>, created: seq<bool>): seq<Call>
    requires |rows| == |checks| == |created|
  {
    [UpdateBatchJobCall(jobID, StartSnapshot())]
    + UploadLoopCalls(jobID, userID, rows, checks, created)
    + [UpdateBatchJobCall(jobID, FinalSnapshot(|rows|, TallyOf(UploadVerdicts(checks, created))))]
  }

  lemma UploadLoopStep(jobID: int, userID: int, rows: seq<CSVExpenseRow>, checks: seq<Option<ValidationError>>,
                       created: seq<bool>, check: Option<ValidationError>, c: bool)
    requires |checks| == |created| < |rows|
    ensures var i := |created|;
            UploadLoopCalls(jobID, userID, rows[..i + 1], checks + [check], created + [c])
            == UploadLoopCalls(jobID, userID, rows[..i], checks, created)
               + UploadItemCalls(jobID, userID, i, rows[i], check, TallyOf(UploadVerdicts(checks + [check], created + [c])))
    ensures TallyOf(UploadVerdicts(checks + [check], created + [c]))
            == Record(TallyOf(UploadVerdicts(checks, created)), UploadVerdict(|created|, check, c))
  {
    var i := |created|;
    assert rows[..i + 1][..i] == rows[..i];
    assert (checks + [check])[..i] == checks;
    assert (created + [c])[..i] == created;
    var vs := UploadVerdicts(checks + [check], created + [c]);
    assert vs[..i] == UploadVerdicts(checks, created);
  }

  /** One turn of the upload loop keeps both loop invariants. */
  lemma UploadStep(jobID: int, userID: int, rows: seq<CSVExpenseRow>, checks: seq<Option<ValidationError>>,
                   created: seq<bool>, check: Option<ValidationError>, c: bool, tally: Tally, next: Tally,
                   prefix: seq<Call>, before: seq<Call>, after: seq<Call>)
    requires |checks| == |created| < |rows|
    requires tally == TallyOf(UploadVerdicts(checks, created))
    requires next == Record(tally, UploadVerdict(|created|, check, c))
    requires before == prefix + UploadLoopCalls(jobID, userID, rows[..|created|], checks, created)
    requires after == before + UploadItemCalls(jobID, userID, |created|, rows[|created|], check, next)
    ensures next == TallyOf(UploadVerdicts(checks + [check], created + [c]))
    ensures after == prefix + UploadLoopCalls(jobID, userID, rows[..|created| + 1], checks + [check], created + [c])
  {
    UploadLoopStep(jobID, userID, rows, checks, created, check, c);
    AppendAssoc(prefix, UploadLoopCalls(jobID, userID, rows[..|created|], checks, created),
                UploadItemCalls(jobID, userID, |created|, rows[|created|], check, next));
  }

  /** The body of ProcessBatchUpload's loop for row i: a row that fails
      validation is a failure, gets its progress write and goes no further
      (the loop's `continue`); a valid one is sent to the store, counted,
      and followed by a progress write. `check` is the row's validation
      result and `created` what the store answered. */
  method ProcessUploadRow(db: Repository, jobID: int, userID: int, i: nat, expense: CSVExpenseRow,
                          successCount: nat, failCount: nat, results: seq<BatchUpdateResultItem>)
    returns (successes: nat, failures: nat, records: seq<BatchUpdateResultItem>,
             ghost check: Option<ValidationError>, ghost created: bool)
    modifies db
    ensures check == ValidateCreateExpense(CreateRequestOf(expense))
    ensures Tally(successes, failures, records) == Record(Tally(successCount, failCount, results), UploadVerdict(i, check, created))
    ensures db.calls == old(db.calls) + UploadItemCalls(jobID, userID, i, expense, check, Tally(successes, failures, records))
  {
    successes, failures, records := successCount, failCount, results;
    var req := CreateRequestOf(expense);

    var invalid := ValidateCreateExpense(req);
    check := invalid;
    if invalid.Some? {
      failures := failures + 1;
      records := records + [BatchUpdateResultItem(i, 0, "Validation failed: " + invalid.value.Message(), false)];
      created := false;
      var _ := db.UpdateBatchJob(jobID, Snapshot(Processing, i + 1, successes, failures, Some(records)));
      return;
    }

    var r := db.CreateExpense(userID, req);
    if r.Failure? {
      failures := failures + 1;
      records := records + [BatchUpdateResultItem(i, 0, CreateFailed, false)];
    } else {
      successes := successes + 1;
    }
    created := r.Success?;

    var _ := db.UpdateBatchJob(jobID, Snapshot(Processing, i + 1, successes, failures, Some(records)));
  }

  /** ProcessBatchUpload: `checks` are the rows' validation results and
      `created` the store's answers to the create calls (false for rows that
      fail validation); the calls made are exactly UploadRunCalls of those. */
  method ProcessBatchUpload(db: Repository, jobID: int, userID: int, expenses: seq<CSVExpenseRow>)
    returns (ghost checks: seq<Option<ValidationError>>, ghost created: seq<bool>)
    modifies db
    ensures |checks| == |created| == |expenses|
    ensures ChecksOf(expenses, checks)
    ensures db.calls == old(db.calls) + UploadRunCalls(jobID, userID, expenses, checks, created)
  {
    var _ := db.UpdateBatchJob(jobID, Snapshot(Processing, 0, 0, 0, None));
    ghost var prefix := db.calls;

    var results: seq<BatchUpdateResultItem> := [];
    var successCount: nat := 0;
    var failCount: nat := 0;
    checks, created := [], [];

    for i := 0 to |expenses|
      invariant |checks| == |created| == i
      invariant ChecksOf(expenses[..i], checks)
      invariant Tally(successCount, failCount, results) == TallyOf(UploadVerdicts(checks, created))
      invariant db.calls == prefix + UploadLoopCalls(jobID, userID, expenses[..i], checks, created)
    {
      ghost var before := db.calls;
      ghost var tally := Tally(successCount, failCount, results);
      ghost var check, c;
      successCount, failCount, results, check, c :=
        ProcessUploadRow(db, jobID, userID, i, expenses[i], successCount, failCount, results);
      UploadStep(jobID, userID, expenses, checks, created, check, c, tally, Tally(successCount, failCount, results),
                 prefix, before, db.calls);
      ChecksOfStep(expenses, checks, check);
      checks := checks + [check];
      created := created + [c];
    }

    assert expenses[..|expenses|] == expenses;
    var finalStatus := Completed;
    if failCount == |expenses| {
      finalStatus := Failed;
    }
    var _ := db.UpdateBatchJob(jobID, Snapshot(finalStatus, |expenses|, successCount, failCount, Some(results)));
    RunShape(old(db.calls), UpdateBatchJobCall(jobID, StartSnapshot()), UploadLoopCalls(jobID, userID, expenses, checks, created),
             UpdateBatchJobCall(jobID, FinalSnapshot(|expenses|, TallyOf(UploadVerdicts(checks, created)))));
  }
}
