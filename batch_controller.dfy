/** The batch endpoints (pkg/services/featureOne/controller/expensesBatch.go):
    the synchronous batch update, which runs the per-item loop itself and
    answers with the aggregate; the asynchronous batch update and the CSV
    upload, which pass their gates, create a job and hand the items to a
    background executor; and the job-status lookup. The store is the
    Repository of Gateway; the background run is modelled as one sequential
    call of the BatchExecutor method after the answer is built. */
module BatchController {
  import opened Wrappers
  import opened Text
  import opened Numbers
  import opened ExpenseModel
  import opened ExpenseValidation
  import opened Http
  import opened Gateway
  import opened BatchRun
  import opened BatchExecutor
  import opened BatchProperties

  const MaxBatchUpdates: int := 100
  const IdRequired: string := "Expense ID is required"
  const SomeErrors: string := "Batch update completed with some errors"
  const AllUpdated: string := "All expenses updated successfully"
  const JobCreateFailed: string := "Failed to create batch job"
  const UpdateJobCreated: string := "Batch update job created successfully"

  // ---------------------------------------------------------------------
  // The request gates of both batch updates
  // ---------------------------------------------------------------------

  /** The gates both batch updates pass before touching the store: a user,
      a body that binds to a list of items (None when binding fails), and
      between 1 and 100 items. */
  function UpdateGate(userID: int, body: Option<seq<BatchUpdateItem>>): (r: Result<seq<BatchUpdateItem>, Rejection>)
    ensures r.Success? <==> userID != 0 && body.Some? && 1 <= |body.value| <= MaxBatchUpdates
    ensures r.Success? ==> r.value == body.value
    ensures userID == 0 ==> r == Failure(NoUser)
  {
    if userID == 0 then Failure(NoUser)
    else if body.None? then Failure(BadInput("Invalid request body"))
    else if |body.value| == 0 then Failure(BadInput("No updates provided"))
    else if |body.value| > MaxBatchUpdates then Failure(BadInput("Batch size too large. Maximum 100 updates allowed"))
    else Success(body.value)
  }

  // ---------------------------------------------------------------------
  // BatchUpdateExpenses: the synchronous loop
  // ---------------------------------------------------------------------

  /** The verdict on item i of a synchronous batch: an item without an
      expense ID fails before the store is asked; otherwise the store's
      answer decides, as in the background executor. */
  function SyncVerdict(i: int, item: BatchUpdateItem, o: UpdateOutcome): Verdict {
    if item.expenseID == 0 then FailedWith(BatchUpdateResultItem(i, item.expenseID, IdRequired, false))
    else UpdateVerdict(i, item, o)
  }

  function SyncVerdicts(items: seq<BatchUpdateItem>, outs: seq<UpdateOutcome>): seq<Verdict>
    requires |items| == |outs|
  {
    seq(|items|, i requires 0 <= i < |items| => SyncVerdict(i, items[i], outs[i]))
  }

  /** The store calls for one item: none without an expense ID, the
      existence check, then the update for a found expense. */
  function SyncItemCalls(userID: int, item: BatchUpdateItem, o: UpdateOutcome): seq<Call> {
    if item.expenseID == 0 then []
    else if o == NotFound then [ExpenseExistsCall(userID, item.expenseID)]
    else [ExpenseExistsCall(userID, item.expenseID), UpdateExpenseCall(userID, item.expenseID, UpdateRequestOf(item))]
  }

  function SyncLoopCalls(userID: int, items: seq<BatchUpdateItem>, outs: seq<UpdateOutcome>): seq<Call>
    requires |items| == |outs|
    decreases |items|
  {
    if |items| == 0 then []
    else SyncLoopCalls(userID, items[..|items| - 1], outs[..|outs| - 1])
         + SyncItemCalls(userID, items[|items| - 1], outs[|outs| - 1])
  }

  /** The answer of a synchronous batch whose items got the store answers `outs`. */
  function SyncAnswer(items: seq<BatchUpdateItem>, outs: seq<UpdateOutcome>): Response<BatchUpdateResponse>
    requires |items| == |outs|
  {
    var t := TallyOf(SyncVerdicts(items, outs));
    var data := BatchUpdateResponse(t.results, |items|, t.successCount, t.failCount);
    if t.failCount > 0 then DataResponse(Suc200, SomeErrors, Some(data), StatusMultiStatus)
    else DataResponse(Suc200, AllUpdated, Some(data), StatusOK)
  }

  lemma SyncLoopStep(userID: int, items: seq<BatchUpdateItem>, outs: seq<UpdateOutcome>, o: UpdateOutcome)
    requires |outs| < |items|
    ensures var i := |outs|;
            SyncLoopCalls(userID, items[..i + 1], outs + [o])
            == SyncLoopCalls(userID, items[..i], outs) + SyncItemCalls(userID, items[i], o)
    ensures var i := |outs|;
            TallyOf(SyncVerdicts(items[..i + 1], outs + [o]))
            == Record(TallyOf(SyncVerdicts(items[..i], outs)), SyncVerdict(i, items[i], o))
  {
    var i := |outs|;
    assert items[..i + 1][..i] == items[..i];
    assert (outs + [o])[..i] == outs;
    var vs := SyncVerdicts(items[..i + 1], outs + [o]);
    assert vs[..i] == SyncVerdicts(items[..i], outs);
  }

  /** One turn of the synchronous loop keeps both loop invariants. */
  lemma SyncStep(userID: int, items: seq<BatchUpdateItem>, outs: seq<UpdateOutcome>, o: UpdateOutcome,
                 tally: Tally, next: Tally, prefix: seq<Call>, before: seq<Call>, after: seq<Call>)
    requires |outs| < |items|
    requires tally == TallyOf(SyncVerdicts(items[..|outs|], outs))
    requires next == Record(tally, SyncVerdict(|outs|, items[|outs|], o))
    requires before == prefix + SyncLoopCalls(userID, items[..|outs|], outs)
    requires after == before + SyncItemCalls(userID, items[|outs|], o)
    ensures next == TallyOf(SyncVerdicts(items[..|outs| + 1], outs + [o]))
    ensures after == prefix + SyncLoopCalls(userID, items[..|outs| + 1], outs + [o])
  {
    SyncLoopStep(userID, items, outs, o);
    AppendAssoc(prefix, SyncLoopCalls(userID, items[..|outs|], outs), SyncItemCalls(userID, items[|outs|], o));
  }

  /** The body of the synchronous loop for item i; `o` is the store's
      answer (NotFound, unused, for an item without an expense ID). */
  method SyncUpdateItem(db: Repository, userID: int, i: nat, update: BatchUpdateItem,
                        successCount: nat, failCount: nat, results: seq<BatchUpdateResultItem>)
    returns (successes: nat, failures: nat, records: seq<BatchUpdateResultItem>, ghost o: UpdateOutcome)
    modifies db
    ensures Tally(successes, failures, records) == Record(Tally(successCount, failCount, results), SyncVerdict(i, update, o))
    ensures db.calls == old(db.calls) + SyncItemCalls(userID, update, o)
  {
    successes, failures, records := successCount, failCount, results;
    o := NotFound;
    if update.expenseID == 0 {
      failures := failures + 1;
      records := records + [BatchUpdateResultItem(i, update.expenseID, IdRequired, false)];
      return;
    }

    var found := db.ExpenseExists(userID, update.expenseID);
    if !found {
      failures := failures + 1;
      records := records + [BatchUpdateResultItem(i, update.expenseID, ExpenseNotFound, false)];
      return;
    }

    var r := db.UpdateExpense(userID, update.expenseID, UpdateRequestOf(update));
    if r.Failure? {
      failures := failures + 1;
      records := records + [BatchUpdateResultItem(i, update.expenseID, UpdateFailed, false)];
      o := UpdateError;
    } else {
      successes := successes + 1;
      o := Updated;
    }
  }

  /** BatchUpdateExpenses: a rejected request touches nothing; an accepted
      one makes exactly the calls of SyncLoopCalls and answers SyncAnswer,
      for the store's answers `outs`. */
  method BatchUpdateExpenses(db: Repository, userID: int, body: Option<seq<BatchUpdateItem>>)
    returns (resp: Response<BatchUpdateResponse>, ghost outs: seq<UpdateOutcome>)
    modifies db
    ensures UpdateGate(userID, body).Failure? ==>
              resp == UpdateGate(userID, body).error.Answer() && db.calls == old(db.calls)
    ensures UpdateGate(userID, body).Success? ==>
              |outs| == |body.value| && resp == SyncAnswer(body.value, outs)
              && db.calls == old(db.calls) + SyncLoopCalls(userID, body.value, outs)
  {
    outs := [];
    var gate := UpdateGate(userID, body);
    if gate.Failure? {
      resp := gate.error.Answer();
      return;
    }
    var updates := gate.value;
    ghost var prefix := db.calls;

    var results: seq<BatchUpdateResultItem> := [];
    var successCount: nat := 0;
    var failCount: nat := 0;

    for i := 0 to |updates|
      invariant |outs| == i
      invariant Tally(successCount, failCount, results) == TallyOf(SyncVerdicts(updates[..i], outs))
      invariant db.calls == prefix + SyncLoopCalls(userID, updates[..i], outs)
    {
      ghost var before := db.calls;
      ghost var tally := Tally(successCount, failCount, results);
      ghost var o;
      successCount, failCount, results, o :=
        SyncUpdateItem(db, userID, i, updates[i], successCount, failCount, results);
      SyncStep(userID, updates, outs, o, tally, Tally(successCount, failCount, results), prefix, before, db.calls);
      outs := outs + [o];
    }

    assert updates[..|updates|] == updates;
    var response := BatchUpdateResponse(results, |updates|, successCount, failCount);
    if failCount > 0 {
      resp := DataResponse(Suc200, SomeErrors, Some(response), StatusMultiStatus);
    } else {
      resp := DataResponse(Suc200, AllUpdated, Some(response), StatusOK);
    }
  }

  // ---------------------------------------------------------------------
  // Properties of the synchronous batch update
  // ---------------------------------------------------------------------

  /** The answer counts every item once and lists only the failures; it is
      207 exactly when some item failed and 200 exactly when every item had
      an ID, was found and was updated. */
  lemma SyncAnswerFacts(items: seq<BatchUpdateItem>, outs: seq<UpdateOutcome>)
    requires |items| == |outs|
    ensures var resp := SyncAnswer(items, outs);
            resp.DataResponse? && resp.code == Suc200 && resp.data.Some?
            && resp.data.value.total == |items|
            && resp.data.value.successful + resp.data.value.failed == |items|
            && |resp.data.value.results| == resp.data.value.failed
            && (resp.status == StatusMultiStatus <==> resp.data.value.failed > 0)
            && (resp.status == StatusOK <==>
                  forall i :: 0 <= i < |items| ==> items[i].expenseID != 0 && outs[i] == Updated)
  {
    var vs := SyncVerdicts(items, outs);
    TallyCounts(vs);
    NoneFailedIff(vs);
    assert forall i :: 0 <= i < |items| ==> (vs[i] == Succeeded <==> items[i].expenseID != 0 && outs[i] == Updated);
  }

  /** The result records are the failed items, in input order, each with
      the message of the first check it failed: a missing ID, then a
      missing expense, then a failed update. */
  lemma SyncResults(items: seq<BatchUpdateItem>, outs: seq<UpdateOutcome>)
    requires |items| == |outs|
    ensures var r := SyncAnswer(items, outs).data.value.results;
            (forall k :: 0 <= k < |r| ==>
               var i := r[k].index;
               0 <= i < |items| && !r[k].success && r[k].expenseID == items[i].expenseID
               && (r[k].message == IdRequired <==> items[i].expenseID == 0)
               && (r[k].message == ExpenseNotFound <==> items[i].expenseID != 0 && outs[i] == NotFound)
               && (r[k].message == UpdateFailed <==> items[i].expenseID != 0 && outs[i] == UpdateError))
            && (forall j, k :: 0 <= j < k < |r| ==> r[j].index < r[k].index)
            && (forall i :: 0 <= i < |items| && !(items[i].expenseID != 0 && outs[i] == Updated) ==>
                  exists k :: 0 <= k < |r| && r[k].index == i)
  {
    var vs := SyncVerdicts(items, outs);
    assert IndexedVerdicts(vs);
    TallyResults(vs);
    var r := TallyOf(vs).results;
    forall i | 0 <= i < |items| && !(items[i].expenseID != 0 && outs[i] == Updated)
      ensures exists k :: 0 <= k < |r| && r[k].index == i
    {
      assert vs[i].FailedWith? && vs[i].record in r;
      var k :| 0 <= k < |r| && r[k] == vs[i].record;
      assert r[k].index == i;
    }
  }

  /** Whether each item carries an expense ID. */
  function HasID(items: seq<BatchUpdateItem>): seq<bool> {
    seq(|items|, i requires 0 <= i < |items| => items[i].expenseID != 0)
  }

  /** Whether each item reaches the update call: it has an ID and was found. */
  function Reached(items: seq<BatchUpdateItem>, outs: seq<UpdateOutcome>): seq<bool>
    requires |items| == |outs|
  {
    seq(|items|, i requires 0 <= i < |items| => items[i].expenseID != 0 && outs[i] != NotFound)
  }

  lemma SyncItemStoreCalls(userID: int, item: BatchUpdateItem, o: UpdateOutcome)
    ensures Only(SyncItemCalls(userID, item, o), IsExistsCall)
            == (if item.expenseID != 0 then [ExpenseExistsCall(userID, item.expenseID)] else [])
    ensures Only(SyncItemCalls(userID, item, o), IsUpdateCall)
            == (if item.expenseID != 0 && o != NotFound
                then [UpdateExpenseCall(userID, item.expenseID, UpdateRequestOf(item))] else [])
  {
    var e := ExpenseExistsCall(userID, item.expenseID);
    var u := UpdateExpenseCall(userID, item.expenseID, UpdateRequestOf(item));
    if item.expenseID != 0 {
      OnlyOfOne(e, IsExistsCall);
      OnlyOfOne(e, IsUpdateCall);
      if o != NotFound {
        OnlyOfTwo(e, u, IsExistsCall);
        OnlyOfTwo(e, u, IsUpdateCall);
        OnlyOfOne(u, IsExistsCall);
        OnlyOfOne(u, IsUpdateCall);
      }
    }
  }

  lemma SyncLoopSplit(userID: int, items: seq<BatchUpdateItem>, outs: seq<UpdateOutcome>)
    requires |items| == |outs| > 0
    ensures var n := |items| - 1;
            SyncLoopCalls(userID, items, outs)
            == SyncLoopCalls(userID, items[..n], outs[..n]) + SyncItemCalls(userID, items[n], outs[n])
  {
  }

  /** The exists-call fact for one more item, with or without an ID. */
  lemma CheckedCallsStep(userID: int, items: seq<BatchUpdateItem>, p: seq<BatchUpdateItem>, has: bool,
                         sel0: seq<nat>, sel: seq<nat>, r0: seq<Call>, r: seq<Call>)
    requires |items| > 0 && p == items[..|items| - 1]
    requires |r0| == |sel0|
    requires forall k :: 0 <= k < |sel0| ==> sel0[k] < |p| && r0[k] == ExpenseExistsCall(userID, p[sel0[k]].expenseID)
    requires sel == sel0 + (if has then [|items| - 1] else [])
    requires r == r0 + (if has then [ExpenseExistsCall(userID, items[|items| - 1].expenseID)] else [])
    ensures |r| == |sel|
    ensures forall k :: 0 <= k < |sel| ==> sel[k] < |items| && r[k] == ExpenseExistsCall(userID, items[sel[k]].expenseID)
  {
    forall k | 0 <= k < |sel|
      ensures sel[k] < |items| && r[k] == ExpenseExistsCall(userID, items[sel[k]].expenseID)
    {
      if k < |sel0| {
        assert sel[k] == sel0[k] && r[k] == r0[k] && p[sel0[k]] == items[sel0[k]];
      }
    }
  }

  /** The positions with an ID grow by the last item when it has one. */
  lemma HasIDStep(items: seq<BatchUpdateItem>)
    requires |items| > 0
    ensures var n := |items| - 1;
            Selected(HasID(items)) == Selected(HasID(items[..n])) + (if items[n].expenseID != 0 then [n] else [])
  {
    var h := HasID(items);
    assert h[..|items| - 1] == HasID(items[..|items| - 1]);
    SelectedStep(h);
  }

  /** The positions that reach the update grow by the last item when it does. */
  lemma ReachedStep(items: seq<BatchUpdateItem>, outs: seq<UpdateOutcome>)
    requires |items| == |outs| > 0
    ensures var n := |items| - 1;
            Selected(Reached(items, outs))
            == Selected(Reached(items[..n], outs[..n])) + (if items[n].expenseID != 0 && outs[n] != NotFound then [n] else [])
  {
    var w := Reached(items, outs);
    assert w[..|items| - 1] == Reached(items[..|items| - 1], outs[..|items| - 1]);
    SelectedStep(w);
  }

  /** The store calls of the loop grow by those of the last item. */
  lemma SyncStoreCallsStep(userID: int, item: BatchUpdateItem, o: UpdateOutcome, all: seq<Call>, loop: seq<Call>)
    requires all == loop + SyncItemCalls(userID, item, o)
    ensures Only(all, IsExistsCall)
            == Only(loop, IsExistsCall) + (if item.expenseID != 0 then [ExpenseExistsCall(userID, item.expenseID)] else [])
    ensures Only(all, IsUpdateCall)
            == Only(loop, IsUpdateCall)
               + (if item.expenseID != 0 && o != NotFound then [UpdateExpenseCall(userID, item.expenseID, UpdateRequestOf(item))] else [])
  {
    OnlyOfSum(all, loop, SyncItemCalls(userID, item, o), IsExistsCall);
    OnlyOfSum(all, loop, SyncItemCalls(userID, item, o), IsUpdateCall);
    SyncItemStoreCalls(userID, item, o);
  }

  /** The exists-call fact, carried from the first n items to all of them. */
  lemma ExistsCallsExtend(userID: int, items: seq<BatchUpdateItem>, outs: seq<UpdateOutcome>,
                          all: seq<Call>, loop: seq<Call>, last: seq<Call>)
    requires |items| == |outs| > 0
    requires loop == SyncLoopCalls(userID, items[..|items| - 1], outs[..|items| - 1])
    requires last == SyncItemCalls(userID, items[|items| - 1], outs[|items| - 1])
    requires all == loop + last
    requires var r := Only(loop, IsExistsCall);
             var sel := Selected(HasID(items[..|items| - 1]));
             |r| == |sel|
             && forall k :: 0 <= k < |sel| ==> sel[k] < |items| - 1 && r[k] == ExpenseExistsCall(userID, items[..|items| - 1][sel[k]].expenseID)
    ensures var r := Only(all, IsExistsCall);
            var sel := Selected(HasID(items));
            |r| == |sel|
            && forall k :: 0 <= k < |sel| ==> sel[k] < |items| && r[k] == ExpenseExistsCall(userID, items[sel[k]].expenseID)
  {
    var n := |items| - 1;
    SyncStoreCallsStep(userID, items[n], outs[n], all, loop);
    HasIDStep(items);
    CheckedCallsStep(userID, items, items[..n], items[n].expenseID != 0, Selected(HasID(items[..n])), Selected(HasID(items)),
                     Only(loop, IsExistsCall), Only(all, IsExistsCall));
  }

  lemma {:induction false} SyncLoopExistsCalls(userID: int, items: seq<BatchUpdateItem>, outs: seq<UpdateOutcome>)
    requires |items| == |outs|
    ensures var r := Only(SyncLoopCalls(userID, items, outs), IsExistsCall);
            var sel := Selected(HasID(items));
            |r| == |sel|
            && forall k :: 0 <= k < |sel| ==> sel[k] < |items| && r[k] == ExpenseExistsCall(userID, items[sel[k]].expenseID)
    decreases |items|
  {
    if |items| > 0 {
      var n := |items| - 1;
      SyncLoopExistsCalls(userID, items[..n], outs[..n]);
      SyncLoopSplit(userID, items, outs);
      ExistsCallsExtend(userID, items, outs, SyncLoopCalls(userID, items, outs),
                        SyncLoopCalls(userID, items[..n], outs[..n]), SyncItemCalls(userID, items[n], outs[n]));
    }
  }

  /** The update-call fact, carried from the first n items to all of them. */
  lemma UpdateCallsExtend(userID: int, items: seq<BatchUpdateItem>, outs: seq<UpdateOutcome>,
                          all: seq<Call>, loop: seq<Call>, last: seq<Call>)
    requires |items| == |outs| > 0
    requires last == SyncItemCalls(userID, items[|items| - 1], outs[|items| - 1])
    requires all == loop + last
    requires var r := Only(loop, IsUpdateCall);
             var p := items[..|items| - 1];
             var sel := Selected(Reached(p, outs[..|items| - 1]));
             |r| == |sel|
             && forall k :: 0 <= k < |sel| ==>
                  sel[k] < |p| && r[k] == UpdateExpenseCall(userID, p[sel[k]].expenseID, UpdateRequestOf(p[sel[k]]))
    ensures var r := Only(all, IsUpdateCall);
            var sel := Selected(Reached(items, outs));
            |r| == |sel|
            && forall k :: 0 <= k < |sel| ==>
                 sel[k] < |items| && r[k] == UpdateExpenseCall(userID, items[sel[k]].expenseID, UpdateRequestOf(items[sel[k]]))
  {
    var n := |items| - 1;
    SyncStoreCallsStep(userID, items[n], outs[n], all, loop);
    ReachedStep(items, outs);
    UpdateCallsStep(userID, items, items[..n], items[n].expenseID != 0 && outs[n] != NotFound,
                    Selected(Reached(items[..n], outs[..n])), Selected(Reached(items, outs)),
                    Only(loop, IsUpdateCall), Only(all, IsUpdateCall));
  }

  lemma {:induction false} SyncLoopUpdateCalls(userID: int, items: seq<BatchUpdateItem>, outs: seq<UpdateOutcome>)
    requires |items| == |outs|
    ensures var r := Only(SyncLoopCalls(userID, items, outs), IsUpdateCall);
            var sel := Selected(Reached(items, outs));
            |r| == |sel|
            && forall k :: 0 <= k < |sel| ==>
                 sel[k] < |items| && r[k] == UpdateExpenseCall(userID, items[sel[k]].expenseID, UpdateRequestOf(items[sel[k]]))
    decreases |items|
  {
    if |items| > 0 {
      var n := |items| - 1;
      SyncLoopUpdateCalls(userID, items[..n], outs[..n]);
      SyncLoopSplit(userID, items, outs);
      UpdateCallsExtend(userID, items, outs, SyncLoopCalls(userID, items, outs),
                        SyncLoopCalls(userID, items[..n], outs[..n]), SyncItemCalls(userID, items[n], outs[n]));
    }
  }

  /** The store is asked about exactly the items that carry an expense ID,
      in input order: an item without one skips the existence check. */
  lemma SyncExistsCalls(userID: int, items: seq<BatchUpdateItem>, outs: seq<UpdateOutcome>)
    requires |items| == |outs|
    ensures var r := Only(SyncLoopCalls(userID, items, outs), IsExistsCall);
            var sel := Selected(HasID(items));
            |r| == |sel|
            && (forall k :: 0 <= k < |sel| ==> sel[k] < |items| && r[k] == ExpenseExistsCall(userID, items[sel[k]].expenseID))
            && (forall i :: 0 <= i < |items| ==> (items[i].expenseID != 0 <==> i in sel))
  {
    SyncLoopExistsCalls(userID, items, outs);
    SelectedFacts(HasID(items));
  }

  /** An update, built from the item, is sent for exactly the items that
      have an ID and were found, in input order. */
  lemma SyncUpdateCalls(userID: int, items: seq<BatchUpdateItem>, outs: seq<UpdateOutcome>)
    requires |items| == |outs|
    ensures var r := Only(SyncLoopCalls(userID, items, outs), IsUpdateCall);
            var sel := Selected(Reached(items, outs));
            |r| == |sel|
            && (forall k :: 0 <= k < |sel| ==>
                  sel[k] < |items| && r[k] == UpdateExpenseCall(userID, items[sel[k]].expenseID, UpdateRequestOf(items[sel[k]])))
            && (forall i :: 0 <= i < |items| ==> (items[i].expenseID != 0 && outs[i] != NotFound <==> i in sel))
  {
    SyncLoopUpdateCalls(userID, items, outs);
    SelectedFacts(Reached(items, outs));
  }

  // ---------------------------------------------------------------------
  // BatchUpdateExpensesAsync and the job envelope
  // ---------------------------------------------------------------------

  /** The answer once the job store has answered CreateBatchJob: 500 on its
      error, otherwise 202 with the new job, its item count and "pending". */
  function JobAnswer(created: Result<int, string>, total: int, message: string): (r: Response<BatchJobCreatedResponse>)
    ensures r.status == StatusAccepted <==> created.Success?
    ensures r.status == StatusAccepted ==>
              r.DataResponse? && r.data == Some(BatchJobCreatedResponse(created.value, total, "pending")) && r.message == message
    ensures r.status != StatusAccepted ==> r == ErrorResponse(Err500, JobCreateFailed, StatusInternalServerError)
  {
    match created
    case Failure(_) => ServerError(JobCreateFailed)
    case Success(jobID) =>
      DataResponse(Suc202, message, Some(BatchJobCreatedResponse(jobID, total, Pending.Name())), StatusAccepted)
  }

  /** BatchUpdateExpensesAsync: after the gates, one job of the update type
      sized to the items; when it exists, the background run of
      ProcessBatchUpdate on that job and those items follows the answer. */
  method BatchUpdateExpensesAsync(db: Repository, userID: int, body: Option<seq<BatchUpdateItem>>)
    returns (resp: Response<BatchJobCreatedResponse>, ghost created: Result<int, string>, ghost outs: seq<UpdateOutcome>)
    modifies db
    ensures UpdateGate(userID, body).Failure? ==>
              resp == UpdateGate(userID, body).error.Answer() && db.calls == old(db.calls)
    ensures UpdateGate(userID, body).Success? ==>
              var items := body.value;
              resp == JobAnswer(created, |items|, UpdateJobCreated)
              && (created.Success? ==> |outs| == |items|)
              && db.calls == old(db.calls) + [CreateBatchJobCall(userID, ExpenseBatchUpdate, |items|)]
                             + (if created.Success? then UpdateRunCalls(created.value, userID, items, outs) else [])
  {
    created, outs := Failure(JobCreateFailed), [];
    var gate := UpdateGate(userID, body);
    if gate.Failure? {
      resp := gate.error.Answer();
      return;
    }
    var updates := gate.value;

    var r := db.CreateBatchJob(userID, ExpenseBatchUpdate, |updates|);
    created := r;
    if r.Failure? {
      resp := ServerError(JobCreateFailed);
      return;
    }
    resp := DataResponse(Suc202, UpdateJobCreated,
                         Some(BatchJobCreatedResponse(r.value, |updates|, Pending.Name())), StatusAccepted);
    outs := ProcessBatchUpdate(db, r.value, userID, updates);
  }

  // ---------------------------------------------------------------------
  // BatchUploadExpensesFromCSV
  // ---------------------------------------------------------------------

  const MaxCsvRows: int := 1000
  const ExpectedHeaders: seq<string> := ["title", "amount", "categoryid", "date", "notes"]
  /** fmt's %v rendering of the expected header list. */
  const HeaderCountMessage: string := "Invalid CSV header count. Expected headers: [title amount categoryid date notes]"
  const CsvJobCreated: string := "CSV batch upload job created successfully"

  /** What reached the handler: a missing form file, a file that could not be
      opened, one that encoding/csv rejected, or its records. */
  datatype Upload = NoFile | OpenFailed | Malformed | Records(records: seq<seq<string>>)

  predicate HeaderMatches(header: string, expected: string) {
    ToLower(TrimSpace(header)) == expected
  }

  function HeaderMessage(column: int, expected: string, got: string): string {
    "Invalid CSV header at column " + Itoa(column) + ": expected '" + expected + "', got '" + got + "'"
  }

  /** The error for the first of the first n columns whose header does not
      match, if any. */
  function HeaderMismatch(headers: seq<string>, n: nat): Option<string>
    requires n <= |ExpectedHeaders| == |headers|
  {
    if n == 0 then None
    else if HeaderMismatch(headers, n - 1).Some? then HeaderMismatch(headers, n - 1)
    else if HeaderMatches(headers[n - 1], ExpectedHeaders[n - 1]) then None
    else Some(HeaderMessage(n, ExpectedHeaders[n - 1], headers[n - 1]))
  }

  /** The header row's error: a wrong count, then the first wrong column. */
  function HeaderCheck(headers: seq<string>): Option<string> {
    if |headers| != |ExpectedHeaders| then Some(HeaderCountMessage)
    else HeaderMismatch(headers, |ExpectedHeaders|)
  }

  /** Once a mismatch is found, later columns do not change the error. */
  lemma {:induction false} HeaderMismatchKept(headers: seq<string>, m: nat, n: nat)
    requires m <= n <= |ExpectedHeaders| == |headers|
    requires HeaderMismatch(headers, m).Some?
    ensures HeaderMismatch(headers, n) == HeaderMismatch(headers, m)
    decreases n
  {
    if n > m {
      HeaderMismatchKept(headers, m, n - 1);
    }
  }

  /** The header loop, which stops at the first column that does not match. */
  method CheckHeaders(headers: seq<string>) returns (err: Option<string>)
    ensures err == HeaderCheck(headers)
  {
    if |headers| != |ExpectedHeaders| {
      return Some(HeaderCountMessage);
    }
    for i := 0 to |ExpectedHeaders|
      invariant HeaderMismatch(headers, i) == None
    {
      if ToLower(TrimSpace(headers[i])) != ExpectedHeaders[i] {
        err := Some(HeaderMessage(i + 1, ExpectedHeaders[i], headers[i]));
        HeaderMismatchKept(headers, i + 1, |ExpectedHeaders|);
        return;
      }
    }
    return None;
  }

  /** Data row i (line i + 2 of the file) as an expense row, or the error
      that fails the whole request. */
  function ParseRow(i: int, row: seq<string>, parseAmount: string -> Option<real>): Result<CSVExpenseRow, string> {
    if |row| != |ExpectedHeaders| then Failure("Row " + Itoa(i + 2) + " has mismatched columns")
    else
      var amount := parseAmount(TrimSpace(row[1]));
      var category := TrimSpace(row[2]);
      var notes := TrimSpace(row[4]);
      if amount.None? then Failure("Invalid amount at row " + Itoa(i + 2))
      else if category != "" && Atoi(category).None? then Failure("Invalid category ID at row " + Itoa(i + 2))
      else Success(CSVExpenseRow(TrimSpace(row[0]), amount.value,
                                 if category == "" then None else Atoi(category),
                                 TrimSpace(row[3]),
                                 if notes == "" then None else Some(notes)))
  }

  /** The data rows in order, or the error of the first row that fails. */
  function ParsedRows(rows: seq<seq<string>>, parseAmount: string -> Option<real>): Result<seq<CSVExpenseRow>, string>
    decreases |rows|
  {
    if |rows| == 0 then Success([])
    else
      var n := |rows| - 1;
      var done := ParsedRows(rows[..n], parseAmount);
      if done.Failure? then done
      else
        var row := ParseRow(n, rows[n], parseAmount);
        if row.Failure? then Failure(row.error) else Success(done.value + [row.value])
  }

  /** A failing prefix fails the whole file with the same error. */
  lemma {:induction false} ParsedRowsFailureKept(rows: seq<seq<string>>, m: nat, parseAmount: string -> Option<real>)
    requires m <= |rows|
    requires ParsedRows(rows[..m], parseAmount).Failure?
    ensures ParsedRows(rows, parseAmount) == ParsedRows(rows[..m], parseAmount)
    decreases |rows|
  {
    if m < |rows| {
      var p := rows[..|rows| - 1];
      assert p[..m] == rows[..m];
      ParsedRowsFailureKept(p, m, parseAmount);
    } else {
      assert rows[..m] == rows;
    }
  }

  /** The row loop, which appends each parsed row and stops at the first error. */
  method ParseRows(rows: seq<seq<string>>, parseAmount: string -> Option<real>) returns (r: Result<seq<CSVExpenseRow>, string>)
    ensures r == ParsedRows(rows, parseAmount)
  {
    var expenses: seq<CSVExpenseRow> := [];
    for i := 0 to |rows|
      invariant ParsedRows(rows[..i], parseAmount) == Success(expenses)
    {
      var row := ParseRow(i, rows[i], parseAmount);
      assert rows[..i + 1][..i] == rows[..i];
      if row.Failure? {
        ParsedRowsFailureKept(rows, i + 1, parseAmount);
        return Failure(row.error);
      }
      expenses := expenses + [row.value];
    }
    assert rows[..|rows|] == rows;
    return Success(expenses);
  }

  /** Everything the upload checks before it creates a job: the user, the
      file, at least a header and one row, the header, every row, and the
      row cap. */
  function UploadGate(userID: int, upload: Upload, parseAmount: string -> Option<real>): Result<seq<CSVExpenseRow>, Rejection> {
    if userID == 0 then Failure(NoUser)
    else match upload
      case NoFile => Failure(BadInput("CSV file is required"))
      case OpenFailed => Failure(Rejection(Err500, "Failed to open CSV file", StatusInternalServerError))
      case Malformed => Failure(BadInput("Invalid CSV format"))
      case Records(records) =>
        if |records| < 2 then Failure(BadInput("CSV must contain header and at least one row"))
        else if HeaderCheck(records[0]).Some? then Failure(BadInput(HeaderCheck(records[0]).value))
        else
          var parsed := ParsedRows(records[1..], parseAmount);
          if parsed.Failure? then Failure(BadInput(parsed.error))
          else if |parsed.value| > MaxCsvRows then Failure(BadInput("Batch too large (max 1000 rows)"))
          else Success(parsed.value)
  }

  /** BatchUploadExpensesFromCSV: a rejected upload touches nothing; an
      accepted one creates one CSV job sized to its rows and, when the job
      exists, the background run of ProcessBatchUpload on those rows
      follows the answer. */
  method BatchUploadExpensesFromCSV(db: Repository, userID: int, upload: Upload, parseAmount: string -> Option<real>)
    returns (resp: Response<BatchJobCreatedResponse>, ghost created: Result<int, string>,
             ghost checks: seq<Option<ValidationError>>, ghost made: seq<bool>)
    modifies db
    ensures UploadGate(userID, upload, parseAmount).Failure? ==>
              resp == UploadGate(userID, upload, parseAmount).error.Answer() && db.calls == old(db.calls)
    ensures UploadGate(userID, upload, parseAmount).Success? ==>
              var rows := UploadGate(userID, upload, parseAmount).value;
              resp == JobAnswer(created, |rows|, CsvJobCreated)
              && (created.Success? ==> |checks| == |made| == |rows|)
              && db.calls == old(db.calls) + [CreateBatchJobCall(userID, ExpenseBatchUploadCsv, |rows|)]
                             + (if created.Success? then UploadRunCalls(created.value, userID, rows, checks, made) else [])
  {
    created, checks, made := Failure(JobCreateFailed), [], [];
    if userID == 0 {
      resp := NoUser.Answer();
      return;
    }
    if upload.NoFile? {
      resp := BadInput("CSV file is required").Answer();
      return;
    }
    if upload.OpenFailed? {
      resp := ServerError("Failed to open CSV file");
      return;
    }
    if upload.Malformed? {
      resp := BadInput("Invalid CSV format").Answer();
      return;
    }
    var records := upload.records;
    if |records| < 2 {
      resp := BadInput("CSV must contain header and at least one row").Answer();
      return;
    }

    var headerError := CheckHeaders(records[0]);
    if headerError.Some? {
      resp := BadInput(headerError.value).Answer();
      return;
    }

    var parsed := ParseRows(records[1..], parseAmount);
    if parsed.Failure? {
      resp := BadInput(parsed.error).Answer();
      return;
    }
    var expenses := parsed.value;
    if |expenses| > MaxCsvRows {
      resp := BadInput("Batch too large (max 1000 rows)").Answer();
      return;
    }

    var r := db.CreateBatchJob(userID, ExpenseBatchUploadCsv, |expenses|);
    created := r;
    if r.Failure? {
      resp := ServerError(JobCreateFailed);
      return;
    }
    resp := DataResponse(Suc202, CsvJobCreated,
                         Some(BatchJobCreatedResponse(r.value, |expenses|, Pending.Name())), StatusAccepted);
    checks, made := ProcessBatchUpload(db, r.value, userID, expenses);
  }

  // ---------------------------------------------------------------------
  // GetBatchJobStatus
  // ---------------------------------------------------------------------

  /** The store calls of a status lookup: none for a rejected request, the
      ownership check, and the read only for a job that exists. */
  function StatusCalls(userID: int, idParam: string, found: bool): (calls: seq<Call>)
    ensures calls == [] <==> userID == 0 || Atoi(idParam).None?
    ensures calls != [] ==> calls[0] == BatchJobExistsCall(userID, Atoi(idParam).value)
    ensures |calls| == 2 <==> userID != 0 && Atoi(idParam).Some? && found
    ensures |calls| == 2 ==> calls[1] == GetBatchJobCall(userID, Atoi(idParam).value)
    ensures |calls| <= 2
  {
    if userID == 0 || Atoi(idParam).None? then []
    else [BatchJobExistsCall(userID, Atoi(idParam).value)]
         + (if found then [GetBatchJobCall(userID, Atoi(idParam).value)] else [])
  }

  function StatusAnswer(userID: int, idParam: string, found: bool, got: Result<BatchJobView, string>): (r: Response<BatchJobView>)
    ensures r.status == StatusUnauthorized <==> userID == 0
    ensures r.status == StatusBadRequest <==> userID != 0 && Atoi(idParam).None?
    ensures r.status == StatusNotFound <==> userID != 0 && Atoi(idParam).Some? && !found
    ensures r.status == StatusInternalServerError <==> userID != 0 && Atoi(idParam).Some? && found && got.Failure?
    ensures r.status == StatusOK <==> userID != 0 && Atoi(idParam).Some? && found && got.Success?
    ensures r.status == StatusOK ==> r.DataResponse? && r.data == Some(got.value)
  {
    if userID == 0 then NoUser.Answer()
    else if Atoi(idParam).None? then BadInput("Invalid job ID").Answer()
    else if !found then Http.NotFound("Job not found")
    else if got.Failure? then ServerError("Failed to retrieve job status")
    else DataResponse(Suc200, "Job status retrieved successfully", Some(got.value), StatusOK)
  }

  /** GetBatchJobStatus, for the store's answers `found` and `got`. */
  method GetBatchJobStatus(db: Repository, userID: int, idParam: string)
    returns (resp: Response<BatchJobView>, ghost found: bool, ghost got: Result<BatchJobView, string>)
    modifies db
    ensures resp == StatusAnswer(userID, idParam, found, got)
    ensures db.calls == old(db.calls) + StatusCalls(userID, idParam, found)
  {
    found, got := false, Failure("");
    if userID == 0 {
      resp := NoUser.Answer();
      return;
    }
    var jobID := Atoi(idParam);
    if jobID.None? {
      resp := BadInput("Invalid job ID").Answer();
      return;
    }

    var owned := db.BatchJobExists(userID, jobID.value);
    found := owned;
    if !owned {
      resp := Http.NotFound("Job not found");
      return;
    }

    var job := db.GetBatchJob(userID, jobID.value);
    got := job;
    if job.Failure? {
      resp := ServerError("Failed to retrieve job status");
      return;
    }
    resp := DataResponse(Suc200, "Job status retrieved successfully", Some(job.value), StatusOK);
  }

  /** A route whose parameter is not called `id` hands the handler an empty
      ID: every signed-in request is then refused as an invalid job ID and
      never reaches the store. */
  lemma StatusWithoutIDParam(userID: int, found: bool, got: Result<BatchJobView, string>)
    requires userID != 0
    ensures StatusAnswer(userID, "", found, got) == BadInput("Invalid job ID").Answer()
    ensures StatusCalls(userID, "", found) == []
  {
  }

  // ---------------------------------------------------------------------
  // Properties of the job-creating endpoints and the CSV ingestion
  // ---------------------------------------------------------------------

  /** The job an asynchronous update creates is sized to its items, and the
      run on it writes the executor's run log: it starts at zero, and its
      last write accounts for all of the job's items and ends with a
      terminal status ("completed" or "failed"). */
  lemma AsyncUpdateRun(userID: int, items: seq<BatchUpdateItem>, jobID: int, outs: seq<UpdateOutcome>)
    requires |items| == |outs|
    ensures var calls := [CreateBatchJobCall(userID, ExpenseBatchUpdate, |items|)] + UpdateRunCalls(jobID, userID, items, outs);
            var log := Snapshots(calls);
            log == RunLog(UpdateVerdicts(items, outs), UpdateWrites(outs))
            && log[0] == StartSnapshot()
            && log[|log| - 1].processed == calls[0].totalItems
            && log[|log| - 1].status != Processing
  {
    var create := CreateBatchJobCall(userID, ExpenseBatchUpdate, |items|);
    var run := UpdateRunCalls(jobID, userID, items, outs);
    SnapshotsOfSum([create] + run, [create], run);
    SnapshotsOfOne(create);
    UpdateRunLog(jobID, userID, items, outs);
  }

  /** The same for a CSV upload and its rows. */
  lemma AsyncUploadRun(userID: int, rows: seq<CSVExpenseRow>, jobID: int,
                       checks: seq<Option<ValidationError>>, made: seq<bool>)
    requires |rows| == |checks| == |made|
    ensures var calls := [CreateBatchJobCall(userID, ExpenseBatchUploadCsv, |rows|)] + UploadRunCalls(jobID, userID, rows, checks, made);
            var log := Snapshots(calls);
            log == RunLog(UploadVerdicts(checks, made), EveryRow(|rows|))
            && log[0] == StartSnapshot()
            && log[|log| - 1].processed == calls[0].totalItems
            && log[|log| - 1].status != Processing
  {
    var create := CreateBatchJobCall(userID, ExpenseBatchUploadCsv, |rows|);
    var run := UploadRunCalls(jobID, userID, rows, checks, made);
    SnapshotsOfSum([create] + run, [create], run);
    SnapshotsOfOne(create);
    UploadRunLog(jobID, userID, rows, checks, made);
  }

  lemma {:induction false} HeaderMismatchFacts(headers: seq<string>, n: nat)
    requires n <= |ExpectedHeaders| == |headers|
    ensures HeaderMismatch(headers, n) == None <==>
              forall j :: 0 <= j < n ==> HeaderMatches(headers[j], ExpectedHeaders[j])
    ensures HeaderMismatch(headers, n).Some? ==>
              exists j :: 0 <= j < n
                          && (forall k :: 0 <= k < j ==> HeaderMatches(headers[k], ExpectedHeaders[k]))
                          && !HeaderMatches(headers[j], ExpectedHeaders[j])
                          && HeaderMismatch(headers, n) == Some(HeaderMessage(j + 1, ExpectedHeaders[j], headers[j]))
    decreases n
  {
    if n > 0 {
      HeaderMismatchFacts(headers, n - 1);
    }
  }

  /** The header row passes exactly when it has the five columns and each
      one, trimmed and lower-cased, is the expected name; otherwise the error
      is the count message or cites the first wrong column, 1-based, with the
      header as it was written. */
  lemma HeaderCheckFacts(headers: seq<string>)
    ensures HeaderCheck(headers) == None <==>
              |headers| == |ExpectedHeaders|
              && forall j :: 0 <= j < |ExpectedHeaders| ==> HeaderMatches(headers[j], ExpectedHeaders[j])
    ensures |headers| != |ExpectedHeaders| ==> HeaderCheck(headers) == Some(HeaderCountMessage)
    ensures |headers| == |ExpectedHeaders| && HeaderCheck(headers).Some? ==>
              exists j :: 0 <= j < |ExpectedHeaders|
                          && (forall k :: 0 <= k < j ==> HeaderMatches(headers[k], ExpectedHeaders[k]))
                          && !HeaderMatches(headers[j], ExpectedHeaders[j])
                          && HeaderCheck(headers) == Some(HeaderMessage(j + 1, ExpectedHeaders[j], headers[j]))
  {
    if |headers| == |ExpectedHeaders| {
      HeaderMismatchFacts(headers, |ExpectedHeaders|);
    }
  }

  /** A data row parses exactly when it has five columns, an amount the
      parser accepts and a category ID that is blank or an integer; the row
      it becomes holds the trimmed title and date, no category for a blank
      one, and no notes for blank notes, the trimmed notes otherwise. */
  lemma ParseRowFacts(i: int, row: seq<string>, parseAmount: string -> Option<real>)
    ensures ParseRow(i, row, parseAmount).Success? <==>
              |row| == |ExpectedHeaders| && parseAmount(TrimSpace(row[1])).Some?
              && (AllSpace(row[2]) || Atoi(TrimSpace(row[2])).Some?)
    ensures ParseRow(i, row, parseAmount).Success? ==>
              var v := ParseRow(i, row, parseAmount).value;
              v.title == TrimSpace(row[0]) && TrimSpace(v.title) == v.title
              && v.amount == parseAmount(TrimSpace(row[1])).value
              && (v.categoryID.None? <==> AllSpace(row[2]))
              && (v.categoryID.Some? ==> Atoi(TrimSpace(row[2])) == v.categoryID && InInt64(v.categoryID.value))
              && v.date == TrimSpace(row[3]) && TrimSpace(v.date) == v.date
              && (v.notes.None? <==> AllSpace(row[4]))
              && (v.notes.Some? ==> v.notes.value == TrimSpace(row[4]) && TrimSpace(v.notes.value) == v.notes.value)
  {
    if |row| == |ExpectedHeaders| {
      TrimSpaceBlankIff(row[2]);
      TrimSpaceBlankIff(row[4]);
      TrimSpaceIdempotent(row[0]);
      TrimSpaceIdempotent(row[3]);
      TrimSpaceIdempotent(row[4]);
    }
  }

  /** A file that parses is a prefix that parses followed by a last row that does. */
  lemma ParsedRowsSplit(rows: seq<seq<string>>, parseAmount: string -> Option<real>)
    requires |rows| > 0 && ParsedRows(rows, parseAmount).Success?
    ensures var n := |rows| - 1;
            ParsedRows(rows[..n], parseAmount).Success? && ParseRow(n, rows[n], parseAmount).Success?
            && ParsedRows(rows, parseAmount).value
               == ParsedRows(rows[..n], parseAmount).value + [ParseRow(n, rows[n], parseAmount).value]
  {
  }

  lemma {:induction false} ParsedRowsOk(rows: seq<seq<string>>, parseAmount: string -> Option<real>)
    requires ParsedRows(rows, parseAmount).Success?
    ensures var out := ParsedRows(rows, parseAmount).value;
            |out| == |rows| && forall i :: 0 <= i < |rows| ==> ParseRow(i, rows[i], parseAmount) == Success(out[i])
    decreases |rows|
  {
    if |rows| > 0 {
      var n := |rows| - 1;
      var p := rows[..n];
      ParsedRowsSplit(rows, parseAmount);
      ParsedRowsOk(p, parseAmount);
      ParsedRowsExtend(rows, parseAmount, ParsedRows(p, parseAmount).value, ParsedRows(rows, parseAmount).value);
    }
  }

  /** The row-by-row fact, carried from the first n rows to all of them. */
  lemma ParsedRowsExtend(rows: seq<seq<string>>, parseAmount: string -> Option<real>,
                         done: seq<CSVExpenseRow>, out: seq<CSVExpenseRow>)
    requires |rows| > 0 && |done| == |rows| - 1
    requires forall i :: 0 <= i < |done| ==> ParseRow(i, rows[..|rows| - 1][i], parseAmount) == Success(done[i])
    requires ParseRow(|rows| - 1, rows[|rows| - 1], parseAmount).Success?
    requires out == done + [ParseRow(|rows| - 1, rows[|rows| - 1], parseAmount).value]
    ensures |out| == |rows| && forall i :: 0 <= i < |rows| ==> ParseRow(i, rows[i], parseAmount) == Success(out[i])
  {
    forall i | 0 <= i < |rows|
      ensures ParseRow(i, rows[i], parseAmount) == Success(out[i])
    {
      if i < |done| {
        assert rows[..|rows| - 1][i] == rows[i] && out[i] == done[i];
      }
    }
  }

  lemma {:induction false} ParsedRowsFirstError(rows: seq<seq<string>>, parseAmount: string -> Option<real>)
    requires ParsedRows(rows, parseAmount).Failure?
    ensures exists j :: 0 <= j < |rows|
                        && (forall i :: 0 <= i < j ==> ParseRow(i, rows[i], parseAmount).Success?)
                        && ParseRow(j, rows[j], parseAmount) == Failure(ParsedRows(rows, parseAmount).error)
    decreases |rows|
  {
    var n := |rows| - 1;
    var p := rows[..n];
    if ParsedRows(p, parseAmount).Failure? {
      ParsedRowsFirstError(p, parseAmount);
      var j :| 0 <= j < |p|
               && (forall i :: 0 <= i < j ==> ParseRow(i, p[i], parseAmount).Success?)
               && ParseRow(j, p[j], parseAmount) == Failure(ParsedRows(p, parseAmount).error);
      assert forall i :: 0 <= i <= j ==> p[i] == rows[i];
    } else {
      ParsedRowsOk(p, parseAmount);
      assert forall i :: 0 <= i < n ==> p[i] == rows[i];
      assert ParseRow(n, rows[n], parseAmount) == Failure(ParsedRows(rows, parseAmount).error);
    }
  }

  /** The rows parse exactly when every row does; then output row k comes
      from data row k; otherwise the error is that of the first failing row. */
  lemma ParsedRowsFacts(rows: seq<seq<string>>, parseAmount: string -> Option<real>)
    ensures ParsedRows(rows, parseAmount).Success? <==>
              forall i :: 0 <= i < |rows| ==> ParseRow(i, rows[i], parseAmount).Success?
    ensures ParsedRows(rows, parseAmount).Success? ==>
              var out := ParsedRows(rows, parseAmount).value;
              |out| == |rows| && forall i :: 0 <= i < |rows| ==> ParseRow(i, rows[i], parseAmount) == Success(out[i])
    ensures ParsedRows(rows, parseAmount).Failure? ==>
              exists j :: 0 <= j < |rows|
                          && (forall i :: 0 <= i < j ==> ParseRow(i, rows[i], parseAmount).Success?)
                          && ParseRow(j, rows[j], parseAmount) == Failure(ParsedRows(rows, parseAmount).error)
  {
    if ParsedRows(rows, parseAmount).Success? {
      ParsedRowsOk(rows, parseAmount);
    } else {
      ParsedRowsFirstError(rows, parseAmount);
    }
  }

  /** An upload with records passes its gates exactly when it has a header
      and at least one row, the header checks out, every row parses and
      there are at most 1000 rows; the rows it hands on are the data rows,
      parsed, in order. */
  lemma UploadGateRecords(userID: int, records: seq<seq<string>>, parseAmount: string -> Option<real>)
    requires userID != 0
    ensures var g := UploadGate(userID, Records(records), parseAmount);
            g.Success? <==>
              |records| >= 2 && HeaderCheck(records[0]) == None
              && (forall i :: 1 <= i < |records| ==> ParseRow(i - 1, records[i], parseAmount).Success?)
              && |records| - 1 <= MaxCsvRows
    ensures var g := UploadGate(userID, Records(records), parseAmount);
            g.Success? ==>
              |g.value| == |records| - 1 && 1 <= |g.value| <= MaxCsvRows
              && forall i :: 1 <= i < |records| ==> ParseRow(i - 1, records[i], parseAmount) == Success(g.value[i - 1])
  {
    if |records| >= 2 {
      var data := records[1..];
      ParsedRowsFacts(data, parseAmount);
      assert forall i :: 1 <= i < |records| ==> records[i] == data[i - 1];
    }
  }
}
