/** What the executors' store calls amount to: the snapshots they write are
    the run log of BatchRun over the items' verdicts, and the expense calls
    they make are one per item (or per valid row), in order. */
module BatchProperties {
  import opened Wrappers
  import opened ExpenseModel
  import opened ExpenseValidation
  import opened Gateway
  import opened BatchRun
  import opened BatchExecutor

  // ---------------------------------------------------------------------
  // ProcessBatchUpdate
  // ---------------------------------------------------------------------

  /** A found item writes exactly one progress snapshot; a missing one none. */
  lemma UpdateItemSnapshots(jobID: int, userID: int, i: int, item: BatchUpdateItem, o: UpdateOutcome, after: Tally)
    ensures Snapshots(UpdateItemCalls(jobID, userID, i, item, o, after))
            == (if o == NotFound then [] else [ProgressSnapshot(i + 1, after)])
  {
    var e := ExpenseExistsCall(userID, item.expenseID);
    SnapshotsOfOne(e);
    if o != NotFound {
      var u := UpdateExpenseCall(userID, item.expenseID, UpdateRequestOf(item));
      var w := UpdateBatchJobCall(jobID, ProgressSnapshot(i + 1, after));
      SnapshotsOfThree(e, u, w);
      SnapshotsOfOne(u);
      SnapshotsOfOne(w);
    }
  }

  lemma UpdateLoopSplit(jobID: int, userID: int, items: seq<BatchUpdateItem>, outs: seq<UpdateOutcome>)
    requires |items| == |outs| > 0
    ensures var n := |items| - 1;
            UpdateLoopCalls(jobID, userID, items, outs)
            == UpdateLoopCalls(jobID, userID, items[..n], outs[..n])
               + UpdateItemCalls(jobID, userID, n, items[n], outs[n], TallyOf(UpdateVerdicts(items, outs)))
  {
  }

  lemma UpdateVerdictsPrefix(items: seq<BatchUpdateItem>, outs: seq<UpdateOutcome>, n: nat)
    requires n <= |items| == |outs|
    ensures UpdateVerdicts(items, outs)[..n] == UpdateVerdicts(items[..n], outs[..n])
    ensures UpdateWrites(outs)[..n] == UpdateWrites(outs[..n])
  {
  }

  lemma ProgressLogSplit(vs: seq<Verdict>, writes: seq<bool>)
    requires |vs| == |writes| > 0
    ensures var n := |vs| - 1;
            ProgressLog(vs, writes)
            == ProgressLog(vs[..n], writes[..n]) + (if writes[n] then [ProgressSnapshot(|vs|, TallyOf(vs))] else [])
  {
  }

  lemma {:induction false} UpdateLoopSnapshots(jobID: int, userID: int, items: seq<BatchUpdateItem>, outs: seq<UpdateOutcome>)
    requires |items| == |outs|
    ensures Snapshots(UpdateLoopCalls(jobID, userID, items, outs)) == ProgressLog(UpdateVerdicts(items, outs), UpdateWrites(outs))
    decreases |items|
  {
    if |items| > 0 {
      var n := |items| - 1;
      var vs := UpdateVerdicts(items, outs);
      var loop := UpdateLoopCalls(jobID, userID, items[..n], outs[..n]);
      var last := UpdateItemCalls(jobID, userID, n, items[n], outs[n], TallyOf(vs));
      UpdateLoopSnapshots(jobID, userID, items[..n], outs[..n]);
      UpdateLoopSplit(jobID, userID, items, outs);
      SnapshotsOfSum(UpdateLoopCalls(jobID, userID, items, outs), loop, last);
      UpdateItemSnapshots(jobID, userID, n, items[n], outs[n], TallyOf(vs));
      UpdateVerdictsPrefix(items, outs, n);
      ProgressLogSplit(vs, UpdateWrites(outs));
    }
  }

  /** The snapshots a batch update writes are the run log of its verdicts,
      with a progress write after each item except the missing ones, and
      every failure record names its item. */
  lemma UpdateRunLog(jobID: int, userID: int, items: seq<BatchUpdateItem>, outs: seq<UpdateOutcome>)
    requires |items| == |outs|
    ensures Snapshots(UpdateRunCalls(jobID, userID, items, outs)) == RunLog(UpdateVerdicts(items, outs), UpdateWrites(outs))
    ensures IndexedVerdicts(UpdateVerdicts(items, outs))
  {
    var vs := UpdateVerdicts(items, outs);
    var start := UpdateBatchJobCall(jobID, StartSnapshot());
    var loop := UpdateLoopCalls(jobID, userID, items, outs);
    var final := UpdateBatchJobCall(jobID, FinalSnapshot(|items|, TallyOf(vs)));
    SnapshotsAppend([start], loop);
    SnapshotsAppend([start] + loop, [final]);
    SnapshotsOfOne(start);
    SnapshotsOfOne(final);
    UpdateLoopSnapshots(jobID, userID, items, outs);
  }

  /** The job ends "completed" exactly when some item was updated, and
      "failed" otherwise; its last snapshot covers every item. */
  lemma UpdateFinalStatus(jobID: int, userID: int, items: seq<BatchUpdateItem>, outs: seq<UpdateOutcome>)
    requires |items| == |outs|
    ensures var log := Snapshots(UpdateRunCalls(jobID, userID, items, outs));
            |log| >= 2 && log[|log| - 1].processed == |items|
            && (log[|log| - 1].status == Completed <==> exists k :: 0 <= k < |outs| && outs[k] == Updated)
            && (log[|log| - 1].status == Failed <==> forall k :: 0 <= k < |outs| ==> outs[k] != Updated)
  {
    var vs := UpdateVerdicts(items, outs);
    UpdateRunLog(jobID, userID, items, outs);
    RunLogStatus(vs, UpdateWrites(outs));
    RunLogCounters(vs, UpdateWrites(outs));
    assert forall k :: 0 <= k < |outs| ==> (vs[k].Succeeded? <==> outs[k] == Updated);
  }

  lemma UpdateItemStoreCalls(jobID: int, userID: int, i: int, item: BatchUpdateItem, o: UpdateOutcome, after: Tally)
    ensures Only(UpdateItemCalls(jobID, userID, i, item, o, after), IsExistsCall) == [ExpenseExistsCall(userID, item.expenseID)]
    ensures Only(UpdateItemCalls(jobID, userID, i, item, o, after), IsUpdateCall)
            == (if o == NotFound then [] else [UpdateExpenseCall(userID, item.expenseID, UpdateRequestOf(item))])
  {
    var e := ExpenseExistsCall(userID, item.expenseID);
    OnlyOfOne(e, IsExistsCall);
    OnlyOfOne(e, IsUpdateCall);
    if o != NotFound {
      var u := UpdateExpenseCall(userID, item.expenseID, UpdateRequestOf(item));
      var w := UpdateBatchJobCall(jobID, ProgressSnapshot(i + 1, after));
      OnlyOfThree(e, u, w, IsExistsCall);
      OnlyOfThree(e, u, w, IsUpdateCall);
      OnlyOfOne(u, IsExistsCall);
      OnlyOfOne(u, IsUpdateCall);
      OnlyOfOne(w, IsExistsCall);
      OnlyOfOne(w, IsUpdateCall);
    }
  }

  /** The start and final writes are job-store calls, so the expense calls
      of a run are those of its loop. */
  lemma UpdateRunOnly(jobID: int, userID: int, items: seq<BatchUpdateItem>, outs: seq<UpdateOutcome>, keep: Call -> bool)
    requires |items| == |outs|
    requires !keep(UpdateBatchJobCall(jobID, StartSnapshot()))
    requires !keep(UpdateBatchJobCall(jobID, FinalSnapshot(|items|, TallyOf(UpdateVerdicts(items, outs)))))
    ensures Only(UpdateRunCalls(jobID, userID, items, outs), keep) == Only(UpdateLoopCalls(jobID, userID, items, outs), keep)
  {
    var start := UpdateBatchJobCall(jobID, StartSnapshot());
    var loop := UpdateLoopCalls(jobID, userID, items, outs);
    var final := UpdateBatchJobCall(jobID, FinalSnapshot(|items|, TallyOf(UpdateVerdicts(items, outs))));
    OnlyAppend([start], loop, keep);
    OnlyAppend([start] + loop, [final], keep);
    OnlyOfOne(start, keep);
    OnlyOfOne(final, keep);
  }

  /** The exists-call fact for one more item. */
  lemma ExistsCallsStep(userID: int, items: seq<BatchUpdateItem>, p: seq<BatchUpdateItem>, r0: seq<Call>, r: seq<Call>)
    requires |items| > 0 && p == items[..|items| - 1]
    requires |r0| == |p| && forall k :: 0 <= k < |p| ==> r0[k] == ExpenseExistsCall(userID, p[k].expenseID)
    requires r == r0 + [ExpenseExistsCall(userID, items[|items| - 1].expenseID)]
    ensures |r| == |items| && forall k :: 0 <= k < |items| ==> r[k] == ExpenseExistsCall(userID, items[k].expenseID)
  {
    forall k | 0 <= k < |items|
      ensures r[k] == ExpenseExistsCall(userID, items[k].expenseID)
    {
      if k < |p| {
        assert r[k] == r0[k] && p[k] == items[k];
      }
    }
  }

  lemma {:induction false} UpdateLoopExistsCalls(jobID: int, userID: int, items: seq<BatchUpdateItem>, outs: seq<UpdateOutcome>)
    requires |items| == |outs|
    ensures var r := Only(UpdateLoopCalls(jobID, userID, items, outs), IsExistsCall);
            |r| == |items| && forall k :: 0 <= k < |items| ==> r[k] == ExpenseExistsCall(userID, items[k].expenseID)
    decreases |items|
  {
    if |items| > 0 {
      var n := |items| - 1;
      UpdateLoopExistsCalls(jobID, userID, items[..n], outs[..n]);
      UpdateLoopSplit(jobID, userID, items, outs);
      UpdateExistsExtend(jobID, userID, items, outs, UpdateLoopCalls(jobID, userID, items, outs),
                         UpdateLoopCalls(jobID, userID, items[..n], outs[..n]),
                         UpdateItemCalls(jobID, userID, n, items[n], outs[n], TallyOf(UpdateVerdicts(items, outs))));
    }
  }

  /** The exists-call fact, carried from the first n items to all of them. */
  lemma UpdateExistsExtend(jobID: int, userID: int, items: seq<BatchUpdateItem>, outs: seq<UpdateOutcome>,
                           all: seq<Call>, loop: seq<Call>, last: seq<Call>)
    requires |items| == |outs| > 0
    requires last == UpdateItemCalls(jobID, userID, |items| - 1, items[|items| - 1], outs[|items| - 1], TallyOf(UpdateVerdicts(items, outs)))
    requires all == loop + last
    requires var r := Only(loop, IsExistsCall);
             |r| == |items| - 1 && forall k :: 0 <= k < |items| - 1 ==> r[k] == ExpenseExistsCall(userID, items[k].expenseID)
    ensures var r := Only(all, IsExistsCall);
            |r| == |items| && forall k :: 0 <= k < |items| ==> r[k] == ExpenseExistsCall(userID, items[k].expenseID)
  {
    var n := |items| - 1;
    OnlyOfSum(all, loop, last, IsExistsCall);
    UpdateItemStoreCalls(jobID, userID, n, items[n], outs[n], TallyOf(UpdateVerdicts(items, outs)));
    ExistsCallsStep(userID, items, items[..n], Only(loop, IsExistsCall), Only(all, IsExistsCall));
  }

  /** The update-call fact for one more item, found or not. */
  lemma UpdateCallsStep(userID: int, items: seq<BatchUpdateItem>, p: seq<BatchUpdateItem>, found: bool,
                        sel0: seq<nat>, sel: seq<nat>, r0: seq<Call>, r: seq<Call>)
    requires |items| > 0 && p == items[..|items| - 1]
    requires |r0| == |sel0|
    requires forall k :: 0 <= k < |sel0| ==>
               sel0[k] < |p| && r0[k] == UpdateExpenseCall(userID, p[sel0[k]].expenseID, UpdateRequestOf(p[sel0[k]]))
    requires sel == sel0 + (if found then [|items| - 1] else [])
    requires var it := items[|items| - 1];
             r == r0 + (if found then [UpdateExpenseCall(userID, it.expenseID, UpdateRequestOf(it))] else [])
    ensures |r| == |sel|
    ensures forall k :: 0 <= k < |sel| ==>
              sel[k] < |items| && r[k] == UpdateExpenseCall(userID, items[sel[k]].expenseID, UpdateRequestOf(items[sel[k]]))
  {
    forall k | 0 <= k < |sel|
      ensures sel[k] < |items| && r[k] == UpdateExpenseCall(userID, items[sel[k]].expenseID, UpdateRequestOf(items[sel[k]]))
    {
      if k < |sel0| {
        assert sel[k] == sel0[k] && r[k] == r0[k] && p[sel0[k]] == items[sel0[k]];
      }
    }
  }

  lemma {:induction false} UpdateLoopUpdateCalls(jobID: int, userID: int, items: seq<BatchUpdateItem>, outs: seq<UpdateOutcome>)
    requires |items| == |outs|
    ensures var r := Only(UpdateLoopCalls(jobID, userID, items, outs), IsUpdateCall);
            var sel := Selected(UpdateWrites(outs));
            |r| == |sel|
            && forall k :: 0 <= k < |sel| ==>
                 sel[k] < |items| && r[k] == UpdateExpenseCall(userID, items[sel[k]].expenseID, UpdateRequestOf(items[sel[k]]))
    decreases |items|
  {
    if |items| > 0 {
      var n := |items| - 1;
      var p := items[..n];
      var loop := UpdateLoopCalls(jobID, userID, p, outs[..n]);
      var last := UpdateItemCalls(jobID, userID, n, items[n], outs[n], TallyOf(UpdateVerdicts(items, outs)));
      UpdateLoopUpdateCalls(jobID, userID, p, outs[..n]);
      UpdateLoopSplit(jobID, userID, items, outs);
      OnlyOfSum(UpdateLoopCalls(jobID, userID, items, outs), loop, last, IsUpdateCall);
      UpdateItemStoreCalls(jobID, userID, n, items[n], outs[n], TallyOf(UpdateVerdicts(items, outs)));
      var w := UpdateWrites(outs);
      assert w[..n] == UpdateWrites(outs[..n]);
      UpdateCallsStep(userID, items, p, outs[n] != NotFound, Selected(w[..n]), Selected(w),
                      Only(loop, IsUpdateCall), Only(UpdateLoopCalls(jobID, userID, items, outs), IsUpdateCall));
    }
  }

  /** A batch update checks every item's expense once, in order. */
  lemma UpdateRunExistsCalls(jobID: int, userID: int, items: seq<BatchUpdateItem>, outs: seq<UpdateOutcome>)
    requires |items| == |outs|
    ensures var r := Only(UpdateRunCalls(jobID, userID, items, outs), IsExistsCall);
            |r| == |items| && forall k :: 0 <= k < |items| ==> r[k] == ExpenseExistsCall(userID, items[k].expenseID)
  {
    UpdateRunOnly(jobID, userID, items, outs, IsExistsCall);
    UpdateLoopExistsCalls(jobID, userID, items, outs);
  }

  /** A batch update sends an update, built from the item, for exactly the
      items it found, in order. */
  lemma UpdateRunUpdateCalls(jobID: int, userID: int, items: seq<BatchUpdateItem>, outs: seq<UpdateOutcome>)
    requires |items| == |outs|
    ensures var r := Only(UpdateRunCalls(jobID, userID, items, outs), IsUpdateCall);
            var sel := Selected(UpdateWrites(outs));
            |r| == |sel|
            && (forall k :: 0 <= k < |sel| ==>
                  sel[k] < |items| && r[k] == UpdateExpenseCall(userID, items[sel[k]].expenseID, UpdateRequestOf(items[sel[k]])))
            && (forall i :: 0 <= i < |outs| ==> (outs[i] != NotFound <==> i in sel))
  {
    UpdateRunOnly(jobID, userID, items, outs, IsUpdateCall);
    UpdateLoopUpdateCalls(jobID, userID, items, outs);
    SelectedFacts(UpdateWrites(outs));
  }

  // ---------------------------------------------------------------------
  // ProcessBatchUpload
  // ---------------------------------------------------------------------

  /** Every row, valid or not, writes exactly one progress snapshot. */
  lemma UploadItemSnapshots(jobID: int, userID: int, i: int, row: CSVExpenseRow, check: Option<ValidationError>, after: Tally)
    ensures Snapshots(UploadItemCalls(jobID, userID, i, row, check, after)) == [ProgressSnapshot(i + 1, after)]
  {
    var w := UpdateBatchJobCall(jobID, ProgressSnapshot(i + 1, after));
    SnapshotsOfOne(w);
    if check.None? {
      var c := CreateExpenseCall(userID, CreateRequestOf(row));
      SnapshotsOfTwo(c, w);
      SnapshotsOfOne(c);
    }
  }

  lemma UploadVerdictsPrefix(checks: seq<Option<ValidationError>>, created: seq<bool>, n: nat)
    requires n <= |checks| == |created|
    ensures UploadVerdicts(checks, created)[..n] == UploadVerdicts(checks[..n], created[..n])
  {
  }

  lemma EveryRowPrefix(m: nat, n: nat)
    requires n <= m
    ensures EveryRow(m)[..n] == EveryRow(n)
  {
  }

  /** The progress log of the upload verdicts grows by one write per row. */
  lemma UploadProgressStep(checks: seq<Option<ValidationError>>, created: seq<bool>)
    requires |checks| == |created| > 0
    ensures var n := |checks| - 1;
            var vs := UploadVerdicts(checks, created);
            ProgressLog(vs, EveryRow(|checks|))
            == ProgressLog(UploadVerdicts(checks[..n], created[..n]), EveryRow(n)) + [ProgressSnapshot(n + 1, TallyOf(vs))]
  {
    var n := |checks| - 1;
    var vs := UploadVerdicts(checks, created);
    UploadVerdictsPrefix(checks, created, n);
    EveryRowPrefix(|checks|, n);
    ProgressLogSplit(vs, EveryRow(|checks|));
  }

  /** The snapshot fact, carried from the first n rows to all of them. */
  lemma UploadSnapshotsExtend(jobID: int, userID: int, rows: seq<CSVExpenseRow>,
                              checks: seq<Option<ValidationError>>, created: seq<bool>, all: seq<Call>, loop: seq<Call>)
    requires |rows| == |checks| == |created| > 0
    requires var n := |rows| - 1;
             all == loop + UploadItemCalls(jobID, userID, n, rows[n], checks[n], TallyOf(UploadVerdicts(checks, created)))
    requires var n := |rows| - 1;
             Snapshots(loop) == ProgressLog(UploadVerdicts(checks[..n], created[..n]), EveryRow(n))
    ensures Snapshots(all) == ProgressLog(UploadVerdicts(checks, created), EveryRow(|rows|))
  {
    var n := |rows| - 1;
    var last := UploadItemCalls(jobID, userID, n, rows[n], checks[n], TallyOf(UploadVerdicts(checks, created)));
    SnapshotsOfSum(all, loop, last);
    UploadItemSnapshots(jobID, userID, n, rows[n], checks[n], TallyOf(UploadVerdicts(checks, created)));
    UploadProgressStep(checks, created);
  }

  lemma {:induction false} UploadLoopSnapshots(jobID: int, userID: int, rows: seq<CSVExpenseRow>,
                                               checks: seq<Option<ValidationError>>, created: seq<bool>)
    requires |rows| == |checks| == |created|
    ensures Snapshots(UploadLoopCalls(jobID, userID, rows, checks, created))
            == ProgressLog(UploadVerdicts(checks, created), EveryRow(|rows|))
    decreases |rows|
  {
    if |rows| > 0 {
      var n := |rows| - 1;
      UploadLoopSnapshots(jobID, userID, rows[..n], checks[..n], created[..n]);
      UploadLoopSplit(jobID, userID, rows, checks, created);
      UploadSnapshotsExtend(jobID, userID, rows, checks, created, UploadLoopCalls(jobID, userID, rows, checks, created),
                            UploadLoopCalls(jobID, userID, rows[..n], checks[..n], created[..n]));
    }
  }

  /** The snapshots a CSV upload writes are the run log of its verdicts, with
      a progress write after every row, and every failure record names its
      row. */
  lemma UploadRunLog(jobID: int, userID: int, rows: seq<CSVExpenseRow>,
                     checks: seq<Option<ValidationError>>, created: seq<bool>)
    requires |rows| == |checks| == |created|
    ensures Snapshots(UploadRunCalls(jobID, userID, rows, checks, created))
            == RunLog(UploadVerdicts(checks, created), EveryRow(|rows|))
    ensures IndexedVerdicts(UploadVerdicts(checks, created))
  {
    var vs := UploadVerdicts(checks, created);
    var start := UpdateBatchJobCall(jobID, StartSnapshot());
    var loop := UploadLoopCalls(jobID, userID, rows, checks, created);
    var final := UpdateBatchJobCall(jobID, FinalSnapshot(|rows|, TallyOf(vs)));
    SnapshotsAppend([start], loop);
    SnapshotsAppend([start] + loop, [final]);
    SnapshotsOfOne(start);
    SnapshotsOfOne(final);
    UploadLoopSnapshots(jobID, userID, rows, checks, created);
  }

  /** An upload writes n + 2 snapshots for n rows: the start, one after each
      row with the counters after that row, and the final one. */
  lemma UploadProgress(jobID: int, userID: int, rows: seq<CSVExpenseRow>,
                       checks: seq<Option<ValidationError>>, created: seq<bool>)
    requires |rows| == |checks| == |created|
    ensures var log := Snapshots(UploadRunCalls(jobID, userID, rows, checks, created));
            var vs := UploadVerdicts(checks, created);
            |log| == |rows| + 2
            && log[0] == StartSnapshot()
            && (forall k :: 1 <= k <= |rows| ==> log[k] == ProgressSnapshot(k, TallyOf(vs[..k])))
            && log[|rows| + 1] == FinalSnapshot(|rows|, TallyOf(vs))
  {
    var vs := UploadVerdicts(checks, created);
    var every := EveryRow(|rows|);
    UploadRunLog(jobID, userID, rows, checks, created);
    SelectedAll(every);
    ProgressLogShape(vs, every);
  }

  /** The job ends "completed" exactly when some row was valid and created. */
  lemma UploadFinalStatus(jobID: int, userID: int, rows: seq<CSVExpenseRow>,
                          checks: seq<Option<ValidationError>>, created: seq<bool>)
    requires |rows| == |checks| == |created|
    ensures var log := Snapshots(UploadRunCalls(jobID, userID, rows, checks, created));
            |log| >= 2 && log[|log| - 1].processed == |rows|
            && (log[|log| - 1].status == Completed <==> exists k :: 0 <= k < |rows| && checks[k].None? && created[k])
            && (log[|log| - 1].status == Failed <==> forall k :: 0 <= k < |rows| ==> checks[k].Some? || !created[k])
  {
    var vs := UploadVerdicts(checks, created);
    UploadRunLog(jobID, userID, rows, checks, created);
    RunLogStatus(vs, EveryRow(|rows|));
    RunLogCounters(vs, EveryRow(|rows|));
    assert forall k :: 0 <= k < |rows| ==> (vs[k].Succeeded? <==> checks[k].None? && created[k]);
  }

  lemma UploadItemCreates(jobID: int, userID: int, i: int, row: CSVExpenseRow, check: Option<ValidationError>, after: Tally)
    ensures Only(UploadItemCalls(jobID, userID, i, row, check, after), IsCreateCall)
            == (if check.Some? then [] else [CreateExpenseCall(userID, CreateRequestOf(row))])
  {
    var w := UpdateBatchJobCall(jobID, ProgressSnapshot(i + 1, after));
    OnlyOfOne(w, IsCreateCall);
    if check.None? {
      var c := CreateExpenseCall(userID, CreateRequestOf(row));
      OnlyOfTwo(c, w, IsCreateCall);
      OnlyOfOne(c, IsCreateCall);
    }
  }

  lemma UploadLoopSplit(jobID: int, userID: int, rows: seq<CSVExpenseRow>,
                        checks: seq<Option<ValidationError>>, created: seq<bool>)
    requires |rows| == |checks| == |created| > 0
    ensures var n := |rows| - 1;
            UploadLoopCalls(jobID, userID, rows, checks, created)
            == UploadLoopCalls(jobID, userID, rows[..n], checks[..n], created[..n])
               + UploadItemCalls(jobID, userID, n, rows[n], checks[n], TallyOf(UploadVerdicts(checks, created)))
  {
  }

  /** The create-call fact for one more row, valid or not. */
  lemma CreateCallsStep(userID: int, rows: seq<CSVExpenseRow>, p: seq<CSVExpenseRow>, valid: bool,
                        sel0: seq<nat>, sel: seq<nat>, r0: seq<Call>, r: seq<Call>)
    requires |rows| > 0 && p == rows[..|rows| - 1]
    requires |r0| == |sel0|
    requires forall k :: 0 <= k < |sel0| ==> sel0[k] < |p| && r0[k] == CreateExpenseCall(userID, CreateRequestOf(p[sel0[k]]))
    requires sel == sel0 + (if valid then [|rows| - 1] else [])
    requires r == r0 + (if valid then [CreateExpenseCall(userID, CreateRequestOf(rows[|rows| - 1]))] else [])
    ensures |r| == |sel|
    ensures forall k :: 0 <= k < |sel| ==> sel[k] < |rows| && r[k] == CreateExpenseCall(userID, CreateRequestOf(rows[sel[k]]))
  {
    forall k | 0 <= k < |sel|
      ensures sel[k] < |rows| && r[k] == CreateExpenseCall(userID, CreateRequestOf(rows[sel[k]]))
    {
      if k < |sel0| {
        assert sel[k] == sel0[k] && r[k] == r0[k] && p[sel0[k]] == rows[sel0[k]];
      }
    }
  }

  lemma {:induction false} UploadLoopCreates(jobID: int, userID: int, rows: seq<CSVExpenseRow>,
                                             checks: seq<Option<ValidationError>>, created: seq<bool>)
    requires |rows| == |checks| == |created|
    ensures var r := Only(UploadLoopCalls(jobID, userID, rows, checks, created), IsCreateCall);
            var sel := Selected(ValidRows(checks));
            |r| == |sel|
            && forall k :: 0 <= k < |sel| ==>
                 sel[k] < |rows| && r[k] == CreateExpenseCall(userID, CreateRequestOf(rows[sel[k]]))
    decreases |rows|
  {
    if |rows| > 0 {
      var n := |rows| - 1;
      var p := rows[..n];
      var loop := UploadLoopCalls(jobID, userID, p, checks[..n], created[..n]);
      var last := UploadItemCalls(jobID, userID, n, rows[n], checks[n], TallyOf(UploadVerdicts(checks, created)));
      UploadLoopCreates(jobID, userID, p, checks[..n], created[..n]);
      UploadLoopSplit(jobID, userID, rows, checks, created);
      OnlyOfSum(UploadLoopCalls(jobID, userID, rows, checks, created), loop, last, IsCreateCall);
      UploadItemCreates(jobID, userID, n, rows[n], checks[n], TallyOf(UploadVerdicts(checks, created)));
      var v := ValidRows(checks);
      assert v[..n] == ValidRows(checks[..n]);
      CreateCallsStep(userID, rows, p, checks[n].None?, Selected(v[..n]), Selected(v),
                      Only(loop, IsCreateCall), Only(UploadLoopCalls(jobID, userID, rows, checks, created), IsCreateCall));
    }
  }

  lemma UploadRunOnly(jobID: int, userID: int, rows: seq<CSVExpenseRow>,
                      checks: seq<Option<ValidationError>>, created: seq<bool>, keep: Call -> bool)
    requires |rows| == |checks| == |created|
    requires !keep(UpdateBatchJobCall(jobID, StartSnapshot()))
    requires !keep(UpdateBatchJobCall(jobID, FinalSnapshot(|rows|, TallyOf(UploadVerdicts(checks, created)))))
    ensures Only(UploadRunCalls(jobID, userID, rows, checks, created), keep)
            == Only(UploadLoopCalls(jobID, userID, rows, checks, created), keep)
  {
    var start := UpdateBatchJobCall(jobID, StartSnapshot());
    var loop := UploadLoopCalls(jobID, userID, rows, checks, created);
    var final := UpdateBatchJobCall(jobID, FinalSnapshot(|rows|, TallyOf(UploadVerdicts(checks, created))));
    OnlyAppend([start], loop, keep);
    OnlyAppend([start] + loop, [final], keep);
    OnlyOfOne(start, keep);
    OnlyOfOne(final, keep);
  }

  /** A CSV upload sends one create request, built from the row, for exactly
      the rows that pass validation, in order, and nothing for the others. */
  lemma UploadRunCreates(jobID: int, userID: int, rows: seq<CSVExpenseRow>,
                         checks: seq<Option<ValidationError>>, created: seq<bool>)
    requires |rows| == |checks| == |created|
    ensures var r := Only(UploadRunCalls(jobID, userID, rows, checks, created), IsCreateCall);
            var sel := Selected(ValidRows(checks));
            |r| == |sel|
            && (forall k :: 0 <= k < |sel| ==>
                  sel[k] < |rows| && r[k] == CreateExpenseCall(userID, CreateRequestOf(rows[sel[k]])))
            && (forall i :: 0 <= i < |rows| ==> (checks[i].None? <==> i in sel))
  {
    UploadRunOnly(jobID, userID, rows, checks, created, IsCreateCall);
    UploadLoopCreates(jobID, userID, rows, checks, created);
    SelectedFacts(ValidRows(checks));
  }
}
