/** What a background batch run writes to the job store, independently of
    what each item does (pkg/services/featureOne/script/expensesBatch.go,
    ProcessBatchUpdate and ProcessBatchUpload share this shape): one
    "processing" snapshot with nothing done, one progress snapshot after
    each item that writes one, and a final snapshot whose status is "failed"
    exactly when every item failed. Each item ends in a verdict; the
    counters and the list of failure records are a fold over the verdicts. */
module BatchRun {
  import opened Wrappers
  import opened ExpenseModel

  /** How one item ended: successfully, or with the failure record the run
      appends to its results. */
  datatype Verdict = Succeeded | FailedWith(record: BatchUpdateResultItem)

  /** The run's local state: successCount, failCount and results. */
  datatype Tally = Tally(successCount: nat, failCount: nat, results: seq<BatchUpdateResultItem>)

  /** Accounts for one more item. */
  function Record(t: Tally, v: Verdict): Tally {
    match v
    case Succeeded => Tally(t.successCount + 1, t.failCount, t.results)
    case FailedWith(rec) => Tally(t.successCount, t.failCount + 1, t.results + [rec])
  }

  /** The state after the items whose verdicts are `vs`, from the empty state. */
  function TallyOf(vs: seq<Verdict>): Tally
    decreases |vs|
  {
    if |vs| == 0 then Tally(0, 0, [])
    else Record(TallyOf(vs[..|vs| - 1]), vs[|vs| - 1])
  }

  /** Each failure record names the position of its item and says it failed. */
  predicate IndexedVerdicts(vs: seq<Verdict>) {
    forall i :: 0 <= i < |vs| && vs[i].FailedWith? ==> vs[i].record.index == i && !vs[i].record.success
  }

  /** The snapshot written before the first item (results: Go's untyped nil). */
  function StartSnapshot(): Snapshot {
    Snapshot(Processing, 0, 0, 0, None)
  }

  /** The snapshot written after `processed` items. */
  function ProgressSnapshot(processed: int, t: Tally): Snapshot {
    Snapshot(Processing, processed, t.successCount, t.failCount, Some(t.results))
  }

  /** "failed" when every one of `total` items failed, "completed" otherwise. */
  function FinalStatus(total: int, t: Tally): JobStatus {
    if t.failCount == total then Failed else Completed
  }

  function FinalSnapshot(total: int, t: Tally): Snapshot {
    Snapshot(FinalStatus(total, t), total, t.successCount, t.failCount, Some(t.results))
  }

  /** The positions whose flag is set, in increasing order. */
  function Selected(flags: seq<bool>): seq<nat>
    decreases |flags|
  {
    if |flags| == 0 then []
    else Selected(flags[..|flags| - 1]) + (if flags[|flags| - 1] then [|flags| - 1] else [])
  }

  /** The progress snapshots of a run: after item i exactly when writes[i]. */
  function ProgressLog(vs: seq<Verdict>, writes: seq<bool>): seq<Snapshot>
    requires |vs| == |writes|
    decreases |vs|
  {
    if |vs| == 0 then []
    else ProgressLog(vs[..|vs| - 1], writes[..|writes| - 1])
         + (if writes[|writes| - 1] then [ProgressSnapshot(|vs|, TallyOf(vs))] else [])
  }

  /** Everything a run writes to the job store, in order. */
  function RunLog(vs: seq<Verdict>, writes: seq<bool>): seq<Snapshot>
    requires |vs| == |writes|
  {
    [StartSnapshot()] + ProgressLog(vs, writes) + [FinalSnapshot(|vs|, TallyOf(vs))]
  }

  /** The number of items each snapshot of the run log accounts for. */
  function Checkpoints(writes: seq<bool>): seq<nat> {
    [0] + seq(|Selected(writes)|, k requires 0 <= k < |Selected(writes)| => Selected(writes)[k] + 1) + [|writes|]
  }

  // ---------------------------------------------------------------------
  // The counters
  // ---------------------------------------------------------------------

  /** Every item is counted once, and only failures are recorded. */
  lemma {:induction false} TallyCounts(vs: seq<Verdict>)
    ensures TallyOf(vs).successCount + TallyOf(vs).failCount == |vs|
    ensures |TallyOf(vs).results| == TallyOf(vs).failCount
    decreases |vs|
  {
    if |vs| > 0 {
      TallyCounts(vs[..|vs| - 1]);
    }
  }

  /** The fail counter reaches the number of items exactly when every item failed. */
  lemma {:induction false} AllFailedIff(vs: seq<Verdict>)
    ensures TallyOf(vs).failCount == |vs| <==> forall i :: 0 <= i < |vs| ==> vs[i].FailedWith?
    decreases |vs|
  {
    if |vs| > 0 {
      var p := vs[..|vs| - 1];
      AllFailedIff(p);
      TallyCounts(p);
      assert forall i :: 0 <= i < |p| ==> p[i] == vs[i];
      if forall i :: 0 <= i < |vs| ==> vs[i].FailedWith? {
        assert vs[|vs| - 1].FailedWith?;
      }
    }
  }

  /** The fail counter stays at zero exactly when every item succeeded. */
  lemma {:induction false} NoneFailedIff(vs: seq<Verdict>)
    ensures TallyOf(vs).failCount == 0 <==> forall i :: 0 <= i < |vs| ==> vs[i] == Succeeded
    decreases |vs|
  {
    if |vs| > 0 {
      var p := vs[..|vs| - 1];
      NoneFailedIff(p);
      assert forall i :: 0 <= i < |p| ==> p[i] == vs[i];
      if forall i :: 0 <= i < |vs| ==> vs[i] == Succeeded {
        assert vs[|vs| - 1] == Succeeded;
      }
    }
  }

  /** The state only grows: counters never decrease and results are only appended. */
  lemma {:induction false} TallyPrefix(vs: seq<Verdict>, m: nat)
    requires m <= |vs|
    ensures TallyOf(vs[..m]).successCount <= TallyOf(vs).successCount
    ensures TallyOf(vs[..m]).failCount <= TallyOf(vs).failCount
    ensures TallyOf(vs[..m]).results <= TallyOf(vs).results
    decreases |vs|
  {
    if m == |vs| {
      assert vs[..m] == vs;
    } else {
      var p := vs[..|vs| - 1];
      TallyPrefix(p, m);
      assert p[..m] == vs[..m];
    }
  }

  /** The results are exactly the failure records, in item order: each one
      is the record of the failed item it names, their indices strictly
      increase, and every failed item's record is among them. */
  lemma {:induction false} TallyResults(vs: seq<Verdict>)
    requires IndexedVerdicts(vs)
    ensures var r := TallyOf(vs).results;
            (forall k :: 0 <= k < |r| ==> 0 <= r[k].index < |vs| && vs[r[k].index] == FailedWith(r[k]) && !r[k].success)
            && (forall j, k :: 0 <= j < k < |r| ==> r[j].index < r[k].index)
            && (forall i :: 0 <= i < |vs| && vs[i].FailedWith? ==> vs[i].record in r)
    decreases |vs|
  {
    if |vs| > 0 {
      var p := vs[..|vs| - 1];
      assert IndexedVerdicts(p) by {
        assert forall i :: 0 <= i < |p| ==> p[i] == vs[i];
      }
      TallyResults(p);
      assert forall i :: 0 <= i < |p| ==> p[i] == vs[i];
    }
  }

  // ---------------------------------------------------------------------
  // The progress writes
  // ---------------------------------------------------------------------

  /** Selected lists, in increasing order, exactly the positions whose flag is set. */
  lemma {:induction false} SelectedFacts(flags: seq<bool>)
    ensures forall k :: 0 <= k < |Selected(flags)| ==> Selected(flags)[k] < |flags| && flags[Selected(flags)[k]]
    ensures forall j, k :: 0 <= j < k < |Selected(flags)| ==> Selected(flags)[j] < Selected(flags)[k]
    ensures forall i :: 0 <= i < |flags| && flags[i] ==> i in Selected(flags)
    decreases |flags|
  {
    if |flags| > 0 {
      var p := flags[..|flags| - 1];
      SelectedFacts(p);
      assert forall i :: 0 <= i < |p| ==> p[i] == flags[i];
    }
  }

  /** Selected, unfolded once. */
  lemma SelectedStep(flags: seq<bool>)
    requires |flags| > 0
    ensures var n := |flags| - 1;
            Selected(flags) == Selected(flags[..n]) + (if flags[n] then [n] else [])
  {
  }

  /** When every item writes, every position is selected. */
  lemma {:induction false} SelectedAll(flags: seq<bool>)
    requires forall i :: 0 <= i < |flags| ==> flags[i]
    ensures Selected(flags) == seq(|flags|, i requires 0 <= i < |flags| => i)
    decreases |flags|
  {
    if |flags| > 0 {
      SelectedAll(flags[..|flags| - 1]);
    }
  }

  /** The k-th progress snapshot is written after item Selected(writes)[k]
      and carries the state after that item. */
  lemma {:induction false} ProgressLogShape(vs: seq<Verdict>, writes: seq<bool>)
    requires |vs| == |writes|
    ensures |ProgressLog(vs, writes)| == |Selected(writes)|
    ensures forall k :: 0 <= k < |Selected(writes)| ==>
              Selected(writes)[k] < |vs|
              && ProgressLog(vs, writes)[k]
                 == ProgressSnapshot(Selected(writes)[k] + 1, TallyOf(vs[..Selected(writes)[k] + 1]))
    decreases |vs|
  {
    SelectedFacts(writes);
    if |vs| > 0 {
      var p := vs[..|vs| - 1];
      var w := writes[..|writes| - 1];
      ProgressLogShape(p, w);
      SelectedFacts(w);
      assert forall m :: 0 <= m <= |p| ==> p[..m] == vs[..m];
      assert vs[..|vs|] == vs;
    }
  }

  /** Each snapshot of the run log carries the state after its checkpoint. */
  lemma RunLogAtCheckpoints(vs: seq<Verdict>, writes: seq<bool>)
    requires |vs| == |writes|
    ensures |RunLog(vs, writes)| == |Checkpoints(writes)| == |Selected(writes)| + 2
    ensures forall k :: 0 <= k < |Checkpoints(writes)| ==> Checkpoints(writes)[k] <= |vs|
    ensures forall j, k :: 0 <= j <= k < |Checkpoints(writes)| ==> Checkpoints(writes)[j] <= Checkpoints(writes)[k]
    ensures forall k :: 1 <= k < |RunLog(vs, writes)| ==>
              var m := Checkpoints(writes)[k];
              var t := TallyOf(vs[..m]);
              var s := RunLog(vs, writes)[k];
              s.processed == m && s.successful == t.successCount && s.failed == t.failCount
              && s.results == Some(t.results)
  {
    var log := RunLog(vs, writes);
    var cps := Checkpoints(writes);
    var sel := Selected(writes);
    ProgressLogShape(vs, writes);
    SelectedFacts(writes);
    assert vs[..|vs|] == vs;
    forall k | 1 <= k < |log|
      ensures var t := TallyOf(vs[..cps[k]]);
              log[k].processed == cps[k] && log[k].successful == t.successCount
              && log[k].failed == t.failCount && log[k].results == Some(t.results)
    {
      if k <= |sel| {
        assert log[k] == ProgressLog(vs, writes)[k - 1];
      }
    }
  }

  // ---------------------------------------------------------------------
  // Properties of the whole run log
  // ---------------------------------------------------------------------

  /** Every snapshot is consistent: processed = successful + failed, at most
      the number of items, and as many results as failures. The log holds the
      start snapshot, one snapshot per writing item and the final one. */
  lemma RunLogCounters(vs: seq<Verdict>, writes: seq<bool>)
    requires |vs| == |writes|
    ensures |RunLog(vs, writes)| == |Selected(writes)| + 2
    ensures var log := RunLog(vs, writes);
            forall k :: 0 <= k < |log| ==>
              0 <= log[k].processed <= |vs| && log[k].processed == log[k].successful + log[k].failed
              && (log[k].results.Some? ==> |log[k].results.value| == log[k].failed)
  {
    var log := RunLog(vs, writes);
    var cps := Checkpoints(writes);
    RunLogAtCheckpoints(vs, writes);
    forall k | 0 <= k < |log|
      ensures 0 <= log[k].processed <= |vs| && log[k].processed == log[k].successful + log[k].failed
              && (log[k].results.Some? ==> |log[k].results.value| == log[k].failed)
    {
      if k > 0 {
        TallyCounts(vs[..cps[k]]);
      }
    }
  }

  /** Progress only moves forward: no counter of a later snapshot is below
      that of an earlier one, and each results list extends the previous one. */
  lemma RunLogMonotone(vs: seq<Verdict>, writes: seq<bool>)
    requires |vs| == |writes|
    ensures var log := RunLog(vs, writes);
            forall j, k :: 0 <= j <= k < |log| ==>
              log[j].processed <= log[k].processed
              && log[j].successful <= log[k].successful
              && log[j].failed <= log[k].failed
              && (log[j].results.Some? ==> log[k].results.Some? && log[j].results.value <= log[k].results.value)
  {
    var log := RunLog(vs, writes);
    var cps := Checkpoints(writes);
    RunLogAtCheckpoints(vs, writes);
    forall j, k | 0 <= j <= k < |log|
      ensures log[j].processed <= log[k].processed
              && log[j].successful <= log[k].successful
              && log[j].failed <= log[k].failed
              && (log[j].results.Some? ==> log[k].results.Some? && log[j].results.value <= log[k].results.value)
    {
      if j > 0 {
        var full := vs[..cps[k]];
        TallyPrefix(full, cps[j]);
        assert full[..cps[j]] == vs[..cps[j]];
      }
    }
  }

  /** The job reads "processing" until the final snapshot, which accounts for
      every item and reads "failed" exactly when every item failed (so an
      empty run ends "failed") and "completed" exactly when some item succeeded. */
  lemma RunLogStatus(vs: seq<Verdict>, writes: seq<bool>)
    requires |vs| == |writes|
    ensures var log := RunLog(vs, writes);
            log[0] == StartSnapshot()
            && (forall k :: 0 <= k < |log| - 1 ==> log[k].status == Processing)
            && log[|log| - 1].processed == |vs|
            && (log[|log| - 1].status == Failed <==> forall i :: 0 <= i < |vs| ==> vs[i].FailedWith?)
            && (log[|log| - 1].status == Completed <==> exists i :: 0 <= i < |vs| && vs[i].Succeeded?)
  {
    var log := RunLog(vs, writes);
    ProgressLogShape(vs, writes);
    AllFailedIff(vs);
    assert forall k :: 0 < k < |log| - 1 ==> log[k] == ProgressLog(vs, writes)[k - 1];
  }
}
