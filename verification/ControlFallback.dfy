/** When writes fall back from a batch to one by one: never unasked, and then to
  * success, where without the fallback the run would have been undone. */
module ControlFallback {
  import opened Wrappers
  import opened ControlModel
  import opened ControlSafety
  import opened ControlOrder
  import opened ControlProgress

  // ---------------------------------------------------------- what the report says

  lemma {:induction false} SetAllIndex(d: Device, writes: seq<PreparedWrite>)
    ensures var failed := SetAll(d, writes).1; failed.Some? ==> failed.value < |writes|
    decreases |writes|
  {
    if writes != [] { SetAllIndex(Set(d, Forward, writes[0].descriptor, writes[0].value).0, writes[1..]); }
  }

  lemma {:induction false} PositionIsInside(writes: seq<PreparedWrite>, i: nat)
    requires i < |writes|
    ensures PositionOf(writes, writes[i].descriptor.id) <= i
    decreases |writes|
  {
    if i > 0 { PositionIsInside(writes[1..], i - 1); }
  }

  lemma {:induction false} BatchIndex(d: Device, writes: seq<PreparedWrite>)
    ensures var failed := SetBatch(d, writes).1; failed.Some? ==> failed.value < |writes|
  {
    SetAllIndex(d, writes);
    if FirstRejected(writes).Some? { PositionIsInside(writes, FirstRejected(writes).value); }
  }

  /** The flags of an applied run: it was batched when asked to or when several
    * controls are requested, and it names the write the batch failed at exactly
    * when it fell back, which it does only in a batch and when allowed to. */
  predicate Flagged(prepared: seq<PreparedWrite>, fallback: bool, batched: bool, outcome: Outcome) {
    outcome.Applied? ==>
      && (outcome.batched <==> batched || |Requested(prepared)| > 1)
      && (outcome.fallbackUsed <==> outcome.errorIndex.Some?)
      && (outcome.fallbackUsed ==> fallback && outcome.batched && outcome.errorIndex.value < |Requested(prepared)|)
  }

  lemma {:induction false} SubmitFlagged(d: Device, prepared: seq<PreparedWrite>, previous: seq<Option<int>>,
          fallback: bool, batched: bool)
    requires d.Valid() && |prepared| == |previous| && Requested(prepared) != []
    ensures Flagged(prepared, fallback, batched, Submit(d, prepared, previous, fallback, batched).1)
  {
    var writes := Requested(prepared);
    SetAllFrame(d, writes);
    if batched || |writes| > 1 {
      var (d1, failed) := SetBatch(d, writes);
      BatchIndex(d, writes);
      VerifyUnrolls(d1, prepared, previous, true, false, None);
      if failed.Some? {
        FallbackUnrolls(d1, prepared, previous, failed.value);
        var d2 := SetAll(Rollback(d1, prepared, previous).0, Prerequisites(prepared)).0;
        VerifyUnrolls(SetAll(d2, writes).0, prepared, previous, true, true, failed);
      }
    } else {
      SingleWrite(d, writes);
      VerifyUnrolls(SetAll(d, writes).0, prepared, previous, false, false, None);
    }
  }

  lemma {:induction false} WriteFlagged(d: Device, prepared: seq<PreparedWrite>, previous: seq<Option<int>>,
          fallback: bool, batched: bool)
    requires d.Valid() && |prepared| == |previous| && Requested(prepared) != []
    ensures Flagged(prepared, fallback, batched, Write(d, prepared, previous, fallback, batched).1)
  {
    SetAllFrame(d, Prerequisites(prepared));
    var d1 := SetAll(d, Prerequisites(prepared)).0;
    RequeryFrame(d1, Requested(prepared));
    SubmitFlagged(Requery(d1, Requested(prepared)).0, prepared, previous, fallback, batched);
  }

  lemma {:induction false} FallbackReported(d: Device, prepared: seq<PreparedWrite>, fallback: bool, batched: bool,
          dryRun: bool)
    requires d.Valid() && Requested(prepared) != []
    ensures Flagged(prepared, fallback, batched, ExecutePrepared(d, prepared, fallback, batched, dryRun).1)
  {
    var (d0, isOpen) := OpenNode(d);
    if prepared != [] && isOpen {
      SnapshotFrame(d0, prepared);
      var (d1, previous) := Snapshot(d0, prepared);
      var (d2, writable) := OpenNode(d1);
      if !dryRun && writable { WriteFlagged(d2, prepared, previous, fallback, batched); }
    }
  }

  // ----------------------------------------------------------- one failing write

  /** The one fault of the script is this one, at its position `k`. */
  predicate FaultAt(script: seq<Fault>, k: nat, fault: Fault)
    decreases k
  {
    && script != []
    && if k == 0 then script[0] == fault && Quiet(script[1..])
       else script[0].Fine? && FaultAt(script[1..], k - 1, fault)
  }

  predicate FailsAt(script: seq<Fault>, k: nat) { FaultAt(script, k, Fails) }

  lemma {:induction false} AnswersBefore(script: seq<Fault>, k: nat, n: nat, fault: Fault)
    requires FaultAt(script, k, fault) && n <= k
    ensures Answers(script, n)
    decreases n
  {
    if n > 0 { AnswersBefore(script[1..], k - 1, n - 1, fault); }
  }

  lemma {:induction false} SnapshotBefore(d: Device, prepared: seq<PreparedWrite>, k: nat, fault: Fault)
    requires d.Valid() && FaultAt(d.forward, |prepared| + k, fault)
    ensures FaultAt(Snapshot(d, prepared).0.forward, k, fault)
    decreases |prepared|
  {
    if prepared != [] { SnapshotBefore(Get(d, Forward, prepared[0].descriptor.id).0, prepared[1..], k, fault); }
  }

  lemma {:induction false} RequeryBefore(d: Device, requested: seq<PreparedWrite>, k: nat, fault: Fault)
    requires d.Valid() && AllOpen(d, requested) && FaultAt(d.forward, |requested| + k, fault)
    ensures var (d1, available) := Requery(d, requested); available && FaultAt(d1.forward, k, fault)
    decreases |requested|
  {
    if requested != [] { RequeryBefore(Query(d, Forward, requested[0].descriptor.id).0, requested[1..], k, fault); }
  }

  /** A fault among the queries makes its control unavailable. */
  lemma {:induction false} RequeryAt(d: Device, requested: seq<PreparedWrite>, k: nat, fault: Fault)
    requires d.Valid() && k < |requested| && FaultAt(d.forward, k, fault) && !fault.Fine?
    ensures !Requery(d, requested).1
    decreases |requested|
  {
    if k > 0 { RequeryAt(Query(d, Forward, requested[0].descriptor.id).0, requested[1..], k - 1, fault); }
  }

  /** Writes that end before the fault all succeed. */
  lemma {:induction false} SetAllBefore(d: Device, writes: seq<PreparedWrite>, k: nat, fault: Fault)
    requires AllOpen(d, writes) && Unrelated(writes) && AllAccepted(writes)
    requires FaultAt(d.forward, |writes| + k, fault)
    ensures var (d1, failed) := SetAll(d, writes);
            && failed.None? && d1.values == Written(d.values, writes) && FaultAt(d1.forward, k, fault)
            && d1.info == d.info && d1.gated == d.gated && d1.opens == d.opens
    decreases |writes|
  {
    if writes != [] {
      var d1 := Set(d, Forward, writes[0].descriptor, writes[0].value).0;
      assert writes[0] in writes;
      StaysOpen(d, d1, writes, writes[0]);
      SetAllBefore(d1, writes[1..], k, fault);
    }
  }

  /** Writes that meet the failure stop at it. */
  lemma {:induction false} SetAllAt(d: Device, writes: seq<PreparedWrite>, j: nat)
    requires AllOpen(d, writes) && Unrelated(writes) && AllAccepted(writes) && j < |writes| && FailsAt(d.forward, j)
    ensures var (d1, failed) := SetAll(d, writes); failed == Some(j) && Quiet(d1.forward) && d1.opens == d.opens
    decreases |writes|
  {
    var d1 := Set(d, Forward, writes[0].descriptor, writes[0].value).0;
    assert writes[0] in writes;
    if j > 0 {
      StaysOpen(d, d1, writes, writes[0]);
      SetAllAt(d1, writes[1..], j - 1);
    }
  }

  // --------------------------------------------------------- falling back from it

  /** What writing again one by one asks of the device it starts over on. */
  predicate Writable(values: map<Id, int>, d: Device, prepared: seq<PreparedWrite>) {
    Feasible(d.(forward := [], values := values), prepared) && AllAccepted(Prerequisites(prepared))
  }

  predicate AllReadable(prepared: seq<PreparedWrite>) { forall w :: w in prepared ==> w.descriptor.readable }

  lemma {:induction false} CleanRollback(start: Device, d: Device, prepared: seq<PreparedWrite>,
          previous: seq<Option<int>>)
    requires Ready(start, d, prepared, previous) && AllReadable(prepared)
    ensures var (d1, report) := Rollback(d, prepared, previous);
            report.failed == [] && d1.values == start.values && d1.forward == d.forward && d1.opens == d.opens
            && d1.info == d.info && d1.gated == d.gated && d1.Valid()
  {
    RollbackComplete(start, d, prepared, previous);
    RollbackFrame(d, prepared, previous);
    PartsAreMembers(prepared);
    var (d1, report) := Rollback(d, prepared, previous);
    RetracedIsBack(start, d1, prepared, report);
  }

  /** Everything written once more on a quiet device that is as it was. */
  lemma {:induction false} WrittenAgain(d: Device, prepared: seq<PreparedWrite>)
    requires Writable(d.values, d, prepared) && Quiet(d.forward)
    ensures var (d1, failed) := SetAll(d, Prerequisites(prepared));
            var (d2, again) := SetAll(d1, Requested(prepared));
            && failed.None? && again.None? && d2.Valid() && Quiet(d2.forward) && AllOpened(d2.opens)
            && Matching(d2, prepared) && Holds(d2, prepared)
  {
    var writes := Prerequisites(prepared);
    OpenAlike(d.(forward := []), d, writes);
    QuietSetAll(d, writes);
    SetAllFrame(d, writes);
    var d1 := SetAll(d, writes).0;
    OpenAlike(d.(forward := [], values := Written(d.values, writes)), d1, Requested(prepared));
    SubmittedHolds(d.values, d1, prepared);
  }

  lemma {:induction false} OpenAlike(d: Device, d1: Device, writes: seq<PreparedWrite>)
    requires AllOpen(d, writes) && d1.gated == d.gated && d1.values == d.values
    ensures AllOpen(d1, writes)
  {
    assert forall w :: w in writes ==> d1.Open(w.descriptor.id) == d.Open(w.descriptor.id);
  }

  lemma {:induction false} FallbackApplies(start: Device, d: Device, prepared: seq<PreparedWrite>,
          previous: seq<Option<int>>, index: nat)
    requires Ready(start, d, prepared, previous) && AllReadable(prepared)
    requires Writable(start.values, d, prepared) && Quiet(d.forward)
    ensures var outcome := Fallback(d, prepared, previous, index).1;
            outcome.Applied? && outcome.fallbackUsed && outcome.errorIndex == Some(index)
  {
    CleanRollback(start, d, prepared, previous);
    FallbackUnrolls(d, prepared, previous, index);
    var d1 := Rollback(d, prepared, previous).0;
    WritableAlike(start.values, d, d1, prepared);
    WrittenAgain(d1, prepared);
    var d3 := SetAll(SetAll(d1, Prerequisites(prepared)).0, Requested(prepared)).0;
    QuietVerify(d3, prepared, previous, true, true, Some(index));
    VerifyUnrolls(d3, prepared, previous, true, true, Some(index));
  }

  lemma {:induction false} WritableAlike(values: map<Id, int>, d: Device, d1: Device, prepared: seq<PreparedWrite>)
    requires Writable(values, d, prepared) && d1.info == d.info && d1.gated == d.gated && d1.opens == d.opens
    ensures Writable(values, d1, prepared)
  {
    var a, b := d.(forward := [], values := values), d1.(forward := [], values := values);
    OpenAlike(a, b, Prerequisites(prepared));
    OpenAlike(a.(values := Written(values, Prerequisites(prepared))),
              b.(values := Written(values, Prerequisites(prepared))), Requested(prepared));
  }

  /** The batch fails at write `j`: with the fallback the run is applied after all,
    * without it everything is undone. */
  predicate FallsBack(start: Device, after: Device, outcome: Outcome, fallback: bool, j: nat) {
    if fallback then outcome.Applied? && outcome.fallbackUsed && outcome.errorIndex == Some(j)
    else UndoneClean(start, after, outcome, Some(j))
  }

  /** An ordinary error over a device that is as it was, nothing listed. */
  predicate UndoneClean(start: Device, after: Device, outcome: Outcome, index: Option<nat>) {
    && outcome.Undone? && !outcome.partial && outcome.errorIndex == index && outcome.rollback.failed == []
    && after.values == start.values
  }

  /** The state in which the requested controls are queried and submitted, the fault
    * `j` operations ahead. */
  predicate Submitting(start: Device, d: Device, prepared: seq<PreparedWrite>, previous: seq<Option<int>>, j: nat,
      fault: Fault)
  {
    && Ready(start, d, prepared, previous)
    && Retraceable(start.values, d, InOrder(prepared), |Prerequisites(prepared)|)
    && Writable(start.values, d, prepared) && AllOpen(d, Requested(prepared)) && FaultAt(d.forward, j, fault)
  }

  lemma {:induction false} BatchUnrolls(d: Device, prepared: seq<PreparedWrite>, previous: seq<Option<int>>,
          fallback: bool, batched: bool, j: nat)
    requires d.Valid() && |prepared| == |previous| && (batched || |Requested(prepared)| > 1)
    requires AllAccepted(Requested(prepared)) && SetAll(d, Requested(prepared)).1 == Some(j)
    ensures Requested(prepared) != []
    ensures var d1 := SetAll(d, Requested(prepared)).0;
            && d1.Valid()
            && Submit(d, prepared, previous, fallback, batched) ==
               if fallback then Fallback(d1, prepared, previous, j) else Abort(d1, prepared, previous, Some(j), false)
  {
    SetAllFrame(d, Requested(prepared));
  }

  lemma {:induction false} SubmitFallsBack(start: Device, d: Device, prepared: seq<PreparedWrite>,
          previous: seq<Option<int>>, fallback: bool, batched: bool, j: nat)
    requires Submitting(start, d, prepared, previous, j, Fails) && AllReadable(prepared)
    requires j < |Requested(prepared)| && (batched || |Requested(prepared)| > 1)
    ensures var (d1, outcome) := Submit(d, prepared, previous, fallback, batched);
            FallsBack(start, d1, outcome, fallback, j)
  {
    var writes := Requested(prepared);
    RequestedReady(start, d, prepared, previous);
    SetAllAt(d, writes, j);
    SetAllFrame(d, writes);
    BatchUnrolls(d, prepared, previous, fallback, batched, j);
    var d1 := SetAll(d, writes).0;
    if fallback {
      WritableAlike(start.values, d, d1, prepared);
      FallbackApplies(start, d1, prepared, previous, j);
    } else {
      CleanRollback(start, d1, prepared, previous);
    }
  }

  lemma {:induction false} PrerequisitesBefore(start: Device, d: Device, prepared: seq<PreparedWrite>,
          previous: seq<Option<int>>, k: nat, fault: Fault)
    requires Ready(start, d, prepared, previous) && d.values == start.values && Writable(start.values, d, prepared)
    requires FaultAt(d.forward, |Prerequisites(prepared)| + k, fault)
    ensures var (d1, failed) := SetAll(d, Prerequisites(prepared));
            failed.None? && Submitting(start, d1, prepared, previous, k, fault)
  {
    var first := Prerequisites(prepared);
    OpenAlike(d.(forward := []), d, first);
    SetAllBefore(d, first, k, fault);
    PrerequisitesReady(start, d, prepared, previous);
    var d1 := SetAll(d, first).0;
    OpenAlike(d.(forward := [], values := Written(d.values, first)), d1, Requested(prepared));
    WritableAlike(start.values, d, d1, prepared);
  }

  lemma {:induction false} RequeriedBefore(start: Device, d: Device, prepared: seq<PreparedWrite>,
          previous: seq<Option<int>>, j: nat, fault: Fault)
    requires Submitting(start, d, prepared, previous, |Requested(prepared)| + j, fault)
    ensures var (d1, available) := Requery(d, Requested(prepared));
            available && Submitting(start, d1, prepared, previous, j, fault)
  {
    RequeryBefore(d, Requested(prepared), j, fault);
    RequeryFrame(d, Requested(prepared));
    var d1 := Requery(d, Requested(prepared)).0;
    StoreReady(start, d, d1, prepared, previous);
    RetraceableStore(start.values, d, d1, InOrder(prepared), |Prerequisites(prepared)|);
    OpenAlike(d, d1, Requested(prepared));
    WritableAlike(start.values, d, d1, prepared);
  }

  lemma {:induction false} WriteSubmits(d: Device, prepared: seq<PreparedWrite>, previous: seq<Option<int>>,
          fallback: bool, batched: bool)
    requires d.Valid() && |prepared| == |previous| && Requested(prepared) != []
    requires SetAll(d, Prerequisites(prepared)).1.None?
    ensures var d1 := SetAll(d, Prerequisites(prepared)).0;
            && d1.Valid() && var (d2, available) := Requery(d1, Requested(prepared));
               && d2.Valid()
               && (available ==> Write(d, prepared, previous, fallback, batched) ==
                                 Submit(d2, prepared, previous, fallback, batched))
  {
    SetAllFrame(d, Prerequisites(prepared));
    RequeryFrame(SetAll(d, Prerequisites(prepared)).0, Requested(prepared));
  }

  lemma {:induction false} WriteFallsBack(start: Device, d: Device, prepared: seq<PreparedWrite>,
          previous: seq<Option<int>>, fallback: bool, batched: bool, j: nat)
    requires Ready(start, d, prepared, previous) && AllReadable(prepared) && d.values == start.values
    requires Writable(start.values, d, prepared)
    requires j < |Requested(prepared)| && (batched || |Requested(prepared)| > 1)
    requires FailsAt(d.forward, |Prerequisites(prepared)| + (|Requested(prepared)| + j))
    ensures var (d1, outcome) := Write(d, prepared, previous, fallback, batched);
            FallsBack(start, d1, outcome, fallback, j)
  {
    var d2 := Submission(start, d, prepared, previous, fallback, batched, j);
    SubmitFallsBack(start, d2, prepared, previous, fallback, batched, j);
  }

  lemma {:induction false} Submission(start: Device, d: Device, prepared: seq<PreparedWrite>,
          previous: seq<Option<int>>, fallback: bool, batched: bool, j: nat)
    returns (d2: Device)
    requires Ready(start, d, prepared, previous) && d.values == start.values && Requested(prepared) != []
    requires Writable(start.values, d, prepared)
    requires FailsAt(d.forward, |Prerequisites(prepared)| + (|Requested(prepared)| + j))
    ensures Submitting(start, d2, prepared, previous, j, Fails)
    ensures Write(d, prepared, previous, fallback, batched) == Submit(d2, prepared, previous, fallback, batched)
  {
    PrerequisitesBefore(start, d, prepared, previous, |Requested(prepared)| + j, Fails);
    var d1 := SetAll(d, Prerequisites(prepared)).0;
    RequeriedBefore(start, d1, prepared, previous, j, Fails);
    d2 := Requery(d1, Requested(prepared)).0;
    WriteSubmits(d, prepared, previous, fallback, batched);
  }

  /** The one fault of a run is that the driver fails the `j`-th requested control
    * of the batch; the device could otherwise carry the plan out, and every
    * prepared control can be read and holds an acceptable value. */
  predicate OneFailure(d: Device, prepared: seq<PreparedWrite>, batched: bool, j: nat) {
    && Writable(d.values, d, prepared) && AllReadable(prepared) && Undoables(d, d.values, prepared) && Quiet(d.undo)
    && j < |Requested(prepared)| && (batched || |Requested(prepared)| > 1)
    && FailsAt(d.forward, |prepared| + (|Prerequisites(prepared)| + (|Requested(prepared)| + j)))
  }

  /** The fallback is taken, and does what it is for: a run whose batch fails once
    * ends applied with it, and undone without it. */
  lemma {:induction false} FallbackTaken(d: Device, prepared: seq<PreparedWrite>, fallback: bool, batched: bool, j: nat)
    requires OneFailure(d, prepared, batched, j)
    ensures var (after, outcome) := ExecutePrepared(d, prepared, fallback, batched, false);
            FallsBack(d, after, outcome, fallback, j)
  {
    var k := |Prerequisites(prepared)| + (|Requested(prepared)| + j);
    AnswersBefore(d.forward, |prepared| + k, |prepared|, Fails);
    SnapshotReady(d, prepared);
    NodeOpens(d);
    var d0 := OpenNode(d).0;
    SnapshotBefore(d0, prepared, k, Fails);
    SnapshotFrame(d0, prepared);
    var (d1, previous) := Snapshot(d0, prepared);
    NodeOpens(d1);
    var d2 := OpenNode(d1).0;
    WritableOpened(d, d2, prepared);
    WriteFallsBack(d, d2, prepared, previous, fallback, batched, j);
  }

  lemma {:induction false} WritableOpened(d: Device, d1: Device, prepared: seq<PreparedWrite>)
    requires Writable(d.values, d, prepared) && SameStore(d, d1) && AllOpened(d1.opens)
    ensures Writable(d.values, d1, prepared)
  {
    var a, b := d.(forward := []), d1.(forward := []);
    FeasibleStore(a, b, prepared);
    assert d.(forward := [], values := d.values) == a && d1.(forward := [], values := d.values) == b;
  }

  // ------------------------------------------------- faults that are not fallen back from

  lemma {:induction false} PrerequisiteFault(start: Device, d: Device, prepared: seq<PreparedWrite>,
          previous: seq<Option<int>>, fallback: bool, batched: bool, k: nat)
    requires Ready(start, d, prepared, previous) && AllReadable(prepared) && d.values == start.values
    requires Writable(start.values, d, prepared) && k < |Prerequisites(prepared)| && FailsAt(d.forward, k)
    ensures Requested(prepared) != []
    ensures var (d1, outcome) := Write(d, prepared, previous, fallback, batched);
            UndoneClean(start, d1, outcome, None)
  {
    var first := Prerequisites(prepared);
    OpenAlike(d.(forward := []), d, first);
    SetAllAt(d, first, k);
    PrerequisitesReady(start, d, prepared, previous);
    CleanRollback(start, SetAll(d, first).0, prepared, previous);
  }

  lemma {:induction false} RequeryFault(start: Device, d: Device, prepared: seq<PreparedWrite>,
          previous: seq<Option<int>>, fallback: bool, batched: bool, k: nat, fault: Fault)
    requires Ready(start, d, prepared, previous) && AllReadable(prepared) && d.values == start.values
    requires Writable(start.values, d, prepared) && k < |Requested(prepared)| && !fault.Fine?
    requires FaultAt(d.forward, |Prerequisites(prepared)| + k, fault)
    ensures var (d1, outcome) := Write(d, prepared, previous, fallback, batched);
            UndoneClean(start, d1, outcome, None)
  {
    PrerequisitesBefore(start, d, prepared, previous, k, fault);
    var d1 := SetAll(d, Prerequisites(prepared)).0;
    RequeryAt(d1, Requested(prepared), k, fault);
    RequeryFrame(d1, Requested(prepared));
    var d2 := Requery(d1, Requested(prepared)).0;
    StoreReady(start, d1, d2, prepared, previous);
    CleanRollback(start, d2, prepared, previous);
    WriteAborts(d, prepared, previous, fallback, batched);
  }

  lemma {:induction false} WriteAborts(d: Device, prepared: seq<PreparedWrite>, previous: seq<Option<int>>,
          fallback: bool, batched: bool)
    requires d.Valid() && |prepared| == |previous| && Requested(prepared) != []
    requires SetAll(d, Prerequisites(prepared)).1.None?
    ensures var d1 := SetAll(d, Prerequisites(prepared)).0;
            && d1.Valid() && var (d2, available) := Requery(d1, Requested(prepared));
               && d2.Valid()
               && (!available ==> Write(d, prepared, previous, fallback, batched) ==
                                  Abort(d2, prepared, previous, None, false))
  {
    SetAllFrame(d, Prerequisites(prepared));
    RequeryFrame(SetAll(d, Prerequisites(prepared)).0, Requested(prepared));
  }

  lemma {:induction false} SingleFault(start: Device, d: Device, prepared: seq<PreparedWrite>,
          previous: seq<Option<int>>, fallback: bool)
    requires Submitting(start, d, prepared, previous, 0, Fails) && AllReadable(prepared)
    requires |Requested(prepared)| == 1
    ensures var (d1, outcome) := Submit(d, prepared, previous, fallback, false);
            UndoneClean(start, d1, outcome, None)
  {
    var writes := Requested(prepared);
    RequestedReady(start, d, prepared, previous);
    SetAllAt(d, writes, 0);
    SetAllFrame(d, writes);
    SingleWrite(d, writes);
    CleanRollback(start, SetAll(d, writes).0, prepared, previous);
  }

  /** The one fault of a run, `k` operations after its snapshot, until the requested
    * controls are all written: a write that fails, or a query that fails or says
    * that its control is not available. */
  predicate OneFault(d: Device, prepared: seq<PreparedWrite>, k: nat, fault: Fault) {
    && Writable(d.values, d, prepared) && AllReadable(prepared) && Undoables(d, d.values, prepared) && Quiet(d.undo)
    && k < Ahead(prepared) + |Requested(prepared)|
    && (fault.Fails? || (fault.Skews? && |Prerequisites(prepared)| <= k < Ahead(prepared)))
    && FaultAt(d.forward, |prepared| + k, fault)
  }

  lemma {:induction false} SubmissionFault(start: Device, d: Device, prepared: seq<PreparedWrite>,
          previous: seq<Option<int>>, fallback: bool, batched: bool, j: nat)
    requires Ready(start, d, prepared, previous) && AllReadable(prepared) && d.values == start.values
    requires Writable(start.values, d, prepared) && j < |Requested(prepared)|
    requires FailsAt(d.forward, |Prerequisites(prepared)| + (|Requested(prepared)| + j))
    requires !fallback || (!batched && |Requested(prepared)| == 1)
    ensures var (d1, outcome) := Write(d, prepared, previous, fallback, batched);
            UndoneClean(start, d1, outcome, if batched || |Requested(prepared)| > 1 then Some(j) else None)
  {
    if batched || |Requested(prepared)| > 1 {
      WriteFallsBack(start, d, prepared, previous, fallback, batched, j);
    } else {
      var d2 := Submission(start, d, prepared, previous, fallback, batched, 0);
      SingleFault(start, d2, prepared, previous, fallback);
    }
  }

  /** The number of operations before the requested controls are submitted. */
  function Ahead(prepared: seq<PreparedWrite>): nat { |Prerequisites(prepared)| + |Requested(prepared)| }

  lemma {:induction false} WriteFault(start: Device, d: Device, prepared: seq<PreparedWrite>,
          previous: seq<Option<int>>, fallback: bool, batched: bool, k: nat, fault: Fault)
    requires Ready(start, d, prepared, previous) && AllReadable(prepared) && d.values == start.values
    requires Writable(start.values, d, prepared) && FaultAt(d.forward, k, fault)
    requires k < Ahead(prepared) + |Requested(prepared)|
    requires fault.Fails? || (fault.Skews? && |Prerequisites(prepared)| <= k < Ahead(prepared))
    requires k >= Ahead(prepared) ==> !fallback || (!batched && |Requested(prepared)| == 1)
    ensures var (d1, outcome) := Write(d, prepared, previous, fallback, batched);
            UndoneClean(start, d1, outcome,
                        if k >= Ahead(prepared) && (batched || |Requested(prepared)| > 1) then Some(k - Ahead(prepared))
                        else None)
  {
    if k < |Prerequisites(prepared)| {
      PrerequisiteFault(start, d, prepared, previous, fallback, batched, k);
    } else if k < Ahead(prepared) {
      RequeryFault(start, d, prepared, previous, fallback, batched, k - |Prerequisites(prepared)|, fault);
    } else {
      SubmissionFault(start, d, prepared, previous, fallback, batched, k - Ahead(prepared));
    }
  }

  /** Any other single fault before the readback undoes the run: it ends with an
    * ordinary error, the device as it was and no restore listed; the error names
    * the write exactly when a batch failed at it. */
  lemma {:induction false} FaultUndone(d: Device, prepared: seq<PreparedWrite>, fallback: bool, batched: bool, k: nat,
          fault: Fault)
    requires OneFault(d, prepared, k, fault)
    requires k >= Ahead(prepared) ==> !fallback || (!batched && |Requested(prepared)| == 1)
    ensures var (after, outcome) := ExecutePrepared(d, prepared, fallback, batched, false);
            UndoneClean(d, after, outcome,
                        if k >= Ahead(prepared) && (batched || |Requested(prepared)| > 1) then Some(k - Ahead(prepared))
                        else None)
  {
    AnswersBefore(d.forward, |prepared| + k, |prepared|, fault);
    SnapshotReady(d, prepared);
    NodeOpens(d);
    var d0 := OpenNode(d).0;
    SnapshotBefore(d0, prepared, k, fault);
    SnapshotFrame(d0, prepared);
    var (d1, previous) := Snapshot(d0, prepared);
    NodeOpens(d1);
    var d2 := OpenNode(d1).0;
    WritableOpened(d, d2, prepared);
    WriteFault(d, d2, prepared, previous, fallback, batched, k, fault);
  }
}
