/** What the report of a control run says, and that undoing the run later with
  * nothing but its report brings the device back. */
module ControlReport {
  import opened Wrappers
  import opened ControlModel
  import opened ControlSafety
  import opened ControlOrder

  /** One line of a report is about its write: the value held before, where it
    * could be read, and the one held after. */
  predicate Told(before: map<Id, int>, after: map<Id, int>, w: PreparedWrite, c: Change) {
    && c.id == w.descriptor.id && c.requested == w.value && c.prerequisite == w.prerequisite
    && (c.previous.Some? ==> c.id in before && c.previous.value == before[c.id])
    && (c.observed.Some? ==> c.id in after && c.observed.value == after[c.id])
  }

  predicate AllTold(before: map<Id, int>, after: map<Id, int>, prepared: seq<PreparedWrite>, changes: seq<Change>) {
    |changes| == |prepared| && forall i :: 0 <= i < |prepared| ==> Told(before, after, prepared[i], changes[i])
  }

  /** A line is verified when the value asked for was observed, or nothing can be. */
  predicate Judged(prepared: seq<PreparedWrite>, changes: seq<Change>) {
    && |changes| == |prepared|
    && forall i :: 0 <= i < |prepared| ==>
         (changes[i].verified <==>
             changes[i].observed == Some(changes[i].requested) || !prepared[i].descriptor.readable)
  }

  /** The lines carry these previous values. */
  predicate Carries(changes: seq<Change>, previous: seq<Option<int>>) {
    |changes| == |previous| && forall i :: 0 <= i < |changes| ==> changes[i].previous == previous[i]
  }

  lemma {:induction false} ReadbackTells(before: map<Id, int>, d: Device, prepared: seq<PreparedWrite>,
          previous: seq<Option<int>>)
    requires d.Valid() && Recorded(before, prepared, previous)
    ensures var changes := Readback(d, prepared, previous).1;
            AllTold(before, d.values, prepared, changes) && Carries(changes, previous) && Judged(prepared, changes)
    decreases |prepared|
  {
    if prepared != [] {
      var d1 := Get(d, Forward, prepared[0].descriptor.id).0;
      var d2 := Query(d1, Forward, prepared[0].descriptor.id).0;
      assert Recorded(before, prepared[1..], previous[1..]);
      ReadbackTells(before, d2, prepared[1..], previous[1..]);
    }
  }

  /** An applied run tells the truth about every write, with the recorded values. */
  predicate AppliedTells(before: map<Id, int>, after: Device, prepared: seq<PreparedWrite>,
          previous: seq<Option<int>>, outcome: Outcome) {
    outcome.Applied? ==>
      && AllTold(before, after.values, prepared, outcome.changes) && Carries(outcome.changes, previous)
      && AllVerified(outcome.changes) && Judged(prepared, outcome.changes)
  }

  lemma {:induction false} VerifyTells(before: map<Id, int>, d: Device, prepared: seq<PreparedWrite>,
          previous: seq<Option<int>>, batched: bool, fallbackUsed: bool, index: Option<nat>)
    requires d.Valid() && Recorded(before, prepared, previous)
    ensures var (d1, outcome) := Verify(d, prepared, previous, batched, fallbackUsed, index);
            AppliedTells(before, d1, prepared, previous, outcome)
  {
    var (d1, isOpen) := OpenNode(d);
    ReadbackTells(before, d1, prepared, previous);
    ReadbackFrame(d1, prepared, previous);
  }

  lemma {:induction false} FallbackTells(before: map<Id, int>, d: Device, prepared: seq<PreparedWrite>,
          previous: seq<Option<int>>, index: nat)
    requires d.Valid() && Recorded(before, prepared, previous)
    ensures var (d1, outcome) := Fallback(d, prepared, previous, index);
            AppliedTells(before, d1, prepared, previous, outcome)
  {
    FallbackUnrolls(d, prepared, previous, index);
    var d1 := Rollback(d, prepared, previous).0;
    var d2 := SetAll(d1, Prerequisites(prepared)).0;
    VerifyTells(before, SetAll(d2, Requested(prepared)).0, prepared, previous, true, true, Some(index));
  }

  lemma {:induction false} SubmitTells(before: map<Id, int>, d: Device, prepared: seq<PreparedWrite>,
          previous: seq<Option<int>>, fallback: bool, batched: bool)
    requires d.Valid() && Recorded(before, prepared, previous) && Requested(prepared) != []
    ensures var (d1, outcome) := Submit(d, prepared, previous, fallback, batched);
            AppliedTells(before, d1, prepared, previous, outcome)
  {
    var writes := Requested(prepared);
    SetAllFrame(d, writes);
    if batched || |writes| > 1 {
      var (d1, failed) := SetBatch(d, writes);
      if failed.None? {
        VerifyTells(before, d1, prepared, previous, true, false, None);
      } else if fallback {
        FallbackTells(before, d1, prepared, previous, failed.value);
      }
    } else {
      SingleWrite(d, writes);
      VerifyTells(before, SetAll(d, writes).0, prepared, previous, false, false, None);
    }
  }

  lemma {:induction false} WriteTells(before: map<Id, int>, d: Device, prepared: seq<PreparedWrite>,
          previous: seq<Option<int>>, fallback: bool, batched: bool)
    requires d.Valid() && Recorded(before, prepared, previous) && Requested(prepared) != []
    ensures var (d1, outcome) := Write(d, prepared, previous, fallback, batched);
            AppliedTells(before, d1, prepared, previous, outcome)
  {
    SetAllFrame(d, Prerequisites(prepared));
    var d1 := SetAll(d, Prerequisites(prepared)).0;
    RequeryFrame(d1, Requested(prepared));
    SubmitTells(before, Requery(d1, Requested(prepared)).0, prepared, previous, fallback, batched);
  }

  lemma {:induction false} RunTells(d: Device, prepared: seq<PreparedWrite>, fallback: bool, batched: bool,
          dryRun: bool)
    requires d.Valid() && Requested(prepared) != []
    ensures var (after, outcome) := ExecutePrepared(d, prepared, fallback, batched, dryRun);
            && AppliedTells(d.values, after, prepared, Snapshot(OpenNode(d).0, prepared).1, outcome)
            && (outcome.Applied? ==> !dryRun)
  {
    var (d0, isOpen) := OpenNode(d);
    if prepared != [] && isOpen {
      SnapshotFrame(d0, prepared);
      SnapshotRecords(d0, prepared);
      var (d1, previous) := Snapshot(d0, prepared);
      var (d2, writable) := OpenNode(d1);
      if !dryRun && writable { WriteTells(d.values, d2, prepared, previous, fallback, batched); }
    }
  }

  /** A preview: what is held, as previous and as observed, and nothing verified. */
  lemma {:induction false} PreviewTells(d: Device, prepared: seq<PreparedWrite>, fallback: bool, batched: bool)
    requires d.Valid() && Requested(prepared) != []
    ensures var (after, outcome) := ExecutePrepared(d, prepared, fallback, batched, true);
            outcome.Preview? ==>
              && AllTold(d.values, d.values, prepared, outcome.changes) && after.values == d.values
              && forall c :: c in outcome.changes ==> c.observed == c.previous && !c.verified
  {
    var (d0, isOpen) := OpenNode(d);
    if isOpen {
      SnapshotFrame(d0, prepared);
      SnapshotRecords(d0, prepared);
    }
  }

  lemma {:induction false} SnapshotReads(d: Device, prepared: seq<PreparedWrite>)
    requires d.Valid() && Matching(d, prepared)
    ensures var previous := Snapshot(d, prepared).1;
            forall i :: 0 <= i < |prepared| ==>
              && (previous[i].Some? ==> prepared[i].descriptor.readable)
              && (Answers(d.forward, |prepared|) && prepared[i].descriptor.readable ==> previous[i].Some?)
    decreases |prepared|
  {
    if prepared != [] {
      var d1 := Get(d, Forward, prepared[0].descriptor.id).0;
      assert prepared[0] in prepared;
      SnapshotReads(d1, prepared[1..]);
    }
  }

  /** The report of an applied run is about the prepared writes, one line each and
    * in order.  A previous value is the one held before the run, and there is one
    * for every readable control when the snapshot was answered; an observed value
    * is the one held now, and there is one for every readable control. */
  lemma {:induction false} AppliedReport(d: Device, prepared: seq<PreparedWrite>, fallback: bool, batched: bool,
          dryRun: bool)
    requires d.Valid() && Requested(prepared) != [] && Matching(d, prepared)
    ensures var (after, outcome) := ExecutePrepared(d, prepared, fallback, batched, dryRun);
            outcome.Applied? ==>
              && !dryRun && |outcome.changes| == |prepared|
              && forall i :: 0 <= i < |prepared| ==>
                   var c, w := outcome.changes[i], prepared[i];
                   && c.id == w.descriptor.id && c.requested == w.value && c.prerequisite == w.prerequisite
                       && c.verified
                   && (c.previous.Some? ==> c.id in d.values && c.previous.value == d.values[c.id])
                   && (c.observed.Some? ==> c.id in after.values && c.observed.value == after.values[c.id])
                   && (c.previous.Some? ==> w.descriptor.readable)
                   && (w.descriptor.readable && Answers(d.forward, |prepared|) ==> c.previous.Some?)
                   && (w.descriptor.readable ==> c.observed == Some(w.value))
  {
    RunTells(d, prepared, fallback, batched, dryRun);
    SnapshotReads(OpenNode(d).0, prepared);
    var changes := ExecutePrepared(d, prepared, fallback, batched, dryRun).1;
    if changes.Applied? {
      forall i | 0 <= i < |changes.changes| ensures changes.changes[i].verified {
        assert changes.changes[i] in changes.changes;
      }
    }
  }

  // ------------------------------------------------------- undoing by the report

  /** The writes and the old values that a later undo takes from the report. */
  function ReportedWrites(d: Device, changes: seq<Change>): (r: seq<PreparedWrite>)
    requires forall c :: c in changes ==> c.id in d.info
    ensures |r| == |changes|
  {
    if changes == [] then []
    else [PreparedWrite(d.info[changes[0].id], changes[0].requested, changes[0].prerequisite)]
         + ReportedWrites(d, changes[1..])
  }

  function ReportedPrevious(changes: seq<Change>): (r: seq<Option<int>>)
    ensures |r| == |changes| && forall i :: 0 <= i < |r| ==> r[i] == changes[i].previous
  {
    if changes == [] then [] else [changes[0].previous] + ReportedPrevious(changes[1..])
  }

  /** The undo of an applied run: it opens the node, and knows only the report. */
  function RestoreReport(d: Device, changes: seq<Change>): (Device, RollbackReport)
    requires d.Valid() && forall c :: c in changes ==> c.id in d.info
  {
    Rollback(d, ReportedWrites(d, changes), ReportedPrevious(changes))
  }

  lemma {:induction false} ReportedAre(d: Device, prepared: seq<PreparedWrite>, changes: seq<Change>)
    requires Matching(d, prepared) && |changes| == |prepared|
    requires forall i :: 0 <= i < |prepared| ==>
               && changes[i].id == prepared[i].descriptor.id && changes[i].requested == prepared[i].value
               && changes[i].prerequisite == prepared[i].prerequisite
    ensures forall c :: c in changes ==> c.id in d.info
    ensures ReportedWrites(d, changes) == prepared
    decreases |prepared|
  {
    if prepared != [] {
      assert prepared[0] in prepared;
      ReportedAre(d, prepared[1..], changes[1..]);
    }
  }

  /** Undoing an applied run later, as a preset does when a later stage fails: from
    * the report alone, an undo that lists no failure ends where the run began. */
  lemma {:induction false} UndoAfterApplied(d: Device, prepared: seq<PreparedWrite>, fallback: bool, batched: bool,
          undo: seq<Fault>)
    requires d.Valid() && Requested(prepared) != [] && Matching(d, prepared) && NoSkew(undo)
    requires ExecutePrepared(d, prepared, fallback, batched, false).1.Applied?
    ensures var (after, outcome) := ExecutePrepared(d, prepared, fallback, batched, false);
            && after.Valid() && (forall c :: c in outcome.changes ==> c.id in after.info)
            && var (back, report) := RestoreReport(after.(undo := undo), outcome.changes);
               report.failed == [] ==> back.values == d.values
  {
    var (after, outcome) := ExecutePrepared(d, prepared, fallback, batched, false);
    RunTells(d, prepared, fallback, batched, false);
    AllOrNothing(d, prepared, fallback, batched, false);
    SnapshotRecords(OpenNode(d).0, prepared);
    var previous := Snapshot(OpenNode(d).0, prepared).1;
    ReportedAre(after, prepared, outcome.changes);
    ReportedAre(after.(undo := undo), prepared, outcome.changes);
    assert ReportedPrevious(outcome.changes) == previous;
    RollbackRestores(d.(undo := undo), after.(undo := undo), prepared, previous);
  }

  /** And on a gated driver, without faults in the undo, with distinct controls and
    * acceptable old values, that undo reports truly, and restores every readable
    * control unless a late parent that cannot be read holds its gate shut. */
  lemma {:induction false} QuietUndoAfterApplied(d: Device, prepared: seq<PreparedWrite>, fallback: bool,
          batched: bool, undo: seq<Fault>)
    requires d.Valid() && Requested(prepared) != []
    requires Distinct(InOrder(prepared)) && Undoables(d, d.values, prepared)
    requires Answers(d.forward, |prepared|) && Quiet(d.undo) && Quiet(undo)
    requires ExecutePrepared(d, prepared, fallback, batched, false).1.Applied?
    ensures var (after, outcome) := ExecutePrepared(d, prepared, fallback, batched, false);
            && after.Valid() && (forall c :: c in outcome.changes ==> c.id in after.info)
            && var (back, report) := RestoreReport(after.(undo := undo), outcome.changes);
               Retraced(d, back, prepared, report)
  {
    var (after, outcome) := ExecutePrepared(d, prepared, fallback, batched, false);
    AppliedStays(d, prepared, fallback, batched);
    var previous := Snapshot(OpenNode(d).0, prepared).1;
    AppliedReady(d, after, prepared, previous, undo);
    ReportUndone(d.(undo := undo), after.(undo := undo), prepared, previous, outcome.changes);
    RetracedAlike(d.(undo := undo), d, RestoreReport(after.(undo := undo), outcome.changes).0, prepared,
                  RestoreReport(after.(undo := undo), outcome.changes).1);
  }

  lemma {:induction false} ReportUndone(start: Device, d: Device, prepared: seq<PreparedWrite>,
          previous: seq<Option<int>>, changes: seq<Change>)
    requires Ready(start, d, prepared, previous) && Matching(d, prepared)
    requires AllTold(start.values, d.values, prepared, changes) && Carries(changes, previous)
    ensures forall c :: c in changes ==> c.id in d.info
    ensures var (back, report) := RestoreReport(d, changes); Retraced(start, back, prepared, report)
  {
    ReportedAre(d, prepared, changes);
    assert ReportedPrevious(changes) == previous;
    RollbackComplete(start, d, prepared, previous);
  }

  lemma {:induction false} RetracedAlike(start: Device, other: Device, after: Device, prepared: seq<PreparedWrite>,
          report: RollbackReport)
    requires Retraced(start, after, prepared, report) && other.info == start.info && other.values == start.values
    ensures Retraced(other, after, prepared, report)
  {
    forall w | w in InOrder(prepared) ensures ReportsTruly(other, after, InOrder(prepared), report.failed, w) {
      assert ReportsTruly(start, after, InOrder(prepared), report.failed, w);
    }
  }

  /** What an applied run leaves for its later undo. */
  lemma {:induction false} AppliedStays(d: Device, prepared: seq<PreparedWrite>, fallback: bool, batched: bool)
    requires d.Valid() && Requested(prepared) != []
    requires Distinct(InOrder(prepared)) && Undoables(d, d.values, prepared)
    requires Answers(d.forward, |prepared|) && Quiet(d.undo)
    requires ExecutePrepared(d, prepared, fallback, batched, false).1.Applied?
    ensures var (after, outcome) := ExecutePrepared(d, prepared, fallback, batched, false);
            var previous := Snapshot(OpenNode(d).0, prepared).1;
            && after.Valid() && after.info == d.info && Touches(d, after, Ids(prepared))
            && Retraceable(d.values, after, InOrder(prepared), |InOrder(prepared)|)
            && AllTold(d.values, after.values, prepared, outcome.changes) && Carries(outcome.changes, previous)
            && Recorded(d.values, prepared, previous)
            && forall i :: 0 <= i < |prepared| ==>
                 prepared[i].descriptor.id in d.values && previous[i] == Kept(prepared[i], d.values).previous
  {
    RunTells(d, prepared, fallback, batched, false);
    AllOrNothing(d, prepared, fallback, batched, false);
    RollbackReportsTruly(d, prepared, fallback, batched);
    SnapshotRecords(OpenNode(d).0, prepared);
    SnapshotComplete(OpenNode(d).0, prepared);
  }

  lemma {:induction false} AppliedReady(d: Device, after: Device, prepared: seq<PreparedWrite>,
          previous: seq<Option<int>>, undo: seq<Fault>)
    requires d.Valid() && Distinct(InOrder(prepared)) && Undoables(d, d.values, prepared) && Quiet(undo)
    requires after.Valid() && after.info == d.info && Touches(d, after, Ids(prepared))
    requires Retraceable(d.values, after, InOrder(prepared), |InOrder(prepared)|)
    requires Recorded(d.values, prepared, previous)
    requires forall i :: 0 <= i < |prepared| ==>
               prepared[i].descriptor.id in d.values && previous[i] == Kept(prepared[i], d.values).previous
    ensures Ready(d.(undo := undo), after.(undo := undo), prepared, previous)
  {
    var start, now := d.(undo := undo), after.(undo := undo);
    UndoablesInOrder(start, d.values, prepared);
    QuietIsExact(undo);
    UnwrittenReady(start, start, prepared, previous);
    RetraceableStore(d.values, after, now, InOrder(prepared), |InOrder(prepared)|);
    StillReady(start, start, now, prepared, previous);
  }
}
