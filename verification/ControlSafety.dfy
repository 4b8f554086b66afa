/** What a control transaction promises about the device it leaves behind. */
module ControlSafety {
  import opened Wrappers
  import opened ControlModel

  // ------------------------------------------------- every restore is a restore

  /** The values read before the first write, where they could be read. */
  predicate Recorded(before: map<Id, int>, prepared: seq<PreparedWrite>, previous: seq<Option<int>>) {
    && |prepared| == |previous|
    && forall i :: 0 <= i < |prepared| && previous[i].Some? ==>
         prepared[i].descriptor.id in before && previous[i].value == before[prepared[i].descriptor.id]
  }

  lemma {:induction false} SnapshotRecords(d: Device, prepared: seq<PreparedWrite>)
    requires d.Valid()
    ensures Recorded(d.values, prepared, Snapshot(d, prepared).1)
    decreases |prepared|
  {
    if prepared != [] {
      SnapshotRecords(Get(d, Forward, prepared[0].descriptor.id).0, prepared[1..]);
    }
  }

  lemma {:induction false} FailureStays(d: Device, order: seq<Restore>, seen: seq<Id>, report: RollbackReport)
    requires d.Valid() && report.failed != []
    ensures RestoreFrom(d, order, seen, report).1.failed != []
    decreases |order|
  {
    if order != [] {
      var id := order[0].descriptor.id;
      RestoreOneValid(d, order[0]);
      var (d1, ok) := RestoreOne(d, order[0]);
      if id in seen {
        FailureStays(d, order[1..], seen, report);
      } else {
        FailureStays(d1, order[1..], seen + [id],
                     if ok then report.(restored := report.restored + [id])
                     else report.(failed := report.failed + [id]));
      }
    }
  }

  lemma {:induction false} SeenStays(d: Device, order: seq<Restore>, seen: seq<Id>, report: RollbackReport, id: Id)
    requires d.Valid() && id in seen && id in d.values
    ensures var d1 := RestoreFrom(d, order, seen, report).0; id in d1.values && d1.values[id] == d.values[id]
    decreases |order|
  {
    if order != [] {
      var next := order[0].descriptor.id;
      RestoreOneValid(d, order[0]);
      var (d1, ok) := RestoreOne(d, order[0]);
      if next in seen {
        SeenStays(d, order[1..], seen, report, id);
      } else {
        SeenStays(d1, order[1..], seen + [next],
                  if ok then report.(restored := report.restored + [next])
                  else report.(failed := report.failed + [next]), id);
      }
    }
  }

  /** The previous value of this restore, if recorded, is the one in `before`. */
  predicate Recalls(restore: Restore, before: map<Id, int>) {
    restore.previous.Some? ==>
        restore.descriptor.id in before && restore.previous.value == before[restore.descriptor.id]
  }

  predicate Back(values: map<Id, int>, before: map<Id, int>, id: Id) {
    id in values && id in before && values[id] == before[id]
  }

  lemma {:induction false} RestoreOneBack(d: Device, restore: Restore, before: map<Id, int>)
    requires d.Valid() && NoSkew(d.undo) && Recalls(restore, before)
    ensures var (d1, ok) := RestoreOne(d, restore); ok ==> Back(d1.values, before, restore.descriptor.id)
  {
    var d1 := Get(d, Undo, restore.descriptor.id).0;
    if d1.undo != [] { assert d1.undo[0] in d.undo; }
  }

  /** A rollback that reports no failure has put every listed control back. */
  lemma {:induction false} RestoreFromRestores(d: Device, order: seq<Restore>, seen: seq<Id>, report: RollbackReport,
          before: map<Id, int>)
    requires d.Valid() && NoSkew(d.undo)
    requires forall r :: r in order ==> Recalls(r, before)
    ensures var (d1, after) := RestoreFrom(d, order, seen, report);
            after.failed == [] ==> forall r :: r in order && r.descriptor.id !in seen ==>
                Back(d1.values, before, r.descriptor.id)
    decreases |order|
  {
    if order != [] {
      var id := order[0].descriptor.id;
      if id in seen {
        RestoreFromRestores(d, order[1..], seen, report, before);
      } else {
        RestoreOneValid(d, order[0]);
        RestoreOneBack(d, order[0], before);
        var (d1, ok) := RestoreOne(d, order[0]);
        var next := if ok then report.(restored := report.restored + [id]) else report.(failed := report.failed + [id]);
        RestoreFromRestores(d1, order[1..], seen + [id], next, before);
        if ok { SeenStays(d1, order[1..], seen + [id], next, id); }
        else { FailureStays(d1, order[1..], seen + [id], next); }
      }
    }
  }

  /** What holds of a transaction begun at `start` whenever it may roll back. */
  predicate Undoable(start: Device, d: Device, prepared: seq<PreparedWrite>, previous: seq<Option<int>>) {
    && d.Valid()
    && Touches(start, d, Ids(prepared))
    && Recorded(start.values, prepared, previous)
    && (NoSkew(start.undo) ==> NoSkew(d.undo))
  }

  lemma {:induction false} RollbackRestores(start: Device, d: Device, prepared: seq<PreparedWrite>,
          previous: seq<Option<int>>)
    requires Undoable(start, d, prepared, previous)
    ensures var (d1, report) := Rollback(d, prepared, previous);
            && Undoable(start, d1, prepared, previous)
            && (NoSkew(start.undo) && report.failed == [] ==> d1.values == start.values)
  {
    RollbackFrame(d, prepared, previous);
    var order := UndoOrder(prepared, previous);
    UndoOrderMembers(prepared, previous);
    if NoSkew(start.undo) {
      forall r | r in order ensures Recalls(r, start.values) {
        var i :| 0 <= i < |prepared| && r == Restore(prepared[i].descriptor, previous[i]);
      }
      RestoreFromRestores(d, order, [], RollbackReport([], []), start.values);
      var (d1, report) := Rollback(d, prepared, previous);
      if report.failed == [] {
        forall id | id in start.values ensures d1.values[id] == start.values[id] {
          if id in Ids(prepared) {
            var w :| w in prepared && w.descriptor.id == id;
            var i :| 0 <= i < |prepared| && prepared[i] == w;
            assert Restore(prepared[i].descriptor, previous[i]) in order;
          }
        }
      }
    }
  }

  /** An undone transaction whose rollback lists no failure left no trace;
    * whatever happens, only the prepared controls can differ. */
  predicate Safe(start: Device, after: Device, outcome: Outcome, prepared: seq<PreparedWrite>) {
    && Touches(start, after, Ids(prepared))
    && (outcome.OpenFailed? || outcome.NothingPrepared? || outcome.Preview? ==> after.values == start.values)
    && (outcome.Undone? && outcome.rollback.failed == [] && NoSkew(start.undo) ==> after.values == start.values)
    && (outcome.Undone? && !outcome.partial ==> outcome.rollback.failed == [])
    && !outcome.Rejected?
  }

  lemma {:induction false} VerifySafe(start: Device, d: Device, prepared: seq<PreparedWrite>,
          previous: seq<Option<int>>, batched: bool, fallbackUsed: bool, index: Option<nat>)
    requires Undoable(start, d, prepared, previous)
    ensures var (d1, outcome) := Verify(d, prepared, previous, batched, fallbackUsed, index);
            Safe(start, d1, outcome, prepared)
  {
    var (d1, isOpen) := OpenNode(d);
    if isOpen {
      ReadbackFrame(d1, prepared, previous);
      RollbackRestores(start, Readback(d1, prepared, previous).0, prepared, previous);
    }
  }

  lemma {:induction false} SetAllUndoable(start: Device, d: Device, prepared: seq<PreparedWrite>,
          previous: seq<Option<int>>, writes: seq<PreparedWrite>)
    requires Undoable(start, d, prepared, previous) && forall w :: w in writes ==> w in prepared
    ensures Undoable(start, SetAll(d, writes).0, prepared, previous)
  {
    SetAllFrame(d, writes);
  }

  lemma {:induction false} FallbackSafe(start: Device, d: Device, prepared: seq<PreparedWrite>,
          previous: seq<Option<int>>, index: nat)
    requires Undoable(start, d, prepared, previous)
    ensures var (d1, outcome) := Fallback(d, prepared, previous, index); Safe(start, d1, outcome, prepared)
  {
    PartsAreMembers(prepared);
    RollbackRestores(start, d, prepared, previous);
    var (d1, report) := Rollback(d, prepared, previous);
    if report.failed == [] {
      SetAllUndoable(start, d1, prepared, previous, Prerequisites(prepared));
      var (d2, failed) := SetAll(d1, Prerequisites(prepared));
      RollbackRestores(start, d2, prepared, previous);
      if failed.None? {
        SetAllUndoable(start, d2, prepared, previous, Requested(prepared));
        var (d3, failed) := SetAll(d2, Requested(prepared));
        RollbackRestores(start, d3, prepared, previous);
        VerifySafe(start, d3, prepared, previous, true, true, Some(index));
      }
    }
  }

  lemma {:induction false} SubmitSafe(start: Device, d: Device, prepared: seq<PreparedWrite>,
          previous: seq<Option<int>>, fallback: bool, batched: bool)
    requires Undoable(start, d, prepared, previous) && Requested(prepared) != []
    ensures var (d1, outcome) := Submit(d, prepared, previous, fallback, batched); Safe(start, d1, outcome, prepared)
  {
    PartsAreMembers(prepared);
    var writes := Requested(prepared);
    if batched || |writes| > 1 {
      SetAllUndoable(start, d, prepared, previous, writes);
      var (d1, failed) := SetBatch(d, writes);
      assert Undoable(start, d1, prepared, previous);
      RollbackRestores(start, d1, prepared, previous);
      if failed.None? {
        VerifySafe(start, d1, prepared, previous, true, false, None);
      } else {
        FallbackSafe(start, d1, prepared, previous, failed.value);
      }
    } else {
      SingleWrite(d, writes);
      SetAllUndoable(start, d, prepared, previous, writes);
      var (d1, ok) := Set(d, Forward, writes[0].descriptor, writes[0].value);
      RollbackRestores(start, d1, prepared, previous);
      VerifySafe(start, d1, prepared, previous, false, false, None);
    }
  }

  lemma {:induction false} SingleWrite(d: Device, writes: seq<PreparedWrite>)
    requires |writes| == 1
    ensures var (d1, ok) := Set(d, Forward, writes[0].descriptor, writes[0].value);
            SetAll(d, writes) == (d1, if ok then None else Some(0))
  {}

  /** Control writes are all or nothing, from any request list and under any
    * fault script: the one error that can leave a change behind without saying
    * so is `ReopenFailed`. */
  lemma {:induction false} AllOrNothing(d: Device, prepared: seq<PreparedWrite>, fallback: bool, batched: bool,
          dryRun: bool)
    requires d.Valid() && (prepared != [] ==> Requested(prepared) != [])
    ensures var (after, outcome) := ExecutePrepared(d, prepared, fallback, batched, dryRun);
            Safe(d, after, outcome, prepared)
  {
    var (d0, isOpen) := OpenNode(d);
    if prepared != [] && isOpen {
      SnapshotFrame(d0, prepared);
      SnapshotRecords(d0, prepared);
      var (d1, previous) := Snapshot(d0, prepared);
      var (d2, writable) := OpenNode(d1);
      if !dryRun && writable {
        WriteSafe(d, d2, prepared, previous, fallback, batched);
      }
    }
  }

  lemma {:induction false} WriteSafe(start: Device, d: Device, prepared: seq<PreparedWrite>,
          previous: seq<Option<int>>, fallback: bool, batched: bool)
    requires Undoable(start, d, prepared, previous) && Requested(prepared) != []
    ensures var (d1, outcome) := Write(d, prepared, previous, fallback, batched); Safe(start, d1, outcome, prepared)
  {
    PartsAreMembers(prepared);
    SetAllUndoable(start, d, prepared, previous, Prerequisites(prepared));
    var (d1, failed) := SetAll(d, Prerequisites(prepared));
    RollbackRestores(start, d1, prepared, previous);
    if failed.None? {
      RequeryFrame(d1, Requested(prepared));
      var (d2, available) := Requery(d1, Requested(prepared));
      assert Undoable(start, d2, prepared, previous);
      RollbackRestores(start, d2, prepared, previous);
      SubmitSafe(start, d2, prepared, previous, fallback, batched);
    }
  }

  /** The contract a preset asks of its standard-control stage: a clean error
    * means nothing changed.  Every clean error but `ReopenFailed` keeps it. */
  lemma {:induction false} StageContract(d: Device, prepared: seq<PreparedWrite>, fallback: bool, batched: bool,
          dryRun: bool)
    requires d.Valid() && (prepared != [] ==> Requested(prepared) != []) && NoSkew(d.undo)
    ensures var (after, outcome) := ExecutePrepared(d, prepared, fallback, batched, dryRun);
            outcome.OpenFailed? || outcome.NothingPrepared? || (outcome.Undone? && !outcome.partial) ==>
                after.values == d.values
  {
    AllOrNothing(d, prepared, fallback, batched, dryRun);
  }

  /** Undoing an applied run later, as a preset does when a later stage fails,
    * puts the device back to where that run began. */
  lemma {:induction false} UndoAfterApplied(d: Device, prepared: seq<PreparedWrite>, fallback: bool, batched: bool,
          undo: seq<Fault>)
    requires d.Valid() && Requested(prepared) != [] && NoSkew(undo)
    requires ExecutePrepared(d, prepared, fallback, batched, false).1.Applied?
    ensures var after := ExecutePrepared(d, prepared, fallback, batched, false).0.(undo := undo);
            var previous := Snapshot(OpenNode(d).0, prepared).1;
            after.Valid() && |previous| == |prepared|
            && var (back, report) := Rollback(after, prepared, previous);
                report.failed == [] ==> back.values == d.values
  {
    AllOrNothing(d, prepared, fallback, batched, false);
    SnapshotRecords(OpenNode(d).0, prepared);
    var after := ExecutePrepared(d, prepared, fallback, batched, false).0.(undo := undo);
    RollbackRestores(d.(undo := undo), after, prepared, Snapshot(OpenNode(d).0, prepared).1);
  }

  // --------------------------------------------------------- reported success

  lemma {:induction false} ReadbackTruth(d: Device, prepared: seq<PreparedWrite>, previous: seq<Option<int>>)
    requires d.Valid() && |prepared| == |previous|
    ensures AllVerified(Readback(d, prepared, previous).1) ==>
              forall w :: w in prepared && w.descriptor.readable ==>
                w.descriptor.id in d.values && d.values[w.descriptor.id] == w.value
    decreases |prepared|
  {
    if prepared != [] && AllVerified(Readback(d, prepared, previous).1) {
      var d1 := Get(d, Forward, prepared[0].descriptor.id).0;
      var d2 := Query(d1, Forward, prepared[0].descriptor.id).0;
      ReadbackTruth(d2, prepared[1..], previous[1..]);
      var changes := Readback(d, prepared, previous).1;
      var rest := Readback(d2, prepared[1..], previous[1..]).1;
      assert changes[0] in changes;
      assert changes[1..] == rest;
      assert forall c :: c in rest ==> c in changes;
      forall w | w in prepared && w.descriptor.readable
        ensures w.descriptor.id in d.values && d.values[w.descriptor.id] == w.value
      {
        if w != prepared[0] { assert w in prepared[1..]; }
      }
    }
  }

  predicate Holds(d: Device, prepared: seq<PreparedWrite>) {
    forall w :: w in prepared && w.descriptor.readable ==>
      w.descriptor.id in d.values && d.values[w.descriptor.id] == w.value
  }

  lemma {:induction false} VerifyTruth(d: Device, prepared: seq<PreparedWrite>, previous: seq<Option<int>>,
          batched: bool, fallbackUsed: bool, index: Option<nat>)
    requires d.Valid() && |prepared| == |previous|
    ensures var (d1, outcome) := Verify(d, prepared, previous, batched, fallbackUsed, index);
            outcome.Applied? ==> Holds(d1, prepared)
  {
    var (d1, isOpen) := OpenNode(d);
    ReadbackTruth(d1, prepared, previous);
    ReadbackFrame(d1, prepared, previous);
  }

  /** Reported success is true under every fault script, skewed writes
    * included: each readable prepared control, prerequisites too, holds the
    * value asked for. */
  lemma {:induction false} SuccessIsTrue(d: Device, prepared: seq<PreparedWrite>, fallback: bool, batched: bool,
          dryRun: bool)
    requires d.Valid() && (prepared != [] ==> Requested(prepared) != [])
    ensures var (after, outcome) := ExecutePrepared(d, prepared, fallback, batched, dryRun);
            outcome.Applied? ==> Holds(after, prepared)
  {
    var (d0, isOpen) := OpenNode(d);
    if prepared != [] && isOpen {
      SnapshotFrame(d0, prepared);
      var (d1, previous) := Snapshot(d0, prepared);
      var (d2, writable) := OpenNode(d1);
      if !dryRun && writable {
        SetAllFrame(d2, Prerequisites(prepared));
        var (d3, failed) := SetAll(d2, Prerequisites(prepared));
        if failed.None? {
          RequeryFrame(d3, Requested(prepared));
          SubmitTruth(Requery(d3, Requested(prepared)).0, prepared, previous, fallback, batched);
        }
      }
    }
  }

  lemma {:induction false} FallbackTruth(d: Device, prepared: seq<PreparedWrite>, previous: seq<Option<int>>,
          index: nat)
    requires d.Valid() && |prepared| == |previous|
    ensures var (d1, outcome) := Fallback(d, prepared, previous, index); outcome.Applied? ==> Holds(d1, prepared)
  {
    RollbackFrame(d, prepared, previous);
    var d1 := Rollback(d, prepared, previous).0;
    SetAllFrame(d1, Prerequisites(prepared));
    var d2 := SetAll(d1, Prerequisites(prepared)).0;
    SetAllFrame(d2, Requested(prepared));
    VerifyTruth(SetAll(d2, Requested(prepared)).0, prepared, previous, true, true, Some(index));
  }

  lemma {:induction false} SubmitTruth(d: Device, prepared: seq<PreparedWrite>, previous: seq<Option<int>>,
          fallback: bool, batched: bool)
    requires d.Valid() && |prepared| == |previous| && Requested(prepared) != []
    ensures var (d1, outcome) := Submit(d, prepared, previous, fallback, batched);
            outcome.Applied? ==> Holds(d1, prepared)
  {
    var writes := Requested(prepared);
    SetAllFrame(d, writes);
    if batched || |writes| > 1 {
      var (d1, failed) := SetBatch(d, writes);
      if failed.None? {
        VerifyTruth(d1, prepared, previous, true, false, None);
      } else if fallback {
        FallbackTruth(d1, prepared, previous, failed.value);
      }
    } else {
      SingleWrite(d, writes);
      VerifyTruth(SetAll(d, writes).0, prepared, previous, false, false, None);
    }
  }

  /** Two different values for one readable control can never both be applied. */
  lemma {:induction false} ConflictNeverSucceeds(d: Device, prepared: seq<PreparedWrite>, fallback: bool,
          batched: bool, dryRun: bool, i: nat, j: nat)
    requires d.Valid() && Requested(prepared) != []
    requires i < j < |prepared| && prepared[i].descriptor == prepared[j].descriptor
             && prepared[i].value != prepared[j].value
    requires prepared[i].descriptor.readable
    ensures !ExecutePrepared(d, prepared, fallback, batched, dryRun).1.Applied?
  {
    SuccessIsTrue(d, prepared, fallback, batched, dryRun);
    assert prepared[i] in prepared && prepared[j] in prepared;
  }

  // ------------------------------------------------- what a full write leaves

  function Written(values: map<Id, int>, writes: seq<PreparedWrite>): map<Id, int>
    decreases |writes|
  {
    if writes == [] then values
    else Written(values[writes[0].descriptor.id := writes[0].value], writes[1..])
  }

  lemma {:induction false} WrittenAppend(values: map<Id, int>, a: seq<PreparedWrite>, b: seq<PreparedWrite>)
    ensures Written(values, a + b) == Written(Written(values, a), b)
    decreases |a|
  {
    if a == [] {
      assert a + b == b;
    } else {
      assert (a + b)[1..] == a[1..] + b;
      WrittenAppend(values[a[0].descriptor.id := a[0].value], a[1..], b);
    }
  }

  lemma {:induction false} SetAllWrites(d: Device, writes: seq<PreparedWrite>)
    requires NoSkew(d.forward)
    ensures var (d1, failed) := SetAll(d, writes); failed.None? ==> d1.values == Written(d.values, writes)
    decreases |writes|
  {
    if writes != [] {
      var (d1, ok) := Set(d, Forward, writes[0].descriptor, writes[0].value);
      if ok {
        if d.forward != [] { assert d.forward[0] in d.forward; }
        SetAllWrites(d1, writes[1..]);
      }
    }
  }

  function InOrder(prepared: seq<PreparedWrite>): seq<PreparedWrite> {
    Prerequisites(prepared) + Requested(prepared)
  }

  predicate Finished(start: Device, after: Device, outcome: Outcome, prepared: seq<PreparedWrite>) {
    outcome.Applied? || outcome.ReopenFailed? ==> after.values == Written(start.values, InOrder(prepared))
  }

  lemma {:induction false} VerifyKeeps(d: Device, prepared: seq<PreparedWrite>, previous: seq<Option<int>>,
          batched: bool, fallbackUsed: bool, index: Option<nat>)
    requires d.Valid() && |prepared| == |previous|
    ensures var (d1, outcome) := Verify(d, prepared, previous, batched, fallbackUsed, index);
            outcome.Applied? || outcome.ReopenFailed? ==> d1.values == d.values
  {
    var (d1, isOpen) := OpenNode(d);
    ReadbackFrame(d1, prepared, previous);
  }

  lemma {:induction false} SubmitFinished(start: Device, d: Device, prepared: seq<PreparedWrite>,
          previous: seq<Option<int>>, fallback: bool, batched: bool)
    requires Undoable(start, d, prepared, previous) && Requested(prepared) != []
    requires NoSkew(d.forward) && NoSkew(start.undo)
    requires d.values == Written(start.values, Prerequisites(prepared))
    ensures var (d1, outcome) := Submit(d, prepared, previous, fallback, batched);
            Finished(start, d1, outcome, prepared)
  {
    var writes := Requested(prepared);
    WrittenAppend(start.values, Prerequisites(prepared), writes);
    SetAllWrites(d, writes);
    SetAllFrame(d, writes);
    PartsAreMembers(prepared);
    if batched || |writes| > 1 {
      var (d1, failed) := SetBatch(d, writes);
      if failed.None? {
        VerifyKeeps(d1, prepared, previous, true, false, None);
      } else if fallback {
        SetAllUndoable(start, d, prepared, previous, writes);
        assert Undoable(start, d1, prepared, previous) && NoSkew(d1.forward);
        FallbackFinished(start, d1, prepared, previous, failed.value);
      }
    } else {
      SingleWrite(d, writes);
      VerifyKeeps(SetAll(d, writes).0, prepared, previous, false, false, None);
    }
  }

  lemma {:induction false} FallbackFinished(start: Device, d: Device, prepared: seq<PreparedWrite>,
          previous: seq<Option<int>>, index: nat)
    requires Undoable(start, d, prepared, previous) && NoSkew(d.forward) && NoSkew(start.undo)
    ensures var (d1, outcome) := Fallback(d, prepared, previous, index); Finished(start, d1, outcome, prepared)
  {
    RollbackRestores(start, d, prepared, previous);
    RollbackFrame(d, prepared, previous);
    var (d1, report) := Rollback(d, prepared, previous);
    if report.failed == [] {
      SetAllFrame(d1, Prerequisites(prepared));
      SetAllWrites(d1, Prerequisites(prepared));
      var (d2, failed) := SetAll(d1, Prerequisites(prepared));
      if failed.None? {
        SetAllFrame(d2, Requested(prepared));
        SetAllWrites(d2, Requested(prepared));
        WrittenAppend(start.values, Prerequisites(prepared), Requested(prepared));
        VerifyKeeps(SetAll(d2, Requested(prepared)).0, prepared, previous, true, true, Some(index));
      }
    }
  }

  /** On an exact device every finished write sequence, batched, single or
    * individual after a failed batch, leaves the plain result of the writes. */
  lemma {:induction false} FinishedWrites(d: Device, prepared: seq<PreparedWrite>, fallback: bool, batched: bool,
          dryRun: bool)
    requires d.Valid() && (prepared != [] ==> Requested(prepared) != [])
    requires NoSkew(d.forward) && NoSkew(d.undo)
    ensures var (after, outcome) := ExecutePrepared(d, prepared, fallback, batched, dryRun);
            Finished(d, after, outcome, prepared)
  {
    var (d0, isOpen) := OpenNode(d);
    if prepared != [] && isOpen {
      SnapshotFrame(d0, prepared);
      SnapshotRecords(d0, prepared);
      var (d1, previous) := Snapshot(d0, prepared);
      var (d2, writable) := OpenNode(d1);
      if !dryRun && writable {
        PartsAreMembers(prepared);
        SetAllUndoable(d, d2, prepared, previous, Prerequisites(prepared));
        SetAllFrame(d2, Prerequisites(prepared));
        SetAllWrites(d2, Prerequisites(prepared));
        var (d3, failed) := SetAll(d2, Prerequisites(prepared));
        if failed.None? {
          RequeryFrame(d3, Requested(prepared));
          SubmitFinished(d, Requery(d3, Requested(prepared)).0, prepared, previous, fallback, batched);
        }
      }
    }
  }

  /** Individual fallback refines the batch: two runs on the same device, one
    * whose batch went through and one that undid a failed batch and wrote one
    * by one, end in the same device state. */
  lemma {:induction false} FallbackRefinesBatch(d: Device, e: Device, prepared: seq<PreparedWrite>)
    requires d.Valid() && Requested(prepared) != [] && SameStore(d, e)
    requires NoSkew(d.forward) && NoSkew(d.undo) && NoSkew(e.forward) && NoSkew(e.undo)
    requires var outcome := ExecutePrepared(d, prepared, true, true, false).1; outcome.Applied? && outcome.fallbackUsed
    requires var outcome := ExecutePrepared(e, prepared, true, true, false).1; outcome.Applied? && !outcome.fallbackUsed
    ensures ExecutePrepared(d, prepared, true, true, false).0.values ==
            ExecutePrepared(e, prepared, true, true, false).0.values
  {
    FinishedWrites(d, prepared, true, true, false);
    FinishedWrites(e, prepared, true, true, false);
  }

  /** When the verifying node cannot be opened the writes stay: the device is
    * as it was exactly when they asked for nothing new. */
  lemma {:induction false} ReopenFailureExact(d: Device, prepared: seq<PreparedWrite>, fallback: bool, batched: bool)
    requires d.Valid() && Requested(prepared) != []
    requires NoSkew(d.forward) && NoSkew(d.undo)
    requires ExecutePrepared(d, prepared, fallback, batched, false).1.ReopenFailed?
    ensures ExecutePrepared(d, prepared, fallback, batched, false).0.values == d.values
            <==> Written(d.values, InOrder(prepared)) == d.values
  {
    FinishedWrites(d, prepared, fallback, batched, false);
  }

  /** A device whose third opening fails after one control was written. */
  lemma {:induction false} ReopenFailureLeavesChange() returns (d: Device, prepared: seq<PreparedWrite>)
    ensures d.Valid() && Requested(prepared) != [] && NoSkew(d.forward) && NoSkew(d.undo)
    ensures var (after, outcome) := ExecutePrepared(d, prepared, false, false, false);
            outcome.ReopenFailed? && after.values != d.values
  {
    var control := Descriptor(7, true, true, 0, 100, 1);
    d := Device(map[7 := control], true, map[7 := 10], [], [], [true, true, false], []);
    var w := PreparedWrite(control, 20, false);
    prepared := [w];
    var d0 := OpenNode(d).0;
    assert Prerequisites([w]) == [] && Requested([w]) == [w];
    assert [w][1..] == [];
    assert Get(d0, Forward, 7) == (d0, Some(10));
    assert Snapshot(d0, []) == (d0, []);
    assert Snapshot(d0, [w]).1 == [Some(10)];
    var d1 := OpenNode(d0).0;
    assert Requery(d1, [w]) == (d1, true) by {
      assert Requery(d1, []) == (d1, true) && ManualDependencies(7) == [];
    }
    assert SetAll(d1, []) == (d1, None);
    var d2 := Set(d1, Forward, control, 20).0;
    assert d2.values[7] == 20;
  }
}
