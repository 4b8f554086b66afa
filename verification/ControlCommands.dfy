/** What reaches the driver: only values that the control it names admits, and only
  * controls that were asked for. */
module ControlCommands {
  import opened Wrappers
  import opened ControlModel
  import opened ControlSafety
  import opened ControlOrder
  import opened ControlPlan

  /** A control admits a value that it can be written with: in its range and a
    * whole number of steps above its minimum. */
  ghost predicate Admits(descriptor: Descriptor, value: int) {
    && descriptor.writable && descriptor.minimum <= value <= descriptor.maximum
    && (descriptor.step > 0 ==> exists k :: value == descriptor.minimum + k * descriptor.step)
  }

  lemma {:induction false} TimesMonotone(x: int, y: int, d: nat)
    requires x <= y
    ensures x * d <= y * d
  {
  }

  lemma {:induction false} MultipleMod(k: int, d: nat)
    requires d > 0
    ensures (k * d) % d == 0
  {
    var n := k * d;
    assert n == (n / d) * d + n % d;
    if k > n / d { TimesMonotone(n / d + 1, k, d); }
    if k < n / d { TimesMonotone(k + 1, n / d, d); }
  }

  lemma {:induction false} AcceptsExact(descriptor: Descriptor, value: int)
    ensures descriptor.Accepts(value) <==> Admits(descriptor, value)
  {
    var d, n := descriptor.step, value - descriptor.minimum;
    if d > 0 && n % d == 0 { assert value == descriptor.minimum + (n / d) * d; }
    if d > 0 && exists k :: value == descriptor.minimum + k * d {
      var k :| value == descriptor.minimum + k * d;
      MultipleMod(k, d);
    }
  }

  // ------------------------------------------------------------------- the commands

  ghost predicate Covered(prepared: seq<PreparedWrite>, command: Command) {
    exists w :: w in prepared && w.descriptor.id == command.id && Admits(w.descriptor, command.value)
  }

  /** The commands sent on the way from one state to another are all covered. */
  ghost predicate Sends(before: Device, after: Device, prepared: seq<PreparedWrite>) {
    && before.log <= after.log
    && forall k :: |before.log| <= k < |after.log| ==> Covered(prepared, after.log[k])
  }

  lemma {:induction false} SendsOn(a: Device, b: Device, c: Device, prepared: seq<PreparedWrite>)
    requires Sends(a, b, prepared) && Sends(b, c, prepared)
    ensures Sends(a, c, prepared)
  {
    forall k | |a.log| <= k < |c.log| ensures Covered(prepared, c.log[k]) {
      if k < |b.log| { assert c.log[k] == b.log[k]; }
    }
  }

  lemma {:induction false} SetSends(d: Device, phase: Phase, w: PreparedWrite, value: int,
          prepared: seq<PreparedWrite>)
    requires w in prepared
    ensures Sends(d, Set(d, phase, w.descriptor, value).0, prepared)
  {
    AcceptsExact(w.descriptor, value);
    if w.descriptor.Accepts(value) { assert Covered(prepared, Command(w.descriptor.id, value)); }
  }

  lemma {:induction false} SetAllSends(d: Device, writes: seq<PreparedWrite>, prepared: seq<PreparedWrite>)
    requires forall w :: w in writes ==> w in prepared
    ensures Sends(d, SetAll(d, writes).0, prepared)
    decreases |writes|
  {
    if writes != [] {
      var d1 := Set(d, Forward, writes[0].descriptor, writes[0].value).0;
      assert writes[0] in writes;
      SetSends(d, Forward, writes[0], writes[0].value, prepared);
      SetAllSends(d1, writes[1..], prepared);
      SendsOn(d, d1, SetAll(d1, writes[1..]).0, prepared);
    }
  }

  lemma {:induction false} RestoreOneSends(d: Device, restore: Restore, prepared: seq<PreparedWrite>)
    requires d.Valid() && exists w :: w in prepared && w.descriptor == restore.descriptor
    ensures Sends(d, RestoreOne(d, restore).0, prepared)
  {
    if restore.previous.Some? {
      var w :| w in prepared && w.descriptor == restore.descriptor;
      SetSends(Get(d, Undo, restore.descriptor.id).0, Undo, w, restore.previous.value, prepared);
    }
  }

  predicate Knows(prepared: seq<PreparedWrite>, order: seq<Restore>) {
    forall r :: r in order ==> exists w :: w in prepared && w.descriptor == r.descriptor
  }

  lemma {:induction false} RestoreFromSends(d: Device, order: seq<Restore>, seen: seq<Id>, report: RollbackReport,
          prepared: seq<PreparedWrite>)
    requires d.Valid() && Knows(prepared, order)
    ensures Sends(d, RestoreFrom(d, order, seen, report).0, prepared)
    decreases |order|
  {
    if order != [] {
      var id := order[0].descriptor.id;
      assert order[0] in order && Knows(prepared, order[1..]);
      if id in seen {
        RestoreFromSends(d, order[1..], seen, report, prepared);
      } else {
        RestoreOneSends(d, order[0], prepared);
        RestoreOneValid(d, order[0]);
        RestoreFromUnrolls(d, order[0], order[1..], seen, report);
        assert [order[0]] + order[1..] == order;
        var (d1, ok) := RestoreOne(d, order[0]);
        RestoreFromSends(d1, order[1..], seen + [id], Noted(report, id, ok), prepared);
        SendsOn(d, d1, RestoreFrom(d1, order[1..], seen + [id], Noted(report, id, ok)).0, prepared);
      }
    }
  }

  lemma {:induction false} RollbackSends(d: Device, prepared: seq<PreparedWrite>, previous: seq<Option<int>>)
    requires d.Valid() && |prepared| == |previous|
    ensures Sends(d, Rollback(d, prepared, previous).0, prepared)
  {
    var order := UndoOrder(prepared, previous);
    UndoOrderMembers(prepared, previous);
    forall r | r in order ensures exists w :: w in prepared && w.descriptor == r.descriptor {
      var i :| 0 <= i < |prepared| && r == ControlModel.Restore(prepared[i].descriptor, previous[i]);
      assert prepared[i] in prepared;
    }
    RestoreFromSends(d, order, [], RollbackReport([], []), prepared);
  }

  lemma {:induction false} ReadbackSends(d: Device, prepared: seq<PreparedWrite>, previous: seq<Option<int>>)
    requires d.Valid() && |prepared| == |previous|
    ensures Readback(d, prepared, previous).0.log == d.log
    decreases |prepared|
  {
    if prepared != [] {
      var d1 := Get(d, Forward, prepared[0].descriptor.id).0;
      ReadbackSends(Query(d1, Forward, prepared[0].descriptor.id).0, prepared[1..], previous[1..]);
    }
  }

  lemma {:induction false} RequerySends(d: Device, requested: seq<PreparedWrite>)
    requires d.Valid()
    ensures Requery(d, requested).0.log == d.log
    decreases |requested|
  {
    if requested != [] { RequerySends(Query(d, Forward, requested[0].descriptor.id).0, requested[1..]); }
  }

  lemma {:induction false} VerifySends(start: Device, d: Device, prepared: seq<PreparedWrite>,
          previous: seq<Option<int>>, batched: bool, fallbackUsed: bool, index: Option<nat>)
    requires d.Valid() && |prepared| == |previous| && Sends(start, d, prepared)
    ensures Sends(start, Verify(d, prepared, previous, batched, fallbackUsed, index).0, prepared)
  {
    VerifyUnrolls(d, prepared, previous, batched, fallbackUsed, index);
    var d1 := OpenNode(d).0;
    ReadbackSends(d1, prepared, previous);
    var d2 := Readback(d1, prepared, previous).0;
    RollbackSends(d2, prepared, previous);
    SendsOn(start, d2, Rollback(d2, prepared, previous).0, prepared);
  }

  lemma {:induction false} AbortSends(start: Device, d: Device, prepared: seq<PreparedWrite>,
          previous: seq<Option<int>>, index: Option<nat>, partial: bool)
    requires d.Valid() && |prepared| == |previous| && Sends(start, d, prepared)
    ensures Sends(start, Abort(d, prepared, previous, index, partial).0, prepared)
  {
    RollbackSends(d, prepared, previous);
    SendsOn(start, d, Rollback(d, prepared, previous).0, prepared);
  }

  lemma {:induction false} WritesSend(start: Device, d: Device, writes: seq<PreparedWrite>,
          prepared: seq<PreparedWrite>)
    requires Sends(start, d, prepared) && forall w :: w in writes ==> w in prepared
    ensures Sends(start, SetAll(d, writes).0, prepared)
  {
    SetAllSends(d, writes, prepared);
    SendsOn(start, d, SetAll(d, writes).0, prepared);
  }

  lemma {:induction false} FallbackSends(start: Device, d: Device, prepared: seq<PreparedWrite>,
          previous: seq<Option<int>>, index: nat)
    requires d.Valid() && |prepared| == |previous| && Sends(start, d, prepared)
    ensures Sends(start, Fallback(d, prepared, previous, index).0, prepared)
  {
    FallbackUnrolls(d, prepared, previous, index);
    PartsAreMembers(prepared);
    AbortSends(start, d, prepared, previous, None, false);
    var d1 := Rollback(d, prepared, previous).0;
    WritesSend(start, d1, Prerequisites(prepared), prepared);
    var d2 := SetAll(d1, Prerequisites(prepared)).0;
    WritesSend(start, d2, Requested(prepared), prepared);
    var d3 := SetAll(d2, Requested(prepared)).0;
    AbortSends(start, d2, prepared, previous, Some(index), false);
    AbortSends(start, d3, prepared, previous, Some(index), false);
    VerifySends(start, d3, prepared, previous, true, true, Some(index));
  }

  lemma {:induction false} SubmitSends(start: Device, d: Device, prepared: seq<PreparedWrite>,
          previous: seq<Option<int>>, fallback: bool, batched: bool)
    requires d.Valid() && |prepared| == |previous| && Requested(prepared) != [] && Sends(start, d, prepared)
    ensures Sends(start, Submit(d, prepared, previous, fallback, batched).0, prepared)
  {
    var writes := Requested(prepared);
    SetAllFrame(d, writes);
    PartsAreMembers(prepared);
    WritesSend(start, d, writes, prepared);
    if batched || |writes| > 1 {
      var (d1, failed) := SetBatch(d, writes);
      VerifySends(start, d1, prepared, previous, true, false, None);
      if failed.Some? {
        FallbackSends(start, d1, prepared, previous, failed.value);
        AbortSends(start, d1, prepared, previous, failed, false);
      }
    } else {
      SingleWrite(d, writes);
      var d1 := SetAll(d, writes).0;
      VerifySends(start, d1, prepared, previous, false, false, None);
      AbortSends(start, d1, prepared, previous, None, false);
    }
  }

  lemma {:induction false} WriteSends(start: Device, d: Device, prepared: seq<PreparedWrite>,
          previous: seq<Option<int>>, fallback: bool, batched: bool)
    requires d.Valid() && |prepared| == |previous| && Requested(prepared) != [] && Sends(start, d, prepared)
    ensures Sends(start, Write(d, prepared, previous, fallback, batched).0, prepared)
  {
    PartsAreMembers(prepared);
    SetAllFrame(d, Prerequisites(prepared));
    WritesSend(start, d, Prerequisites(prepared), prepared);
    var d1 := SetAll(d, Prerequisites(prepared)).0;
    AbortSends(start, d1, prepared, previous, None, false);
    RequeryFrame(d1, Requested(prepared));
    RequerySends(d1, Requested(prepared));
    var d2 := Requery(d1, Requested(prepared)).0;
    AbortSends(start, d2, prepared, previous, None, false);
    SubmitSends(start, d2, prepared, previous, fallback, batched);
  }

  /** Every command of a run, rollback and fallback included, is a write to a
    * prepared control with a value that control admits; a dry run sends none. */
  lemma {:induction false} OnlyAdmittedValues(d: Device, prepared: seq<PreparedWrite>, fallback: bool, batched: bool,
          dryRun: bool)
    requires d.Valid() && (prepared != [] ==> Requested(prepared) != [])
    ensures var after := ExecutePrepared(d, prepared, fallback, batched, dryRun).0;
            && d.log <= after.log
            && (forall k :: |d.log| <= k < |after.log| ==> Covered(prepared, after.log[k]))
            && (dryRun ==> after.log == d.log)
  {
    var (d0, isOpen) := OpenNode(d);
    if prepared != [] && isOpen {
      SnapshotFrame(d0, prepared);
      var (d1, previous) := Snapshot(d0, prepared);
      var (d2, writable) := OpenNode(d1);
      if !dryRun && writable { WriteSends(d, d2, prepared, previous, fallback, batched); }
    }
  }

  // ---------------------------------------------------------------------- one batch

  /** Write `i` is the first that its control does not admit. */
  ghost predicate FirstBad(writes: seq<PreparedWrite>, i: nat) {
    && i < |writes| && !Admits(writes[i].descriptor, writes[i].value)
    && forall j :: 0 <= j < i ==> Admits(writes[j].descriptor, writes[j].value)
  }

  lemma {:induction false} RejectedIsFirst(writes: seq<PreparedWrite>)
    ensures match FirstRejected(writes)
            case None => forall i :: 0 <= i < |writes| ==> Admits(writes[i].descriptor, writes[i].value)
            case Some(i) => FirstBad(writes, i)
    decreases |writes|
  {
    if writes != [] {
      AcceptsExact(writes[0].descriptor, writes[0].value);
      RejectedIsFirst(writes[1..]);
      if writes[0].descriptor.Accepts(writes[0].value) && FirstRejected(writes[1..]).Some? {
        var i := FirstRejected(writes[1..]).value + 1;
        forall j | 0 <= j < i ensures Admits(writes[j].descriptor, writes[j].value) {
          if j > 0 { assert writes[1..][j - 1] == writes[j]; }
        }
      } else if writes[0].descriptor.Accepts(writes[0].value) {
        forall i | 0 < i < |writes| ensures Admits(writes[i].descriptor, writes[i].value) {
          assert writes[1..][i - 1] == writes[i];
        }
      }
    }
  }

  lemma {:induction false} PositionExact(writes: seq<PreparedWrite>, i: nat)
    requires Distinct(writes) && i < |writes|
    ensures PositionOf(writes, writes[i].descriptor.id) == i
    decreases |writes|
  {
    if i > 0 { PositionExact(writes[1..], i - 1); }
  }

  function Sent(writes: seq<PreparedWrite>): seq<Command> {
    if writes == [] then []
    else [Command(writes[0].descriptor.id, writes[0].value)] + Sent(writes[1..])
  }

  lemma {:induction false} SetAllLog(d: Device, writes: seq<PreparedWrite>)
    requires forall w :: w in writes ==> w.descriptor.Accepts(w.value)
    ensures var (d1, failed) := SetAll(d, writes);
            && (failed.Some? ==> failed.value < |writes|)
            && d1.log == d.log + Sent(writes[..if failed.Some? then failed.value + 1 else |writes|])
    decreases |writes|
  {
    if writes != [] {
      var (d1, ok) := Set(d, Forward, writes[0].descriptor, writes[0].value);
      assert writes[0] in writes;
      if ok {
        SetAllLog(d1, writes[1..]);
        var later := SetAll(d1, writes[1..]).1;
        SentCons(d.log, writes, if later.Some? then later.value + 1 else |writes| - 1);
      } else {
        SentCons(d.log, writes, 0);
      }
    } else {
      assert writes[..0] == [] && d.log + [] == d.log;
    }
  }

  lemma {:induction false} SentCons(log: seq<Command>, writes: seq<PreparedWrite>, n: nat)
    requires n < |writes|
    ensures log + Sent(writes[..n + 1]) ==
            (log + [Command(writes[0].descriptor.id, writes[0].value)]) + Sent(writes[1..][..n])
  {
    assert writes[..n + 1][1..] == writes[1..][..n];
  }

  /** A batch over distinct controls sends nothing unless each of them admits its
    * value, and then names the first that does not; else it sends its commands in
    * order, up to and with the one that fails, which it names. */
  lemma {:induction false} BatchExact(d: Device, writes: seq<PreparedWrite>)
    requires Distinct(writes)
    ensures var (d1, failed) := SetBatch(d, writes);
            if exists i: nat :: FirstBad(writes, i) then d1 == d && failed.Some? && FirstBad(writes, failed.value)
            else
              && (failed.Some? ==> failed.value < |writes|)
              && d1.log == d.log + Sent(writes[..if failed.Some? then failed.value + 1 else |writes|])
  {
    RejectedIsFirst(writes);
    var rejected := FirstRejected(writes);
    if rejected.Some? {
      PositionExact(writes, rejected.value);
    } else {
      SetAllLog(d, writes);
    }
  }

  // ------------------------------------------------------------------- from requests

  /** A raw request list is planned as it stands. */
  lemma {:induction false} RawPlansNothingMore(d: Device, requests: seq<Request>, seen: seq<Id>,
          prepared: seq<PreparedWrite>)
    requires d.Valid()
    ensures var planned := PlanFrom(d, requests, true, seen, prepared).1;
            planned.Some? ==> planned.value == prepared + RequestedWrites(d, requests)
    decreases |requests|
  {
    if requests == [] {
      assert prepared + [] == prepared;
    } else {
      var (d1, status) := Query(d, Forward, requests[0].id);
      if status.Some? && requests[0].value.Some? {
        var write := PreparedWrite(status.value.descriptor, requests[0].value.value, false);
        RawPlansNothingMore(d1, requests[1..], seen, prepared + [write]);
        SameRequestedWrites(d, d1, requests[1..]);
        assert (prepared + [write]) + RequestedWrites(d, requests[1..]) ==
               prepared + ([write] + RequestedWrites(d, requests[1..]));
      }
    }
  }

  /** A prerequisite that is needed: a control of the device that does not hold its
    * manual value, as far as it can be read, and is given it. */
  predicate Needed(d: Device, w: PreparedWrite) {
    && w.descriptor.id in d.info && d.info[w.descriptor.id] == w.descriptor && w.descriptor.id in d.values
    && w.value == ManualValue(w.descriptor.id)
    && (w.descriptor.readable ==> d.values[w.descriptor.id] != w.value)
  }

  predicate AllNeeded(d: Device, prepared: seq<PreparedWrite>) {
    forall w :: w in Prerequisites(prepared) ==> Needed(d, w)
  }

  lemma {:induction false} NeededAlike(d: Device, d1: Device, prepared: seq<PreparedWrite>)
    requires SameStore(d, d1)
    ensures AllNeeded(d, prepared) <==> AllNeeded(d1, prepared)
  {
    assert forall w :: Needed(d, w) <==> Needed(d1, w);
  }

  lemma {:induction false} DependenciesNeeded(d: Device, dependencies: seq<Dependency>, seen: seq<Id>,
          prepared: seq<PreparedWrite>)
    requires d.Valid() && Quiet(d.forward) && AllNeeded(d, prepared)
    requires forall k :: 0 <= k < |dependencies| ==> dependencies[k].manual == ManualValue(dependencies[k].parent)
    ensures AllNeeded(d, PlanDependencies(d, dependencies, seen, prepared).2)
    decreases |dependencies|
  {
    if dependencies != [] {
      var parent := dependencies[0].parent;
      QuietTail(d.forward);
      var (d1, status) := Query(d, Forward, parent);
      NeededAlike(d, d1, prepared);
      if parent in seen {
        DependenciesNeeded(d, dependencies[1..], seen, prepared);
      } else if status.None? {
        DependenciesNeeded(d1, dependencies[1..], seen, prepared);
        NeededAlike(d, d1, PlanDependencies(d1, dependencies[1..], seen, prepared).2);
      } else {
        var write := PreparedWrite(status.value.descriptor, dependencies[0].manual, true);
        PartsAppend(prepared, write);
        var next := if status.value.current == Some(dependencies[0].manual) then prepared else prepared + [write];
        NeededAlike(d, d1, next);
        DependenciesNeeded(d1, dependencies[1..], seen + [parent], next);
        NeededAlike(d, d1, PlanDependencies(d1, dependencies[1..], seen + [parent], next).2);
      }
    }
  }

  /** On a device without faults planning inserts no prerequisite that is not needed. */
  lemma {:induction false} PlanInsertsNeeded(d: Device, requests: seq<Request>, raw: bool, seen: seq<Id>,
          prepared: seq<PreparedWrite>)
    requires d.Valid() && Quiet(d.forward) && AllNeeded(d, prepared)
    ensures var planned := PlanFrom(d, requests, raw, seen, prepared).1;
            planned.Some? ==> AllNeeded(d, planned.value)
    decreases |requests|
  {
    if requests != [] {
      QuietTail(d.forward);
      var (d1, status) := Query(d, Forward, requests[0].id);
      if status.Some? && requests[0].value.Some? {
        var dependencies := if raw then [] else ManualDependencies(requests[0].id);
        forall k | 0 <= k < |dependencies| ensures dependencies[k].manual == ManualValue(dependencies[k].parent) {
          DependenciesAreFlat(requests[0].id, k);
        }
        NeededAlike(d, d1, prepared);
        DependenciesNeeded(d1, dependencies, seen, prepared);
        PlanDependenciesFrame(d1, dependencies, seen, prepared);
        var (d2, seen2, prepared2) := PlanDependencies(d1, dependencies, seen, prepared);
        var write := PreparedWrite(status.value.descriptor, requests[0].value.value, false);
        PartsAppend(prepared2, write);
        NeededAlike(d1, d2, prepared2 + [write]);
        PlanInsertsNeeded(d2, requests[1..], raw, seen2, prepared2 + [write]);
        NeededLater(d, d2, PlanFrom(d2, requests[1..], raw, seen2, prepared2 + [write]).1);
      }
    }
  }

  lemma {:induction false} NeededLater(d: Device, d1: Device, planned: Option<seq<PreparedWrite>>)
    requires SameStore(d, d1) && (planned.Some? ==> AllNeeded(d1, planned.value))
    ensures planned.Some? ==> AllNeeded(d, planned.value)
  {
    if planned.Some? { NeededAlike(d, d1, planned.value); }
  }

  /** Every request names a control of the device with a value it admits. */
  ghost predicate Admitted(d: Device, requests: seq<Request>) {
    forall r :: r in requests ==> r.id in d.info && r.value.Some? && Admits(d.info[r.id], r.value.value)
  }

  lemma {:induction false} PlannedAreAdmitted(d: Device, requests: seq<Request>, raw: bool, seen: seq<Id>,
          prepared: seq<PreparedWrite>)
    requires d.Valid()
    ensures PlanFrom(d, requests, raw, seen, prepared).1.Some? ==> Admitted(d, requests)
    ensures Quiet(d.forward) && Admitted(d, requests) ==> PlanFrom(d, requests, raw, seen, prepared).1.Some?
    decreases |requests|
  {
    if requests != [] {
      var r := requests[0];
      assert r in requests;
      if Quiet(d.forward) { QuietTail(d.forward); }
      var (d1, status) := Query(d, Forward, r.id);
      if status.Some? && r.value.Some? {
        AcceptsExact(d.info[r.id], r.value.value);
        var dependencies := if raw then [] else ManualDependencies(r.id);
        PlanDependenciesFrame(d1, dependencies, seen, prepared);
        var (d2, seen2, prepared2) := PlanDependencies(d1, dependencies, seen, prepared);
        PlannedAreAdmitted(d2, requests[1..], raw, seen2,
                           prepared2 + [PreparedWrite(status.value.descriptor, r.value.value, false)]);
        assert requests == [r] + requests[1..];
      }
    }
  }

  /** A request list is rejected, with nothing sent and nothing changed, unless every
    * request names a control with a value it admits; and without faults only then. */
  lemma {:induction false} RejectedExact(d: Device, requests: seq<Request>, raw: bool, fallback: bool, batched: bool,
          dryRun: bool)
    requires d.Valid()
    ensures var (after, outcome) := ExecuteRequests(d, requests, raw, fallback, batched, dryRun);
            && (!Admitted(d, requests) ==> outcome.Rejected? || outcome.OpenFailed?)
            && (outcome.Rejected? ==> after.values == d.values && after.log == d.log)
            && (Quiet(d.forward) && Admitted(d, requests) ==> !outcome.Rejected?)
  {
    var d1 := OpenNode(d).0;
    PlannedAreAdmitted(d1, requests, raw, [], []);
    PlanFrame(d1, requests, raw, [], []);
    var (d2, planned) := PlanFrom(d1, requests, raw, [], []);
    if planned.Some? { NotRejected(d2, planned.value, fallback, batched, dryRun); }
  }

  lemma {:induction false} NotRejected(d: Device, prepared: seq<PreparedWrite>, fallback: bool, batched: bool,
          dryRun: bool)
    requires d.Valid() && (prepared != [] ==> Requested(prepared) != [])
    ensures !ExecutePrepared(d, prepared, fallback, batched, dryRun).1.Rejected?
  {
    var (d0, isOpen) := OpenNode(d);
    if prepared != [] && isOpen {
      SnapshotFrame(d0, prepared);
      var (d1, previous) := Snapshot(d0, prepared);
      var (d2, writable) := OpenNode(d1);
      if !dryRun && writable {
        SetAllFrame(d2, Prerequisites(prepared));
        var d3 := SetAll(d2, Prerequisites(prepared)).0;
        RequeryFrame(d3, Requested(prepared));
        SubmitNotRejected(Requery(d3, Requested(prepared)).0, prepared, previous, fallback, batched);
      }
    }
  }

  lemma {:induction false} SubmitNotRejected(d: Device, prepared: seq<PreparedWrite>, previous: seq<Option<int>>,
          fallback: bool, batched: bool)
    requires d.Valid() && |prepared| == |previous| && Requested(prepared) != []
    ensures !Submit(d, prepared, previous, fallback, batched).1.Rejected?
  {
    var writes := Requested(prepared);
    SetAllFrame(d, writes);
    var d1 := SetBatch(d, writes).0;
    if SetBatch(d, writes).1.Some? { FallbackUnrolls(d1, prepared, previous, SetBatch(d, writes).1.value); }
  }

  /** The flag of a preview: the command line repeats what was asked for, the daemon
    * says whether the run would be batched. */
  lemma {:induction false} PreviewFlagged(d: Device, requests: seq<Request>, raw: bool, fallback: bool, batched: bool)
    requires d.Valid()
    ensures var outcome := ExecuteRequests(d, requests, raw, fallback, batched, true).1;
            outcome.Preview? ==> outcome.batched == batched
    ensures var outcome := ApplyStandardControls(d, requests, raw, fallback, batched, true).1;
            outcome.Preview? ==> (outcome.batched <==> batched || |requests| > 1)
  {
    var d1 := OpenNode(d).0;
    PlanFrame(d1, requests, raw, [], []);
    var (d2, planned) := PlanFrom(d1, requests, raw, [], []);
    if planned.Some? {
      PlannedAreAdmitted(d1, requests, raw, [], []);
      AllRequested(d1, requests);
      assert [] + RequestedWrites(d1, requests) == RequestedWrites(d1, requests);
      SnapshotFrame(d2, planned.value);
    }
  }

  lemma {:induction false} AllRequested(d: Device, requests: seq<Request>)
    requires Admitted(d, requests)
    ensures |RequestedWrites(d, requests)| == |requests|
    decreases |requests|
  {
    if requests != [] {
      assert requests[0] in requests;
      AllRequested(d, requests[1..]);
    }
  }
}
