/** The transaction engine as it runs: a node whose fields change step by step,
  * and the loops of the command-line and daemon copies.  `State()` is the value
  * the functions of `ControlModel` and `ControlPlan` speak about. */
module ControlEngine {
  import opened Wrappers
  import opened ControlModel
  import opened ControlPlan

  class ControlNode {
    const info: map<Id, Descriptor>
    const gated: bool
    var values: map<Id, int>
    var forward: seq<Fault>
    var undo: seq<Fault>
    var opens: seq<bool>
    var log: seq<Command>

    function State(): Device
      reads this
    {
      Device(info, gated, values, forward, undo, opens, log)
    }

    constructor (info: map<Id, Descriptor>, gated: bool, values: map<Id, int>, forward: seq<Fault>, undo: seq<Fault>,
            opens: seq<bool>)
      ensures State() == Device(info, gated, values, forward, undo, opens, [])
    {
      this.info, this.gated, this.values := info, gated, values;
      this.forward, this.undo, this.opens, this.log := forward, undo, opens, [];
    }

    method Take(phase: Phase) returns (answer: Fault)
      modifies this`forward, this`undo
      ensures answer == old(State()).Answer(phase) && State() == old(State()).Advance(phase)
    {
      answer := Fine;
      if phase.Forward? {
        if forward != [] { answer, forward := forward[0], forward[1..]; }
      } else if undo != [] {
        answer, undo := undo[0], undo[1..];
      }
    }

    method Reopen() returns (isOpen: bool)
      modifies this`opens
      ensures (State(), isOpen) == OpenNode(old(State()))
    {
      isOpen := true;
      if opens != [] { isOpen, opens := opens[0], opens[1..]; }
    }

    method Read(phase: Phase, id: Id) returns (value: Option<int>)
      requires State().Valid()
      modifies this`forward, this`undo
      ensures (State(), value) == Get(old(State()), phase, id)
    {
      var answer := Take(phase);
      value := if id in info && info[id].readable && !answer.Fails? then Some(values[id]) else None;
    }

    method Inspect(id: Id) returns (status: Option<Status>)
      requires State().Valid()
      modifies this`forward, this`undo
      ensures (State(), status) == Query(old(State()), Forward, id)
    {
      var isOpen := State().Open(id);
      var answer := Take(Forward);
      if id !in info || answer.Fails? { return None; }
      status := Some(Status(info[id], isOpen && answer.Fine?, if info[id].readable && answer.Fine? then Some(values[id])
          else None));
    }

    method Store(phase: Phase, descriptor: Descriptor, value: int) returns (ok: bool)
      modifies this`forward, this`undo, this`values, this`log
      ensures (State(), ok) == Set(old(State()), phase, descriptor, value)
    {
      if !descriptor.Accepts(value) { return false; }
      var isOpen := State().Open(descriptor.id);
      var answer := Take(phase);
      log := log + [Command(descriptor.id, value)];
      if descriptor.id !in values || !isOpen || answer.Fails? { return false; }
      values := values[descriptor.id := if answer.Skews? then answer.stored else value];
      ok := true;
    }

    /** Stores one value after the other up to the first refusal. */
    method StoreAll(writes: seq<PreparedWrite>) returns (failed: Option<nat>)
      modifies this`forward, this`undo, this`values, this`log
      ensures (State(), failed) == SetAll(old(State()), writes)
    {
      ghost var start := State();
      var i := 0;
      while i < |writes|
        invariant 0 <= i <= |writes|
        invariant SetAll(start, writes) ==
          var (d, f) := SetAll(State(), writes[i..]); (d, if f.Some? then Some(f.value + i) else None)
      {
        assert writes[i..][0] == writes[i] && writes[i..][1..] == writes[i + 1..];
        var ok := Store(Forward, writes[i].descriptor, writes[i].value);
        if !ok { return Some(i); }
        i := i + 1;
      }
      failed := None;
    }

    method StoreBatch(writes: seq<PreparedWrite>) returns (failed: Option<nat>)
      modifies this`forward, this`undo, this`values, this`log
      ensures (State(), failed) == SetBatch(old(State()), writes)
    {
      var i := 0;
      while i < |writes|
        invariant 0 <= i <= |writes|
        invariant State() == old(State())
        invariant FirstRejected(writes) ==
          var rest := FirstRejected(writes[i..]); if rest.Some? then Some(rest.value + i) else None
      {
        assert writes[i..][0] == writes[i] && writes[i..][1..] == writes[i + 1..];
        if !writes[i].descriptor.Accepts(writes[i].value) {
          return Some(PositionOf(writes, writes[i].descriptor.id));
        }
        i := i + 1;
      }
      failed := StoreAll(writes);
    }

    method ReadPrevious(prepared: seq<PreparedWrite>) returns (previous: seq<Option<int>>)
      requires State().Valid()
      modifies this`forward, this`undo
      ensures State() == Snapshot(old(State()), prepared).0 && previous == Snapshot(old(State()), prepared).1
    {
      ghost var all := Snapshot(State(), prepared);
      previous := [];
      var i := 0;
      assert prepared[0..] == prepared;
      while i < |prepared|
        invariant 0 <= i <= |prepared| && State().Valid()
        invariant all.0 == Snapshot(State(), prepared[i..]).0
        invariant all.1 == previous + Snapshot(State(), prepared[i..]).1
      {
        SnapshotStep(State(), prepared, i, previous);
        var value := Read(Forward, prepared[i].descriptor.id);
        previous := previous + [value];
        i := i + 1;
      }
      assert prepared[i..] == [] && previous + [] == previous;
    }

    method InspectAgain(requested: seq<PreparedWrite>) returns (available: bool)
      requires State().Valid()
      modifies this`forward, this`undo
      ensures (State(), available) == Requery(old(State()), requested)
    {
      ghost var start := State();
      var i := 0;
      while i < |requested|
        invariant 0 <= i <= |requested| && State().Valid()
        invariant Requery(start, requested) == Requery(State(), requested[i..])
      {
        assert requested[i..][0] == requested[i] && requested[i..][1..] == requested[i + 1..];
        var status := Inspect(requested[i].descriptor.id);
        if status.None? || !status.value.available { return false; }
        i := i + 1;
      }
      available := true;
    }

    /** Puts every control back, dependents before prerequisites and newest
      * first, each control once, carrying on past a failure. */
    method RollbackControls(prepared: seq<PreparedWrite>, previous: seq<Option<int>>) returns (report: RollbackReport)
      requires State().Valid() && |prepared| == |previous|
      modifies this`forward, this`undo, this`values, this`log
      ensures (State(), report) == Rollback(old(State()), prepared, previous)
      ensures State().Valid()
    {
      ghost var start := State();
      var order := UndoOrder(prepared, previous);
      report := RollbackReport([], []);
      var seen: seq<Id> := [];
      var i := 0;
      while i < |order|
        invariant 0 <= i <= |order| && State().Valid()
        invariant Rollback(start, prepared, previous) == RestoreFrom(State(), order[i..], seen, report)
      {
        assert order[i..][0] == order[i] && order[i..][1..] == order[i + 1..];
        var id := order[i].descriptor.id;
        if id !in seen {
          RestoreOneValid(State(), order[i]);
          seen := seen + [id];
          var ok := false;
          if order[i].previous.Some? {
            var current := Read(Undo, id);
            if current == order[i].previous {
              ok := true;
            } else {
              ok := Store(Undo, order[i].descriptor, order[i].previous.value);
            }
          }
          if ok {
            report := report.(restored := report.restored + [id]);
          } else {
            report := report.(failed := report.failed + [id]);
          }
        }
        i := i + 1;
      }
    }

    method ReadChange(write: PreparedWrite, previous: Option<int>) returns (change: Change)
      requires State().Valid()
      modifies this`forward, this`undo
      ensures var (d, observed) := Get(old(State()), Forward, write.descriptor.id);
              && State() == Query(d, Forward, write.descriptor.id).0
              && change == ChangeOf(write, previous, observed)
    {
      var observed := Read(Forward, write.descriptor.id);
      var _ := Inspect(write.descriptor.id);
      change := ChangeOf(write, previous, observed);
    }

    method ReadChanges(prepared: seq<PreparedWrite>, previous: seq<Option<int>>)
      returns (changes: seq<Change>, verified: bool)
      requires State().Valid() && |prepared| == |previous|
      modifies this`forward, this`undo
      ensures State() == Readback(old(State()), prepared, previous).0
              && changes == Readback(old(State()), prepared, previous).1
      ensures verified == AllVerified(changes) && State().Valid()
    {
      ghost var all := Readback(State(), prepared, previous);
      changes, verified := [], true;
      var i := 0;
      assert prepared[0..] == prepared && previous[0..] == previous;
      while i < |prepared|
        invariant 0 <= i <= |prepared| && State().Valid()
        invariant all.0 == Readback(State(), prepared[i..], previous[i..]).0
        invariant all.1 == changes + Readback(State(), prepared[i..], previous[i..]).1
        invariant verified == AllVerified(changes)
      {
        ReadbackStep(State(), prepared, previous, i, changes);
        var change := ReadChange(prepared[i], previous[i]);
        verified := verified && change.verified;
        changes := changes + [change];
        i := i + 1;
      }
      assert prepared[i..] == [] && changes + [] == changes;
    }

    method RunVerify(prepared: seq<PreparedWrite>, previous: seq<Option<int>>, batched: bool, fallbackUsed: bool,
            index: Option<nat>)
      returns (outcome: Outcome)
      requires State().Valid() && |prepared| == |previous|
      modifies this
      ensures (State(), outcome) == Verify(old(State()), prepared, previous, batched, fallbackUsed, index)
    {
      var isOpen := Reopen();
      if !isOpen { return ReopenFailed; }
      var changes, verified := ReadChanges(prepared, previous);
      if !verified {
        var rollback := RollbackControls(prepared, previous);
        return Undone(true, index, rollback);
      }
      outcome := Applied(changes, batched, fallbackUsed, index);
    }

    /** Undo a failed batch, write the prerequisites again, then one control at
      * a time; the caller rolls back when `outcome` is absent. */
    method RunFallback(prepared: seq<PreparedWrite>, previous: seq<Option<int>>, index: nat) returns (outcome: Outcome)
      requires State().Valid() && |prepared| == |previous|
      modifies this
      ensures (State(), outcome) == Fallback(old(State()), prepared, previous, index)
    {
      var report := RollbackControls(prepared, previous);
      if report.failed != [] { return Undone(true, Some(index), report); }
      SetAllFrame(State(), Prerequisites(prepared));
      var failed := StoreAll(Prerequisites(prepared));
      if failed.None? {
        SetAllFrame(State(), Requested(prepared));
        failed := StoreAll(Requested(prepared));
        if failed.None? {
          outcome := RunVerify(prepared, previous, true, true, Some(index));
          return;
        }
      }
      var rollback := RollbackControls(prepared, previous);
      outcome := Undone(rollback.failed != [], Some(index), rollback);
    }

    /** Everything after the snapshot, as the command line does it. */
    method RunWrite(prepared: seq<PreparedWrite>, previous: seq<Option<int>>, fallback: bool, batched: bool)
      returns (outcome: Outcome)
      requires State().Valid() && |prepared| == |previous| && Requested(prepared) != []
      modifies this
      ensures (State(), outcome) == Write(old(State()), prepared, previous, fallback, batched)
    {
      SetAllFrame(State(), Prerequisites(prepared));
      var failed := StoreAll(Prerequisites(prepared));
      if failed.Some? {
        var rollback := RollbackControls(prepared, previous);
        return Undone(rollback.failed != [], None, rollback);
      }
      var writes := Requested(prepared);
      RequeryFrame(State(), writes);
      var available := InspectAgain(writes);
      if !available {
        var rollback := RollbackControls(prepared, previous);
        return Undone(rollback.failed != [], None, rollback);
      }
      outcome := RunSubmit(prepared, previous, fallback, batched);
    }

    method RunSubmit(prepared: seq<PreparedWrite>, previous: seq<Option<int>>, fallback: bool, batched: bool)
      returns (outcome: Outcome)
      requires State().Valid() && |prepared| == |previous| && Requested(prepared) != []
      modifies this
      ensures (State(), outcome) == Submit(old(State()), prepared, previous, fallback, batched)
    {
      var writes := Requested(prepared);
      SetAllFrame(State(), writes);
      if batched || |writes| > 1 {
        var failed := StoreBatch(writes);
        if failed.None? {
          outcome := RunVerify(prepared, previous, true, false, None);
        } else if fallback {
          outcome := RunFallback(prepared, previous, failed.value);
        } else {
          var rollback := RollbackControls(prepared, previous);
          outcome := Undone(rollback.failed != [], failed, rollback);
        }
      } else {
        var ok := Store(Forward, writes[0].descriptor, writes[0].value);
        if ok {
          outcome := RunVerify(prepared, previous, false, false, None);
        } else {
          var rollback := RollbackControls(prepared, previous);
          outcome := Undone(rollback.failed != [], None, rollback);
        }
      }
    }

    /** The command-line copy. */
    method RunPrepared(prepared: seq<PreparedWrite>, fallback: bool, batched: bool, dryRun: bool)
      returns (outcome: Outcome)
      requires State().Valid() && (prepared != [] ==> Requested(prepared) != [])
      modifies this
      ensures (State(), outcome) == ExecutePrepared(old(State()), prepared, fallback, batched, dryRun)
    {
      if prepared == [] { return NothingPrepared; }
      var isOpen := Reopen();
      if !isOpen { return OpenFailed; }
      SnapshotFrame(State(), prepared);
      var previous := ReadPrevious(prepared);
      if dryRun { return Preview(Previews(prepared, previous), batched); }
      isOpen := Reopen();
      if !isOpen { return OpenFailed; }
      outcome := RunWrite(prepared, previous, fallback, batched);
    }

    /** Plans the writes of all requests, prerequisites before the controls that
      * need them. */
    method PlanWrites(requests: seq<Request>, raw: bool) returns (planned: Option<seq<PreparedWrite>>)
      requires State().Valid()
      modifies this`forward, this`undo
      ensures (State(), planned) == PlanFrom(old(State()), requests, raw, [], [])
      ensures State().Valid()
    {
      ghost var start := State();
      var prepared: seq<PreparedWrite> := [];
      var seen: seq<Id> := [];
      var i := 0;
      while i < |requests|
        invariant 0 <= i <= |requests| && State().Valid()
        invariant PlanFrom(start, requests, raw, [], []) == PlanFrom(State(), requests[i..], raw, seen, prepared)
      {
        assert requests[i..][0] == requests[i] && requests[i..][1..] == requests[i + 1..];
        var status := Inspect(requests[i].id);
        if status.None? { return None; }
        var descriptor := status.value.descriptor;
        var dependencies := if raw then [] else ManualDependencies(requests[i].id);
        ghost var queried := State();
        ghost var seen0, prepared0 := seen, prepared;
        PlanDependenciesFrame(queried, dependencies, seen0, prepared0);
        var k := 0;
        while k < |dependencies|
          invariant 0 <= k <= |dependencies| && State().Valid()
          invariant PlanDependencies(queried, dependencies, seen0, prepared0) ==
                    PlanDependencies(State(), dependencies[k..], seen, prepared)
        {
          assert dependencies[k..][0] == dependencies[k] && dependencies[k..][1..] == dependencies[k + 1..];
          var parent := dependencies[k].parent;
          if parent !in seen {
            var answer := Inspect(parent);
            if answer.Some? {
              if answer.value.current != Some(dependencies[k].manual) {
                prepared := prepared + [PreparedWrite(answer.value.descriptor, dependencies[k].manual, true)];
              }
              seen := seen + [parent];
            }
          }
          k := k + 1;
        }
        if requests[i].value.None? || !descriptor.Accepts(requests[i].value.value) { return None; }
        prepared := prepared + [PreparedWrite(descriptor, requests[i].value.value, false)];
        i := i + 1;
      }
      planned := Some(prepared);
    }

    method RunRequests(requests: seq<Request>, raw: bool, fallback: bool, batched: bool, dryRun: bool)
      returns (outcome: Outcome)
      requires State().Valid()
      modifies this
      ensures (State(), outcome) == ExecuteRequests(old(State()), requests, raw, fallback, batched, dryRun)
    {
      var isOpen := Reopen();
      if !isOpen { return OpenFailed; }
      PlanFrame(State(), requests, raw, [], []);
      var planned := PlanWrites(requests, raw);
      if planned.None? { return Rejected; }
      outcome := RunPrepared(planned.value, fallback, batched, dryRun);
    }

    /** The daemon copy: one reading node, and a failed write is rolled back in
      * one place for all of single, batched and individual writing. */
    method RunStandardControls(requests: seq<Request>, raw: bool, fallback: bool, batched: bool, dryRun: bool)
      returns (outcome: Outcome)
      requires State().Valid()
      modifies this
      ensures (State(), outcome) == ApplyStandardControls(old(State()), requests, raw, fallback, batched, dryRun)
    {
      if requests == [] { return NothingPrepared; }
      var isOpen := Reopen();
      if !isOpen { return OpenFailed; }
      PlanFrame(State(), requests, raw, [], []);
      var planned := PlanWrites(requests, raw);
      if planned.None? { return Rejected; }
      var prepared := planned.value;
      SnapshotFrame(State(), prepared);
      var previous := ReadPrevious(prepared);
      var writes := Requested(prepared);
      if dryRun { return Preview(Previews(prepared, previous), batched || |writes| > 1); }
      isOpen := Reopen();
      if !isOpen { return OpenFailed; }
      outcome := RunDaemonWrite(prepared, previous, fallback, batched);
    }

    method RunDaemonWrite(prepared: seq<PreparedWrite>, previous: seq<Option<int>>, fallback: bool, batched: bool)
      returns (outcome: Outcome)
      requires State().Valid() && |prepared| == |previous| && Requested(prepared) != []
      modifies this
      ensures (State(), outcome) == Write(old(State()), prepared, previous, fallback, batched)
    {
      var writes := Requested(prepared);
      SetAllFrame(State(), Prerequisites(prepared));
      var failed := StoreAll(Prerequisites(prepared));
      var errorIndex: Option<nat> := None;
      var fallbackUsed := false;
      if failed.None? {
        RequeryFrame(State(), writes);
        var available := InspectAgain(writes);
        if !available {
          failed := Some(0);
        } else if batched || |writes| > 1 {
          SetAllFrame(State(), writes);
          failed := StoreBatch(writes);
          if failed.Some? {
            errorIndex := failed;
            if fallback {
              var report := RollbackControls(prepared, previous);
              if report.failed != [] { return Undone(true, errorIndex, report); }
              SetAllFrame(State(), Prerequisites(prepared));
              failed := StoreAll(Prerequisites(prepared));
              if failed.None? {
                fallbackUsed := true;
                SetAllFrame(State(), writes);
                failed := StoreAll(writes);
              }
            }
          }
        } else {
          SetAllFrame(State(), writes);
          var ok := Store(Forward, writes[0].descriptor, writes[0].value);
          failed := if ok then None else Some(0);
        }
      }
      if failed.Some? {
        var rollback := RollbackControls(prepared, previous);
        return Undone(rollback.failed != [], errorIndex, rollback);
      }
      outcome := RunVerify(prepared, previous, batched || |writes| > 1, fallbackUsed, errorIndex);
    }
  }

  lemma {:induction false} SnapshotStep(d: Device, prepared: seq<PreparedWrite>, i: nat, done: seq<Option<int>>)
    requires d.Valid() && i < |prepared|
    ensures var (d1, value) := Get(d, Forward, prepared[i].descriptor.id);
            && Snapshot(d, prepared[i..]).0 == Snapshot(d1, prepared[i + 1..]).0
            && done + Snapshot(d, prepared[i..]).1 == (done + [value]) + Snapshot(d1, prepared[i + 1..]).1
  {
    assert prepared[i..][0] == prepared[i] && prepared[i..][1..] == prepared[i + 1..];
  }

  lemma {:induction false} ReadbackStep(d: Device, prepared: seq<PreparedWrite>, previous: seq<Option<int>>, i: nat,
          done: seq<Change>)
    requires d.Valid() && |prepared| == |previous| && i < |prepared|
    ensures var (d1, observed) := Get(d, Forward, prepared[i].descriptor.id);
            var d2 := Query(d1, Forward, prepared[i].descriptor.id).0;
            && d2.Valid()
            && Readback(d, prepared[i..], previous[i..]).0 == Readback(d2, prepared[i + 1..], previous[i + 1..]).0
            && done + Readback(d, prepared[i..], previous[i..]).1
            == (done + [ChangeOf(prepared[i], previous[i], observed)])
                + Readback(d2, prepared[i + 1..], previous[i + 1..]).1
  {
    assert prepared[i..][0] == prepared[i] && prepared[i..][1..] == prepared[i + 1..]
        && previous[i..][1..] == previous[i + 1..];
  }
}
