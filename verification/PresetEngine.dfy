/** The preset transaction as it runs: a process whose device, report and journal
  * change step by step.  `Now()` is the value `Preset` speaks about. */
module PresetEngine {
  import opened Wrappers
  import opened Preset

  class PresetRun {
    const plan: seq<Step>
    const script: Script
    var device: State
    var applied: map<Kind, int>
    var report: Report
    var disk: Option<Report>
    var writes: seq<Writing>
    var log: seq<Event>

    function Now(): Machine
      reads this
    {
      Machine(device, applied, report, disk, writes, log)
    }

    constructor (device: State, disk: Option<Report>, plan: seq<Step>, script: Script, writes: seq<Writing>)
      ensures this.plan == plan && this.script == script
      ensures Now() == Started(device, plan, writes).(disk := disk)
    {
      this.plan, this.script := plan, script;
      this.device, this.applied, this.disk, this.writes, this.log := device, map[], disk, writes, [];
      this.report := Report(InProgress, Opening(plan), false, []);
    }

    method WriteTransactionJournal() returns (ok: bool)
      modifies this`disk, this`writes
      ensures (Now(), ok) == WriteJournal(old(Now()))
    {
      var answer := Persisted;
      if writes != [] { answer, writes := writes[0], writes[1..]; }
      if !answer.Lost? { disk := Some(report); }
      ok := answer.Persisted?;
    }

    method Remove() returns (ok: bool)
      modifies this`disk
      ensures (Now(), ok) == RemoveJournal(old(Now()), script.removal)
    {
      if !script.removal.Stays? { disk := None; }
      ok := script.removal.Removed?;
    }

    /** Finds the first entry with the number and sets it. */
    method SetTransactionStep(sequence: nat, status: Status)
      modifies this`report
      ensures Now() == Marked(old(Now()), sequence, status)
    {
      var steps := report.steps;
      var i := 0;
      while i < |steps|
        invariant 0 <= i <= |steps| && report == old(report)
        invariant forall j :: 0 <= j < i ==> steps[j].sequence != sequence
      {
        if steps[i].sequence == sequence {
          SetStepFirst(steps, sequence, status, i);
          report := report.(steps := steps[i := StepReport(sequence, status)]);
          return;
        }
        i := i + 1;
      }
      SetStepAbsent(steps, sequence, status);
    }

    method RunStage(kind: Kind) returns (failure: Option<Failure>)
      modifies this
      ensures (Now(), failure) == ApplyStage(old(Now()), plan, script, kind)
    {
      var found := PlanStep(plan, kind);
      if found.None? || found.value.noOp { return None; }
      var step := found.value;
      var answer := Applying(script, kind);
      if answer.Breaks? {
        device := Moved(device, kind, answer.moved);
        return Some(Failure(answer.partial || kind.CameraRestart?, step.sequence, kind, answer.moved));
      }
      var previous := At(device, kind);
      device := device[kind := Target(device, script, kind)];
      applied := applied[kind := previous];
      log := log + [Apply(kind)];
      if kind.StandardControls? {
        var prerequisite := PlanStep(plan, ControlPrerequisite);
        if prerequisite.Some? { SetTransactionStep(prerequisite.value.sequence, Verified); }
      }
      SetTransactionStep(step.sequence, Verified);
      var ok := WriteTransactionJournal();
      failure := if ok then None else Some(Failure(false, step.sequence, kind, None));
    }

    method ApplyPreparedPreset() returns (failure: Option<Failure>)
      modifies this
      ensures Now() == ApplyStages(old(Now()), plan, script, ApplyOrder).0
      ensures failure == ApplyStages(old(Now()), plan, script, ApplyOrder).1
    {
      ghost var start := Now();
      assert ApplyOrder[0..] == ApplyOrder;
      ApplyUnrolls(start, plan, script, 0);
      failure := RunStage(CameraRestart);
      if failure.Some? { return; }
      ApplyUnrolls(Now(), plan, script, 1);
      failure := RunStage(VendorControls);
      if failure.Some? { return; }
      ApplyUnrolls(Now(), plan, script, 2);
      failure := RunStage(StandardControls);
      if failure.Some? { return; }
      ApplyUnrolls(Now(), plan, script, 3);
      failure := RunStage(AudioGain);
      if failure.Some? { return; }
      ApplyUnrolls(Now(), plan, script, 4);
      failure := RunStage(AudioMute);
      if failure.Some? { return; }
      ApplyUnrolls(Now(), plan, script, 5);
      failure := RunStage(VideoFormat);
      assert ApplyOrder[6..] == [];
    }

    method UndoApplied(kind: Kind) returns (ok: bool)
      requires PlanStep(plan, kind).Some? && kind in applied
      modifies this
      ensures (Now(), ok) == UndoStage(old(Now()), plan, script, kind)
    {
      var step := PlanStep(plan, kind).value;
      var answer := Reversing(script, kind);
      log := log + [Undo(kind)];
      if answer.Restores? {
        device := device[kind := applied[kind]];
        SetTransactionStep(step.sequence, RolledBack);
      } else {
        device := Moved(device, kind, answer.moved);
        report := report.(rollbackFailures := report.rollbackFailures + [Stage(kind)]);
        SetTransactionStep(step.sequence, RollbackFailed);
      }
      if kind.StandardControls? {
        var prerequisite := PlanStep(plan, ControlPrerequisite);
        var status := StatusOf(report.steps, step.sequence);
        if prerequisite.Some? && status.Some? { SetTransactionStep(prerequisite.value.sequence, status.value); }
      }
      var written := WriteTransactionJournal();
      ok := written && answer.Restores?;
    }

    /** Undoes the applied stages, continuing past failures. */
    method RollbackPreset() returns (ok: bool)
      requires Grounded(Now(), plan)
      modifies this
      ensures Now() == Rollback(old(Now()), plan, script).0 && ok == Rollback(old(Now()), plan, script).1
    {
      report := report.(rollbackAttempted := true);
      ghost var start := Now();
      var order := RollbackOrder(applied.Keys);
      ok := true;
      var i := 0;
      assert order[0..] == order;
      while i < |order|
        invariant 0 <= i <= |order| && applied == start.applied
        invariant UndoStages(start, plan, script, order).0 == UndoStages(Now(), plan, script, order[i..]).0
        invariant UndoStages(start, plan, script, order).1 == (ok && UndoStages(Now(), plan, script, order[i..]).1)
      {
        assert order[i..][0] == order[i] && order[i..][1..] == order[i + 1..];
        assert order[i] in order;
        var undone := UndoApplied(order[i]);
        ok := ok && undone;
        i := i + 1;
      }
    }

    method Conclude(outcome: Outcome, clean: Result) returns (result: Result)
      modifies this
      ensures (Now(), result) == Finish(old(Now()), script, outcome, clean)
    {
      report := report.(outcome := outcome);
      var removed := Remove();
      if removed { return clean; }
      report := report.(outcome := Partial);
      var _ := WriteTransactionJournal();
      result := Failing(true);
    }

    method RecoverFrom(failure: Failure) returns (result: Result)
      requires Grounded(Now(), plan)
      modifies this
      ensures Now() == Recover(old(Now()), plan, script, failure).0
              && result == Recover(old(Now()), plan, script, failure).1
    {
      SetTransactionStep(failure.sequence, Failed);
      var undone := RollbackPreset();
      var restarted := CameraRestart in applied;
      if !failure.partial && !restarted && undone && report.rollbackFailures == [] {
        result := Conclude(Reverted, Failing(false));
        return;
      }
      report := report.(outcome := Partial,
          rollbackFailures := report.rollbackFailures + Labels(failure, restarted, undone));
      var _ := WriteTransactionJournal();
      result := Failing(true);
    }

    method RunPresetApply() returns (result: Result)
      requires Now() == Started(device, plan, writes).(disk := disk)
      modifies this
      ensures (Now(), result) == Run(old(device), old(disk), plan, script, old(writes))
    {
      if disk.Some? { return Refused; }
      if forall s :: s in plan ==> s.noOp {
        report := report.(outcome := Completed);
        return Succeeded;
      }
      var written := WriteTransactionJournal();
      if !written { return Failing(false); }
      var failure := ApplyPreparedPreset();
      if failure.Some? {
        result := RecoverFrom(failure.value);
      } else {
        result := Conclude(Completed, Succeeded);
      }
    }
  }

  lemma {:induction false} ApplyUnrolls(m: Machine, plan: seq<Step>, script: Script, i: nat)
    requires i < |ApplyOrder|
    ensures var (m1, failure) := ApplyStage(m, plan, script, ApplyOrder[i]);
            ApplyStages(m, plan, script, ApplyOrder[i..]) ==
            if failure.Some? then (m1, failure) else ApplyStages(m1, plan, script, ApplyOrder[i + 1..])
  {
    assert ApplyOrder[i..][0] == ApplyOrder[i] && ApplyOrder[i..][1..] == ApplyOrder[i + 1..];
  }

  lemma {:induction false} SetStepFirst(steps: seq<StepReport>, sequence: nat, status: Status, i: nat)
    requires i < |steps| && steps[i].sequence == sequence && forall j :: 0 <= j < i ==> steps[j].sequence != sequence
    ensures SetStep(steps, sequence, status) == steps[i := StepReport(sequence, status)]
    decreases i
  {
    if i > 0 {
      SetStepFirst(steps[1..], sequence, status, i - 1);
    }
  }

  lemma {:induction false} SetStepAbsent(steps: seq<StepReport>, sequence: nat, status: Status)
    requires forall j :: 0 <= j < |steps| ==> steps[j].sequence != sequence
    ensures SetStep(steps, sequence, status) == steps
    decreases |steps|
  {
    if steps != [] {
      SetStepAbsent(steps[1..], sequence, status);
    }
  }
}
