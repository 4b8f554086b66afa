/** What the report of a failed preset says: the state of every step, and what of
  * the rollback is amiss. */
module PresetFailures {
  import opened Wrappers
  import opened Preset
  import opened PresetSafety
  import opened PresetReport
  import opened PresetOutcome

  /** Every step has a number of its own and is found under its kind. */
  predicate Clear(plan: seq<Step>) {
    UniqueNumbers(plan) && forall i :: 0 <= i < |plan| ==> PlanStep(plan, plan[i].kind) == Some(plan[i])
  }

  /** The stage that performs a step: the standard controls also perform theirs
    * prerequisites. */
  function Owner(kind: Kind): Kind { if kind.ControlPrerequisite? then StandardControls else kind }

  lemma {:induction false} ClearIndex(plan: seq<Step>, i: nat, kind: Kind)
    requires Clear(plan) && i < |plan| && PlanStep(plan, kind).Some?
    ensures plan[i].sequence == PlanStep(plan, kind).value.sequence <==> plan[i].kind == kind
    ensures FirstAt(plan, i)
  {
    var k :| 0 <= k < |plan| && plan[k] == PlanStep(plan, kind).value;
  }

  lemma {:induction false} MarkedAt(steps: seq<StepReport>, plan: seq<Step>, kind: Kind, status: Status, i: nat)
    requires Clear(plan) && Matching(steps, plan) && i < |plan| && PlanStep(plan, kind).Some?
    ensures var after := SetStep(steps, PlanStep(plan, kind).value.sequence, status);
            Matching(after, plan) && after[i].status == if plan[i].kind == kind then status else steps[i].status
  {
    ClearIndex(plan, i, kind);
    MarkAt(steps, plan, PlanStep(plan, kind).value.sequence, status, i);
  }

  lemma {:induction false} StatusFound(steps: seq<StepReport>, sequence: nat, k: nat)
    requires k < |steps| && steps[k].sequence == sequence && NoneBefore(steps, k, sequence)
    ensures StatusOf(steps, sequence) == Some(steps[k].status)
    decreases |steps|
  {
    if k > 0 {
      NoneBeforeTail(steps, k, sequence);
      StatusFound(steps[1..], sequence, k - 1);
    }
  }

  lemma {:induction false} StatusAt(steps: seq<StepReport>, plan: seq<Step>, k: nat)
    requires Clear(plan) && Matching(steps, plan) && k < |plan|
    ensures StatusOf(steps, plan[k].sequence) == Some(steps[k].status)
  {
    StatusFound(steps, plan[k].sequence, k);
  }

  // ------------------------------------------------------------------ the rollback

  predicate Leaving(script: Script, kind: Kind) { kind in script.undo && script.undo[kind].Leaves? }

  function Ended(script: Script, kind: Kind): Status { if Leaving(script, kind) then RollbackFailed else RolledBack }

  lemma {:induction false} UndoneSteps(m: Machine, plan: seq<Step>, script: Script, kind: Kind)
    requires PlanStep(plan, kind).Some? && kind in m.applied
    requires var sequence := PlanStep(plan, kind).value.sequence;
             StatusOf(SetStep(m.report.steps, sequence, Ended(script, kind)), sequence) == Some(Ended(script, kind))
    ensures var steps := SetStep(m.report.steps, PlanStep(plan, kind).value.sequence, Ended(script, kind));
            var prerequisite := PlanStep(plan, ControlPrerequisite);
            UndoStage(m, plan, script, kind).0.report.steps ==
            if kind.StandardControls? && prerequisite.Some? then
              SetStep(steps, prerequisite.value.sequence, Ended(script, kind))
            else steps
  {
  }

  lemma {:induction false} OwnStatus(steps: seq<StepReport>, plan: seq<Step>, kind: Kind, status: Status)
    requires Clear(plan) && Matching(steps, plan) && PlanStep(plan, kind).Some?
    ensures var sequence := PlanStep(plan, kind).value.sequence;
            StatusOf(SetStep(steps, sequence, status), sequence) == Some(status)
  {
    var k :| 0 <= k < |plan| && plan[k] == PlanStep(plan, kind).value;
    MarkedAt(steps, plan, kind, status, k);
    StatusAt(SetStep(steps, plan[k].sequence, status), plan, k);
  }

  /** An undo sets the step of its stage, and that of the prerequisites with it. */
  lemma {:induction false} UndoMarks(m: Machine, plan: seq<Step>, script: Script, kind: Kind, i: nat)
    requires Clear(plan) && Matching(m.report.steps, plan) && i < |plan|
    requires PlanStep(plan, kind).Some? && kind in m.applied && !kind.ControlPrerequisite?
    ensures var after := UndoStage(m, plan, script, kind).0.report.steps;
            && Matching(after, plan)
            && after[i].status == if Owner(plan[i].kind) == kind then Ended(script, kind) else m.report.steps[i].status
  {
    var steps := SetStep(m.report.steps, PlanStep(plan, kind).value.sequence, Ended(script, kind));
    MarkedAt(m.report.steps, plan, kind, Ended(script, kind), i);
    OwnStatus(m.report.steps, plan, kind, Ended(script, kind));
    UndoneSteps(m, plan, script, kind);
    if kind.StandardControls? && PlanStep(plan, ControlPrerequisite).Some? {
      MarkedAt(steps, plan, ControlPrerequisite, Ended(script, kind), i);
    }
  }

  predicate Undoable(m: Machine, plan: seq<Step>, kinds: seq<Kind>) {
    forall kind :: kind in kinds ==> PlanStep(plan, kind).Some? && kind in m.applied
  }

  lemma {:induction false} UndosStep(m: Machine, plan: seq<Step>, script: Script, kinds: seq<Kind>)
    requires kinds != [] && Undoable(m, plan, kinds)
    ensures PlanStep(plan, kinds[0]).Some? && kinds[0] in m.applied
    ensures var m1 := UndoStage(m, plan, script, kinds[0]).0;
            Undoable(m1, plan, kinds[1..])
            && UndoStages(m, plan, script, kinds).0 == UndoStages(m1, plan, script, kinds[1..]).0
  {
    assert kinds[0] in kinds;
  }

  lemma {:induction false} UndosMark(m: Machine, plan: seq<Step>, script: Script, kinds: seq<Kind>, i: nat)
    requires Clear(plan) && Matching(m.report.steps, plan) && i < |plan|
    requires Undoable(m, plan, kinds) && ControlPrerequisite !in kinds
    ensures var after := UndoStages(m, plan, script, kinds).0.report.steps;
            && Matching(after, plan)
            && after[i].status ==
               if Owner(plan[i].kind) in kinds then Ended(script, Owner(plan[i].kind)) else m.report.steps[i].status
    decreases |kinds|
  {
    if kinds != [] {
      assert kinds == [kinds[0]] + kinds[1..];
      UndosStep(m, plan, script, kinds);
      UndoMarks(m, plan, script, kinds[0], i);
      UndosMark(UndoStage(m, plan, script, kinds[0]).0, plan, script, kinds[1..], i);
    }
  }

  /** The undos among these that leave something behind, in order. */
  function Left(kinds: seq<Kind>, script: Script): (r: seq<Label>)
    ensures forall l :: l in r <==> l.Stage? && l.kind in kinds && Leaving(script, l.kind)
    decreases |kinds|
  {
    if kinds == [] then []
    else
      assert forall kind :: kind in kinds <==> kind == kinds[0] || kind in kinds[1..];
      (if Leaving(script, kinds[0]) then [Stage(kinds[0])] else []) + Left(kinds[1..], script)
  }

  lemma {:induction false} UndosLeave(m: Machine, plan: seq<Step>, script: Script, kinds: seq<Kind>)
    requires Undoable(m, plan, kinds)
    ensures UndoStages(m, plan, script, kinds).0.report.rollbackFailures ==
            m.report.rollbackFailures + Left(kinds, script)
    decreases |kinds|
  {
    if kinds != [] {
      UndosStep(m, plan, script, kinds);
      var m1 := UndoStage(m, plan, script, kinds[0]).0;
      UndosLeave(m1, plan, script, kinds[1..]);
      LeftGrows(m, plan, script, kinds[0]);
      LeftCons(m.report.rollbackFailures, kinds, script);
    }
  }

  lemma {:induction false} LeftCons(failures: seq<Label>, kinds: seq<Kind>, script: Script)
    requires kinds != []
    ensures failures + Left(kinds, script) ==
            (failures + if Leaving(script, kinds[0]) then [Stage(kinds[0])] else []) + Left(kinds[1..], script)
  {
  }

  /** A rollback undoes the applied stages that can be, in some order. */
  lemma {:induction false} RollbackRuns(m: Machine, plan: seq<Step>, script: Script)
    returns (m1: Machine, order: seq<Kind>)
    requires Grounded(m, plan)
    ensures m1 == m.(report := m.report.(rollbackAttempted := true)) && order == RollbackOrder(m.applied.Keys)
    ensures Undoable(m1, plan, order) && Rollback(m, plan, script) == UndoStages(m1, plan, script, order)
    ensures forall kind: Kind :: kind in order <==>
              kind in m.applied && !kind.CameraRestart? && !kind.ControlPrerequisite?
  {
    m1, order := m.(report := m.report.(rollbackAttempted := true)), RollbackOrder(m.applied.Keys);
    RollbackOrderDistinct(m.applied.Keys);
  }

  lemma {:induction false} LeftGrows(m: Machine, plan: seq<Step>, script: Script, kind: Kind)
    requires PlanStep(plan, kind).Some? && kind in m.applied
    ensures UndoStage(m, plan, script, kind).0.report.rollbackFailures ==
            m.report.rollbackFailures + if Leaving(script, kind) then [Stage(kind)] else []
  {
  }

  // -------------------------------------------------------------- a run that fails

  lemma {:induction false} HitIsOwned(plan: seq<Step>, applied: set<Kind>, i: nat)
    requires Clear(plan) && i < |plan| && ControlPrerequisite !in applied
    ensures Hit(plan, applied, plan[i].sequence) <==> Owner(plan[i].kind) in applied
  {
    forall kind | kind in applied ensures Marks(plan, kind, plan[i].sequence) <==> Owner(plan[i].kind) == kind {
      if PlanStep(plan, kind).Some? { ClearIndex(plan, i, kind); }
      if PlanStep(plan, ControlPrerequisite).Some? { ClearIndex(plan, i, ControlPrerequisite); }
    }
    if Owner(plan[i].kind) in applied { assert Marks(plan, Owner(plan[i].kind), plan[i].sequence); }
  }

  /** The state of a step after a run that failed at stage `failed` with these
    * stages applied. */
  function StatusAfter(step: Step, applied: set<Kind>, failed: Kind, script: Script): Status {
    var owner := Owner(step.kind);
    if owner in applied && !owner.CameraRestart? then
      if owner in script.undo && script.undo[owner].Leaves? then RollbackFailed else RolledBack
    else if step.kind == failed then Failed
    else if owner in applied then Verified
    else if step.noOp then Skipped
    else Pending
  }

  lemma {:induction false} RolledBackSteps(m: Machine, plan: seq<Step>, script: Script, failed: Kind, i: nat)
    requires Clear(plan) && Truthful(m, plan) && Grounded(m, plan) && i < |plan|
    requires ControlPrerequisite !in m.applied && PlanStep(plan, failed).Some?
    ensures var m1 := Marked(m, PlanStep(plan, failed).value.sequence, Failed);
            var after := Rollback(m1, plan, script).0.report.steps;
            Matching(after, plan) && after[i].status == StatusAfter(plan[i], m.applied.Keys, failed, script)
  {
    var m1 := Marked(m, PlanStep(plan, failed).value.sequence, Failed);
    FailedMark(m, plan, failed, i);
    var steps := UndoneReport(m1, plan, script, i);
    StatusSettles(plan[i], m.applied.Keys, failed, script);
  }

  function MarkedStatus(step: Step, applied: set<Kind>, failed: Kind): Status {
    if step.kind == failed then Failed
    else if Owner(step.kind) in applied then Verified
    else if step.noOp then Skipped
    else Pending
  }

  lemma {:induction false} StatusSettles(step: Step, applied: set<Kind>, failed: Kind, script: Script)
    ensures StatusAfter(step, applied, failed, script) ==
            if Owner(step.kind) in applied && !Owner(step.kind).CameraRestart? then Ended(script, Owner(step.kind))
            else MarkedStatus(step, applied, failed)
  {
  }

  lemma {:induction false} UndoneReport(m: Machine, plan: seq<Step>, script: Script, i: nat)
    returns (steps: seq<StepReport>)
    requires Clear(plan) && Matching(m.report.steps, plan) && Grounded(m, plan) && i < |plan|
    ensures steps == Rollback(m, plan, script).0.report.steps && Matching(steps, plan)
    ensures steps[i].status ==
            if Owner(plan[i].kind) in m.applied && !Owner(plan[i].kind).CameraRestart? then
              Ended(script, Owner(plan[i].kind))
            else m.report.steps[i].status
  {
    var m1, order := RollbackRuns(m, plan, script);
    UndosMark(m1, plan, script, order, i);
    steps := Rollback(m, plan, script).0.report.steps;
  }

  lemma {:induction false} FailedMark(m: Machine, plan: seq<Step>, failed: Kind, i: nat)
    requires Clear(plan) && Truthful(m, plan) && i < |plan|
    requires ControlPrerequisite !in m.applied && PlanStep(plan, failed).Some?
    ensures var steps := SetStep(m.report.steps, PlanStep(plan, failed).value.sequence, Failed);
            && Matching(steps, plan)
            && steps[i].status == MarkedStatus(plan[i], m.applied.Keys, failed)
  {
    MarkedAt(m.report.steps, plan, failed, Failed, i);
    ClearIndex(plan, i, failed);
    HitIsOwned(plan, m.applied.Keys, i);
  }

  /** Recovery reports what its rollback did, and adds only labels. */
  lemma {:induction false} RecoverReports(m: Machine, plan: seq<Step>, script: Script, failure: Failure)
    requires Grounded(m, plan)
    ensures var (m1, undone) := Rollback(Marked(m, failure.sequence, Failed), plan, script);
            var report := Recover(m, plan, script, failure).0.report;
            var labels := Labels(failure, CameraRestart in m1.applied, undone);
            && report.steps == m1.report.steps
            && (report.rollbackFailures == m1.report.rollbackFailures + labels
                || (report.rollbackFailures == m1.report.rollbackFailures == [] && labels == []))
  {
    var (m1, undone) := Rollback(Marked(m, failure.sequence, Failed), plan, script);
    FinishReports(m1, script, Reverted, Failing(false));
  }

  lemma {:induction false} FinishReports(m: Machine, script: Script, outcome: Outcome, clean: Result)
    ensures var report := Finish(m, script, outcome, clean).0.report;
            report.steps == m.report.steps && report.rollbackFailures == m.report.rollbackFailures
  {
  }

  lemma {:induction false} FailureNumber(m: Machine, plan: seq<Step>, script: Script, kinds: seq<Kind>)
    ensures var failure := ApplyStages(m, plan, script, kinds).1;
            failure.Some? ==>
              && PlanStep(plan, failure.value.kind).Some?
              && failure.value.sequence == PlanStep(plan, failure.value.kind).value.sequence
    decreases |kinds|
  {
    if kinds != [] { FailureNumber(ApplyStage(m, plan, script, kinds[0]).0, plan, script, kinds[1..]); }
  }

  lemma {:induction false} ForwardTruthful(device: State, plan: seq<Step>, script: Script, writes: seq<Writing>)
    ensures Truthful(Forward(device, plan, script, writes).0, plan)
  {
    OpeningTruthful(device, plan, writes);
    assert Distinct(ApplyOrder);
    StagesReport(WriteJournal(Started(device, plan, writes)).0, plan, script, ApplyOrder);
  }

  lemma {:induction false} PlannedClear(shape: Shape)
    requires shape.mute.None? || shape.video.None?
    ensures Clear(Planned(shape))
  {
    var plan := Planned(shape);
    NumberingCollides(shape);
    PlanRises(shape);
    forall i | 0 <= i < |plan| ensures PlanStep(plan, plan[i].kind) == Some(plan[i]) { PlanFinds(plan, i); }
  }

  /** The step report of a failed run is exact.  When stage `n` is the first that
    * does not stand, the steps of the stages that took effect, prerequisites with
    * their controls, show that they were rolled back, or that their own undo
    * failed; a restart stays verified; the failing step shows that it failed; what
    * was never reached is pending and what asked for nothing is skipped.  The mute
    * and the video step share a number, so one of them is not planned here. */
  lemma {:induction false} FailedStepsExact(device: State, shape: Shape, script: Script, writes: seq<Writing>, n: nat,
          i: nat)
    requires Complete(device) && Writes(writes, 0) && (shape.mute.None? || shape.video.None?)
    requires exists s :: s in Planned(shape) && !s.noOp
    requires FailsAt(DueStages(ApplyOrder, Planned(shape)), script, writes, 1, n) && i < |Planned(shape)|
    ensures var plan := Planned(shape);
            var due := DueStages(ApplyOrder, plan);
            var steps := Run(device, None, plan, script, writes).0.report.steps;
            && |steps| == |plan| && steps[i].sequence == plan[i].sequence
            && steps[i].status == StatusAfter(plan[i], Kinds(due[..Applied(due, script, n)]), due[n], script)
  {
    var plan := Planned(shape);
    var (m, failure) := Forward(device, plan, script, writes);
    PlannedClear(shape);
    FailedForward(device, plan, script, writes, n);
    ForwardTruthful(device, plan, script, writes);
    ForwardLogs(device, plan, script, writes);
    FailureNumber(WriteJournal(Started(device, plan, writes)).0, plan, script, ApplyOrder);
    RunTurnsBack(device, plan, script, writes);
    RecoverReports(m, plan, script, failure.value);
    RolledBackSteps(m, plan, script, failure.value.kind, i);
  }

  // ------------------------------------------------------------------ what is amiss

  /** What the list of rollback failures says, label by label. */
  predicate Amiss(failures: seq<Label>, due: seq<Kind>, script: Script, writes: seq<Writing>, n: nat)
    requires n < |due|
  {
    var applied := Kinds(due[..Applied(due, script, n)]);
    && (forall kind: Kind :: Stage(kind) in failures <==>
          kind in applied && !kind.CameraRestart? && kind in script.undo && script.undo[kind].Leaves?)
    && (FailedStageState in failures <==>
          BreaksAt(due, script, n) && (script.forward[due[n]].partial || due[n].CameraRestart?))
    && (RestartIrreversible in failures <==> CameraRestart in applied)
    && (RollbackError in failures <==>
          !UndoesIn(RollbackOrder(applied), script, writes, 1 + Applied(due, script, n)))
  }

  predicate Listed(failures: seq<Label>, order: seq<Kind>, script: Script, partial: bool, restarted: bool,
      undone: bool)
  {
    && (forall kind: Kind :: Stage(kind) in failures <==> kind in order && Leaving(script, kind))
    && (FailedStageState in failures <==> partial) && (RestartIrreversible in failures <==> restarted)
    && (RollbackError in failures <==> !undone)
  }

  lemma {:induction false} LabelsList(order: seq<Kind>, script: Script, failure: Failure, restarted: bool, undone: bool)
    ensures Listed(Left(order, script) + Labels(failure, restarted, undone), order, script, failure.partial, restarted,
                   undone)
  {
  }

  lemma {:induction false} RecoverLists(m: Machine, plan: seq<Step>, script: Script, failure: Failure)
    requires Grounded(m, plan) && m.report.rollbackFailures == []
    ensures Listed(Recover(m, plan, script, failure).0.report.rollbackFailures, RollbackOrder(m.applied.Keys), script,
                   failure.partial, CameraRestart in m.applied,
                   Rollback(Marked(m, failure.sequence, Failed), plan, script).1)
  {
    var m1 := Marked(m, failure.sequence, Failed);
    RecoverReports(m, plan, script, failure);
    RollbackLogs(m1, plan, script);
    var m2, order := RollbackRuns(m1, plan, script);
    UndosLeave(m2, plan, script, order);
    assert m2.report.rollbackFailures + Left(order, script) == Left(order, script);
    LabelsList(order, script, failure, CameraRestart in m.applied, Rollback(m1, plan, script).1);
    assert Left(order, script) + [] == Left(order, script);
  }

  lemma {:induction false} RollbackGoesWell(m: Machine, plan: seq<Step>, script: Script, writes: seq<Writing>,
          base: nat)
    requires Grounded(m, plan) && Going(m, writes, base)
    ensures Rollback(m, plan, script).1 <==> UndoesIn(RollbackOrder(m.applied.Keys), script, writes, base)
  {
    var m1, order := RollbackRuns(m, plan, script);
    UndoStagesGo(m1, plan, script, order, writes, base);
  }

  /** The list a recovery leaves, over the order of its undos. */
  lemma {:induction false} RecoveredList(m: Machine, plan: seq<Step>, script: Script, failure: Failure,
          writes: seq<Writing>, base: nat)
    returns (failures: seq<Label>, order: seq<Kind>, undone: bool)
    requires Grounded(m, plan) && m.report.rollbackFailures == [] && Going(m, writes, base)
    ensures failures == Recover(m, plan, script, failure).0.report.rollbackFailures
    ensures order == RollbackOrder(m.applied.Keys)
    ensures forall kind: Kind :: kind in order <==>
              kind in m.applied && !kind.CameraRestart? && !kind.ControlPrerequisite?
    ensures Listed(failures, order, script, failure.partial, CameraRestart in m.applied, undone)
    ensures undone <==> UndoesIn(order, script, writes, base)
  {
    var m1 := Marked(m, failure.sequence, Failed);
    RecoverLists(m, plan, script, failure);
    RollbackGoesWell(m1, plan, script, writes, base);
    RollbackOrderDistinct(m.applied.Keys);
    failures, order := Recover(m, plan, script, failure).0.report.rollbackFailures, RollbackOrder(m.applied.Keys);
    undone := Rollback(m1, plan, script).1;
  }

  /** The list of rollback failures is exact: the undos that left something behind,
    * a failing stage that may have, a restart, and whether any undo or journal
    * write of the rollback failed. */
  lemma {:induction false} FailuresExact(device: State, plan: seq<Step>, script: Script, writes: seq<Writing>, n: nat)
    requires Complete(device) && Writes(writes, 0) && exists s :: s in plan && !s.noOp
    requires FailsAt(DueStages(ApplyOrder, plan), script, writes, 1, n)
    ensures Amiss(Run(device, None, plan, script, writes).0.report.rollbackFailures, DueStages(ApplyOrder, plan),
                  script, writes, n)
  {
    var m, failure := RunRecovers(device, plan, script, writes, n);
    AmissAfter(m, plan, script, failure, DueStages(ApplyOrder, plan), writes, n);
  }

  /** Where a failing run turned back. */
  predicate TurnsBack(m: Machine, failure: Failure, due: seq<Kind>, script: Script, writes: seq<Writing>, n: nat)
    requires n < |due|
  {
    && m.report.rollbackFailures == []
    && m.applied.Keys == Kinds(due[..Applied(due, script, n)]) && Going(m, writes, 1 + Applied(due, script, n))
    && (forall kind :: kind in due ==> kind in ApplyOrder)
    && (failure.partial <==> BreaksAt(due, script, n) && (script.forward[due[n]].partial || due[n].CameraRestart?))
  }

  lemma {:induction false} RunRecovers(device: State, plan: seq<Step>, script: Script, writes: seq<Writing>, n: nat)
    returns (m: Machine, failure: Failure)
    requires Complete(device) && Writes(writes, 0) && exists s :: s in plan && !s.noOp
    requires FailsAt(DueStages(ApplyOrder, plan), script, writes, 1, n)
    ensures Grounded(m, plan) && Run(device, None, plan, script, writes) == Recover(m, plan, script, failure)
    ensures TurnsBack(m, failure, DueStages(ApplyOrder, plan), script, writes, n)
  {
    FailedForward(device, plan, script, writes, n);
    RunTurnsBack(device, plan, script, writes);
    m, failure := Forward(device, plan, script, writes).0, Forward(device, plan, script, writes).1.value;
  }

  lemma {:induction false} AmissAfter(m: Machine, plan: seq<Step>, script: Script, failure: Failure, due: seq<Kind>,
          writes: seq<Writing>, n: nat)
    requires n < |due| && Grounded(m, plan) && TurnsBack(m, failure, due, script, writes, n)
    ensures Amiss(Recover(m, plan, script, failure).0.report.rollbackFailures, due, script, writes, n)
  {
    var count := Applied(due, script, n);
    var failures, order, undone := RecoveredList(m, plan, script, failure, writes, 1 + count);
    AppliedInOrder(due, count);
    ListedIsAmiss(failures, order, m.applied.Keys, due, script, writes, n, failure.partial, undone);
  }

  lemma {:induction false} ListedIsAmiss(failures: seq<Label>, order: seq<Kind>, applied: set<Kind>, due: seq<Kind>,
          script: Script, writes: seq<Writing>, n: nat, partial: bool, undone: bool)
    requires n < |due| && applied == Kinds(due[..Applied(due, script, n)]) && order == RollbackOrder(applied)
    requires forall kind: Kind :: kind in order <==> kind in applied && !kind.CameraRestart?
    requires Listed(failures, order, script, partial, CameraRestart in applied, undone)
    requires partial <==> BreaksAt(due, script, n) && (script.forward[due[n]].partial || due[n].CameraRestart?)
    requires undone <==> UndoesIn(order, script, writes, 1 + Applied(due, script, n))
    ensures Amiss(failures, due, script, writes, n)
  {
  }

  lemma {:induction false} AppliedInOrder(due: seq<Kind>, count: nat)
    requires count <= |due| && forall kind :: kind in due ==> kind in ApplyOrder
    ensures ControlPrerequisite !in Kinds(due[..count])
  {
    assert ControlPrerequisite !in ApplyOrder;
    forall kind | kind in due[..count] ensures kind in ApplyOrder { assert kind in due; }
  }
}
