/** Whether the step report of a completed preset tells the truth: it does but
  * for a video step that shares its number with a mute step. */
module PresetReport {
  import opened Wrappers
  import opened Preset
  import opened PresetSafety

  predicate FirstAt(plan: seq<Step>, i: nat)
    requires i < |plan|
  {
    forall j :: 0 <= j < i ==> plan[j].sequence != plan[i].sequence
  }

  predicate Matching(steps: seq<StepReport>, plan: seq<Step>) {
    |steps| == |plan| && forall i :: 0 <= i < |plan| ==> steps[i].sequence == plan[i].sequence
  }

  /** No entry before the `i`-th has the number. */
  predicate NoneBefore(steps: seq<StepReport>, i: nat, sequence: nat)
    requires i <= |steps|
  {
    forall j :: 0 <= j < i ==> steps[j].sequence != sequence
  }

  lemma {:induction false} NoneBeforeTail(steps: seq<StepReport>, i: nat, sequence: nat)
    requires 0 < i <= |steps| && steps[0].sequence != sequence
    ensures NoneBefore(steps, i, sequence) <==> NoneBefore(steps[1..], i - 1, sequence)
  {
    if NoneBefore(steps[1..], i - 1, sequence) {
      forall j | 0 < j < i ensures steps[j].sequence != sequence { assert steps[1..][j - 1] == steps[j]; }
    }
  }

  lemma {:induction false} SetStepAt(steps: seq<StepReport>, sequence: nat, status: Status, i: nat)
    requires i < |steps|
    ensures SetStep(steps, sequence, status)[i] ==
            if steps[i].sequence == sequence && NoneBefore(steps, i, sequence) then StepReport(sequence, status)
            else steps[i]
    decreases |steps|
  {
    if i > 0 {
      if steps[0].sequence != sequence {
        SetStepAt(steps[1..], sequence, status, i - 1);
        NoneBeforeTail(steps, i, sequence);
      } else {
        assert !NoneBefore(steps, i, sequence);
      }
    }
  }

  /** The numbers the given stages mark. */
  predicate Hit(plan: seq<Step>, applied: set<Kind>, n: nat) {
    exists kind :: kind in applied && Marks(plan, kind, n)
  }

  predicate Marks(plan: seq<Step>, kind: Kind, n: nat) {
    || (PlanStep(plan, kind).Some? && PlanStep(plan, kind).value.sequence == n)
    || (kind.StandardControls? && PlanStep(plan, ControlPrerequisite).Some?
        && PlanStep(plan, ControlPrerequisite).value.sequence == n)
  }

  /** What entry `i` shows while the given stages are applied. */
  function Shown(plan: seq<Step>, applied: set<Kind>, i: nat): Status
    requires i < |plan|
  {
    if FirstAt(plan, i) && Hit(plan, applied, plan[i].sequence) then Verified
    else if plan[i].noOp then Skipped else Pending
  }

  predicate Truthful(m: Machine, plan: seq<Step>) {
    Matching(m.report.steps, plan) && forall i :: 0 <= i < |plan| ==>
        m.report.steps[i].status == Shown(plan, m.applied.Keys, i)
  }

  lemma {:induction false} MarkAt(steps: seq<StepReport>, plan: seq<Step>, sequence: nat, status: Status, i: nat)
    requires Matching(steps, plan) && i < |plan|
    ensures Matching(SetStep(steps, sequence, status), plan)
    ensures SetStep(steps, sequence, status)[i].status ==
            if plan[i].sequence == sequence && FirstAt(plan, i) then status else steps[i].status
  {
    SetStepAt(steps, sequence, status, i);
    assert NoneBefore(steps, i, plan[i].sequence) <==> FirstAt(plan, i);
  }

  lemma {:induction false} MarkedBothAt(m: Machine, plan: seq<Step>, step: Step, status: Status, i: nat)
    requires Matching(m.report.steps, plan) && i < |plan| && PlanStep(plan, step.kind) == Some(step)
    ensures var after := MarkedBoth(m, plan, step, status).report.steps;
            && Matching(after, plan)
            && after[i].status == if FirstAt(plan, i) && Marks(plan, step.kind, plan[i].sequence) then status
                else m.report.steps[i].status
  {
    var prerequisite := if step.kind.StandardControls? then PlanStep(plan, ControlPrerequisite) else None;
    if prerequisite.Some? {
      MarkAt(m.report.steps, plan, prerequisite.value.sequence, status, i);
      MarkAt(Marked(m, prerequisite.value.sequence, status).report.steps, plan, step.sequence, status, i);
    } else {
      MarkAt(m.report.steps, plan, step.sequence, status, i);
    }
  }

  lemma {:induction false} MarkingKeepsTruth(m: Machine, plan: seq<Step>, step: Step)
    requires Truthful(m, plan) && PlanStep(plan, step.kind) == Some(step)
    ensures var after := MarkedBoth(m, plan, step, Verified).report.steps;
            Matching(after, plan) && forall i :: 0 <= i < |plan| ==>
                after[i].status == Shown(plan, m.applied.Keys + {step.kind}, i)
  {
    var after := MarkedBoth(m, plan, step, Verified).report.steps;
    if plan != [] { MarkedBothAt(m, plan, step, Verified, 0); }
    forall i | 0 <= i < |plan| ensures after[i].status == Shown(plan, m.applied.Keys + {step.kind}, i) {
      MarkedBothAt(m, plan, step, Verified, i);
      HitGrows(plan, m.applied.Keys, step.kind, plan[i].sequence);
    }
  }

  lemma {:induction false} StageMarks(m: Machine, plan: seq<Step>, script: Script, kind: Kind)
    ensures var m1 := ApplyStage(m, plan, script, kind).0;
            || (m1.report == m.report && m1.applied == m.applied)
            || (&& PlanStep(plan, kind).Some?
                && m1.report.steps == MarkedBoth(m, plan, PlanStep(plan, kind).value, Verified).report.steps
                && m1.applied.Keys == m.applied.Keys + {kind})
  {
  }

  lemma {:induction false} StageReports(m: Machine, plan: seq<Step>, script: Script, kind: Kind)
    requires Truthful(m, plan)
    ensures Truthful(ApplyStage(m, plan, script, kind).0, plan)
  {
    StageMarks(m, plan, script, kind);
    if PlanStep(plan, kind).Some? { MarkingKeepsTruth(m, plan, PlanStep(plan, kind).value); }
  }

  lemma {:induction false} HitGrows(plan: seq<Step>, applied: set<Kind>, kind: Kind, n: nat)
    ensures Hit(plan, applied + {kind}, n) <==> Hit(plan, applied, n) || Marks(plan, kind, n)
  {
    if Marks(plan, kind, n) { assert kind in applied + {kind}; }
    if other :| other in applied && Marks(plan, other, n) { assert other in applied + {kind}; }
  }

  lemma {:induction false} StagesReport(m: Machine, plan: seq<Step>, script: Script, kinds: seq<Kind>)
    requires Truthful(m, plan) && Distinct(kinds) && forall kind :: kind in kinds ==> kind !in m.applied
    ensures Truthful(ApplyStages(m, plan, script, kinds).0, plan)
    decreases |kinds|
  {
    if kinds != [] {
      StageReports(m, plan, script, kinds[0]);
      StageEffect(m, plan, script, kinds[0]);
      TailDistinct(kinds);
      var (m1, failure) := ApplyStage(m, plan, script, kinds[0]);
      if failure.None? { StagesReport(m1, plan, script, kinds[1..]); }
    }
  }

  lemma {:induction false} StagesApply(m: Machine, plan: seq<Step>, script: Script, kinds: seq<Kind>)
    requires (forall kind :: kind in kinds ==> kind in ApplyOrder) && ApplyStages(m, plan, script, kinds).1.None?
    ensures forall kind :: kind in ApplyStages(m, plan, script, kinds).0.applied <==>
            kind in m.applied || (kind in kinds && Due(plan, kind))
    decreases |kinds|
  {
    if kinds != [] {
      var m1 := ApplyStage(m, plan, script, kinds[0]).0;
      assert m1.applied.Keys == m.applied.Keys + if Due(plan, kinds[0]) then {kinds[0]} else {};
      assert forall kind :: kind in kinds <==> kind == kinds[0] || kind in kinds[1..];
      StagesApply(m1, plan, script, kinds[1..]);
    }
  }

  lemma {:induction false} OpeningTruthful(device: State, plan: seq<Step>, writes: seq<Writing>)
    ensures Truthful(WriteJournal(Started(device, plan, writes)).0, plan)
  {
    var m := WriteJournal(Started(device, plan, writes)).0;
    assert m.applied.Keys == {};
    forall i | 0 <= i < |plan|
        ensures m.report.steps[i].status == Shown(plan, {}, i) { assert !Hit(plan, {}, plan[i].sequence); }
  }

  /** A completed run marks exactly the first entries of the numbers of its due
    * stages. */
  lemma {:induction false} CompletedReport(device: State, plan: seq<Step>, script: Script, writes: seq<Writing>)
    requires Forward(device, plan, script, writes).1.None?
    ensures var m := Forward(device, plan, script, writes).0;
            Truthful(m, plan) && forall kind :: kind in m.applied <==> Due(plan, kind)
  {
    var m := WriteJournal(Started(device, plan, writes)).0;
    OpeningTruthful(device, plan, writes);
    assert Distinct(ApplyOrder);
    StagesReport(m, plan, script, ApplyOrder);
    StagesApply(m, plan, script, ApplyOrder);
  }

  predicate EveryDueVerified(steps: seq<StepReport>, plan: seq<Step>) {
    Matching(steps, plan) && forall i :: 0 <= i < |plan| && !plan[i].noOp ==> steps[i].status.Verified?
  }

  /** A prerequisite is planned only beside standard controls that change. */
  predicate Plannable(shape: Shape) {
    shape.prerequisite.Some? ==> shape.prerequisite == Some(false) && shape.controls == Some(false)
  }

  /** Kinds rise along a plan, so each is found where it stands. */
  lemma {:induction false} PlanFinds(plan: seq<Step>, i: nat)
    requires i < |plan| && forall j, k :: 0 <= j < k < |plan| ==> Rank(plan[j].kind) < Rank(plan[k].kind)
    ensures PlanStep(plan, plan[i].kind) == Some(plan[i])
    decreases |plan|
  {
    if i > 0 {
      assert plan[0].kind != plan[i].kind;
      PlanFinds(plan[1..], i - 1);
    }
  }

  lemma {:induction false} PlanRises(shape: Shape)
    ensures var plan := Planned(shape);
            forall j, k :: 0 <= j < k < |plan| ==> Rank(plan[j].kind) < Rank(plan[k].kind)
    ensures var plan := Planned(shape);
            forall k :: 0 <= k < |plan| ==> (FirstAt(plan, k) <==> !(plan[k].kind.VideoFormat? && shape.mute.Some?))
  {
    BeforeVideoNumbered(shape);
    var d := BeforeVideo(shape);
    var plan := Planned(shape);
    forall k | 0 <= k < |plan| ensures FirstAt(plan, k) <==> !(plan[k].kind.VideoFormat? && shape.mute.Some?) {
      if plan[k].kind.VideoFormat? {
        if shape.mute.Some? {
          var i :| 0 <= i < |d.steps| && d.steps[i].kind.AudioMute?;
          assert plan[i].sequence == plan[k].sequence;
        }
      }
    }
  }

  lemma {:induction false} ControlsPresent(shape: Shape) returns (i: nat)
    requires shape.controls.Some?
    ensures i < |Planned(shape)| && Planned(shape)[i].kind.StandardControls?
            && Planned(shape)[i].noOp == shape.controls.value
  {
    var d1 := Push(Draft([], 0), CameraRestart, shape.restart, 1);
    var d2 := Push(d1, VendorControls, shape.vendor, 1);
    var d3 := Push(d2, ControlPrerequisite, shape.prerequisite, 1);
    var d4 := Push(d3, StandardControls, shape.controls, 1);
    i := |d3.steps|;
    assert d4.steps[i].kind.StandardControls?;
  }

  lemma {:induction false} VideoPresent(shape: Shape)
    ensures var plan := Planned(shape);
            && (shape.video.Some? ==>
                plan != [] && plan[|plan| - 1].kind.VideoFormat? && plan[|plan| - 1].noOp == shape.video.value)
            && (shape.prerequisite.None? ==> forall i :: 0 <= i < |plan| ==> !plan[i].kind.ControlPrerequisite?)
            && forall i :: 0 <= i < |plan| && plan[i].kind.VideoFormat? ==> shape.video == Some(plan[i].noOp)
  {
    BeforeVideoNumbered(shape);
    NoPrerequisite(shape);
  }

  lemma {:induction false} NoPrerequisite(shape: Shape)
    ensures shape.prerequisite.None? ==> forall s :: s in Planned(shape) ==> !s.kind.ControlPrerequisite?
  {
  }

  lemma {:induction false} DueEntryHit(shape: Shape, i: nat, applied: set<Kind>)
    requires Plannable(shape) && i < |Planned(shape)| && !Planned(shape)[i].noOp
    requires forall kind :: kind in applied <==> Due(Planned(shape), kind)
    ensures Hit(Planned(shape), applied, Planned(shape)[i].sequence)
  {
    var plan := Planned(shape);
    PlanRises(shape);
    PlanFinds(plan, i);
    VideoPresent(shape);
    if plan[i].kind.ControlPrerequisite? {
      var c := ControlsPresent(shape);
      PlanFinds(plan, c);
      assert StandardControls == ApplyOrder[2] && StandardControls in applied;
      assert Marks(plan, StandardControls, plan[i].sequence);
    } else {
      KindsOrdered(plan[i].kind);
      assert plan[i].kind in applied && Marks(plan, plan[i].kind, plan[i].sequence);
    }
  }

  lemma {:induction false} KindsOrdered(kind: Kind)
    requires !kind.ControlPrerequisite?
    ensures kind in ApplyOrder
  {
    assert ApplyOrder[0].CameraRestart? && ApplyOrder[1].VendorControls? && ApplyOrder[2].StandardControls?;
    assert ApplyOrder[3].AudioGain? && ApplyOrder[4].AudioMute? && ApplyOrder[5].VideoFormat?;
  }

  /** A completed run shows every due step `Verified` exactly when it did not
    * plan a mute step beside a video step that changes the format; otherwise the
    * video entry is never marked. */
  lemma {:induction false} CompletedReportExact(device: State, shape: Shape, script: Script, writes: seq<Writing>)
    requires Complete(device)
    requires Plannable(shape)
    requires Run(device, None, Planned(shape), script, writes).1.Succeeded?
    requires exists s :: s in Planned(shape) && !s.noOp
    ensures EveryDueVerified(Run(device, None, Planned(shape), script, writes).0.report.steps, Planned(shape))
            <==> !(shape.mute.Some? && shape.video == Some(false))
  {
    SuccessGoesForward(device, Planned(shape), script, writes);
    CompletedReport(device, Planned(shape), script, writes);
    ShapeReport(shape, Forward(device, Planned(shape), script, writes).0);
  }

  lemma {:induction false} SuccessGoesForward(device: State, plan: seq<Step>, script: Script, writes: seq<Writing>)
    requires Complete(device)
    requires Run(device, None, plan, script, writes).1.Succeeded? && exists s :: s in plan && !s.noOp
    ensures Forward(device, plan, script, writes).1.None?
    ensures Run(device, None, plan, script, writes).0.report.steps ==
            Forward(device, plan, script, writes).0.report.steps
  {
    ForwardFacts(device, plan, script, writes);
    var (m1, failure) := Forward(device, plan, script, writes);
    if failure.Some? {
      RecoverCases(m1, plan, script, failure.value);
    }
  }

  lemma {:induction false} ShapeReport(shape: Shape, m: Machine)
    requires Plannable(shape) && Truthful(m, Planned(shape)) && forall kind :: kind in m.applied <==>
             Due(Planned(shape), kind)
    ensures EveryDueVerified(m.report.steps, Planned(shape)) <==> !(shape.mute.Some? && shape.video == Some(false))
  {
    var plan := Planned(shape);
    PlanRises(shape);
    VideoPresent(shape);
    forall i | 0 <= i < |plan| && !plan[i].noOp
      ensures m.report.steps[i].status.Verified? <==> !(plan[i].kind.VideoFormat? && shape.mute.Some?)
    {
      DueEntryHit(shape, i, m.applied.Keys);
    }
  }
}
