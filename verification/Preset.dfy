/** The preset transaction: staged application under a write-ahead journal, and
  * rollback in reverse order.  Every stage owns one component of the device. */
module Preset {
  import opened Wrappers

  datatype Kind = CameraRestart | VendorControls | ControlPrerequisite | StandardControls | AudioGain | AudioMute
    | VideoFormat

  datatype Step = Step(sequence: nat, kind: Kind, noOp: bool)

  // ---------------------------------------------------------------- planning

  /** The steps a preset asks for; each present one says whether it is a no-op. */
  datatype Shape = Shape(
    restart: Option<bool>,
    vendor: Option<bool>,
    prerequisite: Option<bool>,
    controls: Option<bool>,
    gain: Option<bool>,
    mute: Option<bool>,
    video: Option<bool>)

  datatype Draft = Draft(steps: seq<Step>, sequence: nat)

  function Push(draft: Draft, kind: Kind, noOp: Option<bool>, advance: nat): Draft {
    if noOp.None? then draft
    else Draft(draft.steps + [Step(draft.sequence, kind, noOp.value)], draft.sequence + advance)
  }

  /** The mute step is numbered without moving the number on, so that a video
    * step takes the same one. */
  function Planned(shape: Shape): seq<Step> {
    var d1 := Push(Draft([], 0), CameraRestart, shape.restart, 1);
    var d2 := Push(d1, VendorControls, shape.vendor, 1);
    var d3 := Push(d2, ControlPrerequisite, shape.prerequisite, 1);
    var d4 := Push(d3, StandardControls, shape.controls, 1);
    var d5 := Push(d4, AudioGain, shape.gain, 1);
    var d6 := Push(d5, AudioMute, shape.mute, 0);
    Push(d6, VideoFormat, shape.video, 0).steps
  }

  function PlanStep(plan: seq<Step>, kind: Kind): (r: Option<Step>)
    ensures r.Some? ==> r.value in plan && r.value.kind == kind
    ensures r.None? ==> forall s :: s in plan ==> s.kind != kind
    decreases |plan|
  {
    if plan == [] then None
    else if plan[0].kind == kind then Some(plan[0])
    else PlanStep(plan[1..], kind)
  }

  // ----------------------------------------------------------------- reports

  datatype Status = Pending | Skipped | Verified | Failed | RolledBack | RollbackFailed

  datatype StepReport = StepReport(sequence: nat, status: Status)

  datatype Outcome = InProgress | Completed | Reverted | Partial

  datatype Label = Stage(kind: Kind) | FailedStageState | RestartIrreversible | RollbackError

  datatype Report = Report(outcome: Outcome, steps: seq<StepReport>, rollbackAttempted: bool,
    rollbackFailures: seq<Label>)

  /** Only the first entry with the number is set. */
  function SetStep(steps: seq<StepReport>, sequence: nat, status: Status): (r: seq<StepReport>)
    ensures |r| == |steps| && forall i :: 0 <= i < |r| ==> r[i].sequence == steps[i].sequence
    decreases |steps|
  {
    if steps == [] then []
    else if steps[0].sequence == sequence then [StepReport(sequence, status)] + steps[1..]
    else [steps[0]] + SetStep(steps[1..], sequence, status)
  }

  function StatusOf(steps: seq<StepReport>, sequence: nat): Option<Status>
    decreases |steps|
  {
    if steps == [] then None
    else if steps[0].sequence == sequence then Some(steps[0].status)
    else StatusOf(steps[1..], sequence)
  }

  function Opening(plan: seq<Step>): (r: seq<StepReport>)
    ensures |r| == |plan| && forall i :: 0 <= i < |r| ==>
            r[i] == StepReport(plan[i].sequence, if plan[i].noOp then Skipped else Pending)
    decreases |plan|
  {
    if plan == [] then []
    else [StepReport(plan[0].sequence, if plan[0].noOp then Skipped else Pending)] + Opening(plan[1..])
  }

  // --------------------------------------------------------- the environment

  /** How a stage answers: it takes effect, or it fails with a kind of error and
    * possibly with its own state moved. */
  datatype Application = Takes | Breaks(partial: bool, moved: Option<int>)

  datatype Reversal = Restores | Leaves(moved: Option<int>)

  /** A journal write can fail before or after the file is in place. */
  datatype Writing = Persisted | Lost | Unsynced

  datatype Removal = Removed | Stays | RemovedUnsynced

  datatype Script = Script(targets: map<Kind, int>, forward: map<Kind, Application>, undo: map<Kind, Reversal>,
    removal: Removal)

  function Applying(script: Script, kind: Kind): Application {
    if kind in script.forward then script.forward[kind] else Takes
  }

  function Reversing(script: Script, kind: Kind): Reversal {
    if kind in script.undo then script.undo[kind] else Restores
  }

  /** What every component holds. */
  type State = map<Kind, int>

  predicate Complete(device: State) { forall kind: Kind :: kind in device }

  function At(device: State, kind: Kind): int { if kind in device then device[kind] else 0 }

  datatype Event = Apply(kind: Kind) | Undo(kind: Kind)

  /** `applied` holds the value each applied stage found; `disk` is the recovery
    * journal, `writes` answers the coming journal writes. */
  datatype Machine = Machine(device: State, applied: map<Kind, int>, report: Report, disk: Option<Report>,
    writes: seq<Writing>, log: seq<Event>)

  function Target(device: State, script: Script, kind: Kind): int {
    if kind in script.targets then script.targets[kind] else At(device, kind)
  }

  function Moved(device: State, kind: Kind, moved: Option<int>): State {
    if moved.Some? then device[kind := moved.value] else device
  }

  function WriteJournal(m: Machine): (r: (Machine, bool))
    ensures r.0.device == m.device && r.0.applied == m.applied && r.0.report == m.report && r.0.log == m.log
    ensures r.0.disk == Some(m.report) || (r.0.disk == m.disk && !r.1)
  {
    var answer := if m.writes == [] then Persisted else m.writes[0];
    var rest := if m.writes == [] then [] else m.writes[1..];
    match answer
    case Persisted => (m.(disk := Some(m.report), writes := rest), true)
    case Unsynced => (m.(disk := Some(m.report), writes := rest), false)
    case Lost => (m.(writes := rest), false)
  }

  function RemoveJournal(m: Machine, removal: Removal): (Machine, bool) {
    match removal
    case Removed => (m.(disk := None), true)
    case RemovedUnsynced => (m.(disk := None), false)
    case Stays => (m, false)
  }

  function Marked(m: Machine, sequence: nat, status: Status): Machine {
    m.(report := m.report.(steps := SetStep(m.report.steps, sequence, status)))
  }

  // ------------------------------------------------------------------ applying

  datatype Failure = Failure(partial: bool, sequence: nat, kind: Kind, moved: Option<int>)

  const ApplyOrder := [CameraRestart, VendorControls, StandardControls, AudioGain, AudioMute, VideoFormat]

  /** A prerequisite step shares the fate of the standard controls. */
  function MarkedBoth(m: Machine, plan: seq<Step>, step: Step, status: Status): Machine {
    var prerequisite := if step.kind.StandardControls? then PlanStep(plan, ControlPrerequisite) else None;
    if prerequisite.Some? then Marked(Marked(m, prerequisite.value.sequence, status), step.sequence, status)
    else Marked(m, step.sequence, status)
  }

  /** Only planned stages are applied. */
  predicate Grounded(m: Machine, plan: seq<Step>) {
    forall kind :: kind in m.applied ==> PlanStep(plan, kind).Some?
  }

  function ApplyStage(m: Machine, plan: seq<Step>, script: Script, kind: Kind): (r: (Machine, Option<Failure>))
    ensures Grounded(m, plan) ==> Grounded(r.0, plan)
  {
    var step := PlanStep(plan, kind);
    if step.None? || step.value.noOp then (m, None)
    else
      match Applying(script, kind)
      case Breaks(partial, moved) =>
        (m.(device := Moved(m.device, kind, moved)),
            Some(Failure(partial || kind.CameraRestart?, step.value.sequence, kind, moved)))
      case Takes =>
        var m1 := m.(device := m.device[kind := Target(m.device, script, kind)],
            applied := m.applied[kind := At(m.device, kind)], log := m.log + [Apply(kind)]);
        var (m2, ok) := WriteJournal(MarkedBoth(m1, plan, step.value, Verified));
        (m2, if ok then None else Some(Failure(false, step.value.sequence, kind, None)))
  }

  function ApplyStages(m: Machine, plan: seq<Step>, script: Script, kinds: seq<Kind>): (r: (Machine, Option<Failure>))
    ensures Grounded(m, plan) ==> Grounded(r.0, plan)
    decreases |kinds|, plan
  {
    if kinds == [] then (m, None)
    else
      var (m1, failure) := ApplyStage(m, plan, script, kinds[0]);
      if failure.Some? then (m1, failure) else ApplyStages(m1, plan, script, kinds[1..])
  }

  // --------------------------------------------------------------- rolling back

  const UndoOrder := [VideoFormat, AudioMute, AudioGain, StandardControls, VendorControls]

  function Filter(kinds: seq<Kind>, chosen: set<Kind>): (r: seq<Kind>)
    ensures forall kind :: kind in r <==> kind in kinds && kind in chosen
    decreases |kinds|, chosen
  {
    if kinds == [] then [] else (if kinds[0] in chosen then [kinds[0]] else []) + Filter(kinds[1..], chosen)
  }

  /** The applied stages newest first; a restart is never undone. */
  function RollbackOrder(applied: set<Kind>): seq<Kind> {
    Filter(UndoOrder, applied)
  }

  /** The prerequisite step copies the status the standard step ended with. */
  function Copied(m: Machine, plan: seq<Step>, step: Step): Machine {
    var prerequisite := if step.kind.StandardControls? then PlanStep(plan, ControlPrerequisite) else None;
    var status := StatusOf(m.report.steps, step.sequence);
    if prerequisite.Some? && status.Some? then Marked(m, prerequisite.value.sequence, status.value) else m
  }

  function UndoStage(m: Machine, plan: seq<Step>, script: Script, kind: Kind): (r: (Machine, bool))
    requires PlanStep(plan, kind).Some? && kind in m.applied
    ensures r.0.applied == m.applied && r.0.log == m.log + [Undo(kind)]
  {
    var step := PlanStep(plan, kind).value;
    var m1 := m.(log := m.log + [Undo(kind)]);
    var m2 := match Reversing(script, kind)
      case Restores => Marked(m1.(device := m.device[kind := m.applied[kind]]), step.sequence, RolledBack)
      case Leaves(moved) =>
        Marked(m1.(device := Moved(m.device, kind, moved),
            report := m.report.(rollbackFailures := m.report.rollbackFailures + [Stage(kind)])),
               step.sequence, RollbackFailed);
    var (m3, ok) := WriteJournal(Copied(m2, plan, step));
    (m3, ok && Reversing(script, kind).Restores?)
  }

  /** Continues past failed undos; the flag tells whether all went well. */
  function UndoStages(m: Machine, plan: seq<Step>, script: Script, kinds: seq<Kind>): (Machine, bool)
    requires forall kind :: kind in kinds ==> PlanStep(plan, kind).Some? && kind in m.applied
    decreases |kinds|, plan
  {
    if kinds == [] then (m, true)
    else
      var (m1, ok) := UndoStage(m, plan, script, kinds[0]);
      var (m2, rest) := UndoStages(m1, plan, script, kinds[1..]);
      (m2, ok && rest)
  }

  function Rollback(m: Machine, plan: seq<Step>, script: Script): (Machine, bool)
    requires Grounded(m, plan)
  {
    UndoStages(m.(report := m.report.(rollbackAttempted := true)), plan, script, RollbackOrder(m.applied.Keys))
  }

  // ------------------------------------------------------------------- running

  datatype Result = Refused | Succeeded | Failing(partial: bool)

  /** Ends a run that must not keep its journal: a journal that remains turns the
    * result into a partial one. */
  function Finish(m: Machine, script: Script, outcome: Outcome, clean: Result): (Machine, Result) {
    var (m1, ok) := RemoveJournal(m.(report := m.report.(outcome := outcome)), script.removal);
    if ok then (m1, clean)
    else (WriteJournal(m1.(report := m1.report.(outcome := Partial))).0, Failing(true))
  }

  function Labels(failure: Failure, restarted: bool, undone: bool): seq<Label> {
    (if failure.partial then [FailedStageState] else [])
    + (if restarted then [RestartIrreversible] else [])
    + (if undone then [] else [RollbackError])
  }

  function Recover(m: Machine, plan: seq<Step>, script: Script, failure: Failure): (Machine, Result)
    requires Grounded(m, plan)
  {
    var (m1, undone) := Rollback(Marked(m, failure.sequence, Failed), plan, script);
    var restarted := CameraRestart in m1.applied;
    if !failure.partial && !restarted && undone && m1.report.rollbackFailures == [] then
      Finish(m1, script, Reverted, Failing(false))
    else
      (WriteJournal(m1.(report := m1.report.(outcome := Partial,
                                              rollbackFailures :=
                                                  m1.report.rollbackFailures + Labels(failure, restarted, undone)))).0,
       Failing(true))
  }

  function Started(device: State, plan: seq<Step>, writes: seq<Writing>): Machine {
    Machine(device, map[], Report(InProgress, Opening(plan), false, []), None, writes, [])
  }

  /** One run over a plan, refused while a journal exists. */
  function Run(device: State, disk: Option<Report>, plan: seq<Step>, script: Script, writes: seq<Writing>): (Machine,
          Result) {
    var m := Started(device, plan, writes);
    if disk.Some? then (m.(disk := disk), Refused)
    else if forall s :: s in plan ==> s.noOp then (m.(report := m.report.(outcome := Completed)), Succeeded)
    else
      var (m1, ok) := WriteJournal(m);
      if !ok then (m1, Failing(false))
      else
        var (m2, failure) := ApplyStages(m1, plan, script, ApplyOrder);
        if failure.Some? then Recover(m2, plan, script, failure.value)
        else Finish(m2, script, Completed, Succeeded)
  }
}
