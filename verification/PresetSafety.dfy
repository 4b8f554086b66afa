/** What a preset run guarantees: all or nothing, rollback as the mirror of
  * application, and a journal on disk whenever the device is in between. */
module PresetSafety {
  import opened Wrappers
  import opened Preset

  // ------------------------------------------------ rollback mirrors application

  function Applies(kinds: seq<Kind>): seq<Event> { seq(|kinds|, i requires 0 <= i < |kinds| => Apply(kinds[i])) }

  function Undos(kinds: seq<Kind>): seq<Event> { seq(|kinds|, i requires 0 <= i < |kinds| => Undo(kinds[i])) }

  function Mirrored(kinds: seq<Kind>): seq<Kind> {
    if kinds == [] then [] else Mirrored(kinds[1..]) + [kinds[0]]
  }

  predicate Distinct(kinds: seq<Kind>) {
    forall i, j :: 0 <= i < j < |kinds| ==> kinds[i] != kinds[j]
  }

  lemma {:induction false} MirroredConcat(a: seq<Kind>, b: seq<Kind>)
    ensures Mirrored(a + b) == Mirrored(b) + Mirrored(a)
    decreases |a|
  {
    if a == [] {
      assert a + b == b && Mirrored(b) + [] == Mirrored(b);
    } else {
      assert (a + b)[1..] == a[1..] + b;
      MirroredConcat(a[1..], b);
    }
  }

  lemma {:induction false} FilterConcat(a: seq<Kind>, b: seq<Kind>, chosen: set<Kind>)
    ensures Filter(a + b, chosen) == Filter(a, chosen) + Filter(b, chosen)
    decreases |a|
  {
    if a == [] {
      assert a + b == b;
    } else {
      assert (a + b)[1..] == a[1..] + b;
      FilterConcat(a[1..], b, chosen);
    }
  }

  lemma {:induction false} MirroredFilter(kinds: seq<Kind>, chosen: set<Kind>)
    ensures Mirrored(Filter(kinds, chosen)) == Filter(Mirrored(kinds), chosen)
    decreases |kinds|
  {
    if kinds != [] {
      var head := if kinds[0] in chosen then [kinds[0]] else [];
      MirroredConcat(head, Filter(kinds[1..], chosen));
      assert Mirrored(head) == head by { assert head != [] ==> Mirrored(head[1..]) == []; }
      MirroredFilter(kinds[1..], chosen);
      FilterConcat(Mirrored(kinds[1..]), [kinds[0]], chosen);
      assert Filter([kinds[0]], chosen) == head by { assert [kinds[0]][1..] == []; }
    }
  }

  lemma {:induction false} UndoOrderMirrors()
    ensures Mirrored(ApplyOrder[1..]) == UndoOrder && ApplyOrder[0].CameraRestart?
  {
    MirroredConcat([VendorControls, StandardControls], [AudioGain, AudioMute, VideoFormat]);
    assert Mirrored([VendorControls, StandardControls]) == [StandardControls, VendorControls];
    assert Mirrored([AudioGain, AudioMute, VideoFormat]) == [VideoFormat, AudioMute, AudioGain];
    assert [VendorControls, StandardControls] + [AudioGain, AudioMute, VideoFormat] == ApplyOrder[1..];
    assert [VideoFormat, AudioMute, AudioGain] + [StandardControls, VendorControls] == UndoOrder;
  }

  /** The rollback order is the exact reverse of the applied stages in apply
    * order, the irreversible restart left out. */
  lemma {:induction false} RollbackOrderMirrors(applied: set<Kind>)
    ensures RollbackOrder(applied) == Mirrored(Filter(ApplyOrder[1..], applied))
  {
    MirroredFilter(ApplyOrder[1..], applied);
    UndoOrderMirrors();
  }

  lemma {:induction false} FilterDistinct(kinds: seq<Kind>, chosen: set<Kind>)
    requires Distinct(kinds)
    ensures Distinct(Filter(kinds, chosen))
    decreases |kinds|
  {
    if kinds != [] {
      FilterDistinct(kinds[1..], chosen);
      assert forall kind :: kind in kinds[1..] ==> kind != kinds[0];
    }
  }

  /** The start state with the failing stage's own state moved. */
  function Displaced(start: State, failure: Option<Failure>): State {
    if failure.Some? then Moved(start, failure.value.kind, failure.value.moved) else start
  }

  /** What one stage can do: nothing to the log and at most its own displacement,
    * or take effect and record what it found. */
  lemma {:induction false} StageEffect(m: Machine, plan: seq<Step>, script: Script, kind: Kind)
    ensures var (m1, failure) := ApplyStage(m, plan, script, kind);
            || (m1.applied == m.applied && m1.log == m.log && m1.device == Displaced(m.device, failure))
            || (&& m1.applied == m.applied[kind := At(m.device, kind)] && m1.log == m.log + [Apply(kind)]
                && m1.device == m.device[kind := At(m1.device, kind)] && (failure.Some? ==> failure.value.moved.None?))
    ensures var failure := ApplyStage(m, plan, script, kind).1;
            failure.Some? ==> failure.value.kind == kind
  {
  }

  /** Applying stages logs exactly those that took effect, in order. */
  lemma {:induction false} ApplyLogs(m: Machine, plan: seq<Step>, script: Script, kinds: seq<Kind>)
    requires Distinct(kinds) && forall kind :: kind in kinds ==> kind !in m.applied
    ensures var after := ApplyStages(m, plan, script, kinds).0;
            && after.log == m.log + Applies(Filter(kinds, after.applied.Keys))
            && m.applied.Keys <= after.applied.Keys && forall kind :: kind in after.applied ==>
                kind in m.applied || kind in kinds
    decreases |kinds|
  {
    if kinds != [] {
      var (m1, failure) := ApplyStage(m, plan, script, kinds[0]);
      StageEffect(m, plan, script, kinds[0]);
      TailDistinct(kinds);
      if failure.Some? {
        FilterNone(kinds[1..], m1.applied.Keys);
        LogStep(m, m1, m1, kinds);
      } else {
        ApplyLogs(m1, plan, script, kinds[1..]);
        LogStep(m, m1, ApplyStages(m1, plan, script, kinds[1..]).0, kinds);
      }
    }
  }

  lemma {:induction false} TailDistinct(kinds: seq<Kind>)
    requires Distinct(kinds) && kinds != []
    ensures Distinct(kinds[1..]) && kinds[0] !in kinds[1..]
  {
  }

  lemma {:induction false} LogStep(m: Machine, m1: Machine, after: Machine, kinds: seq<Kind>)
    requires kinds != [] && kinds[0] !in m.applied && kinds[0] !in kinds[1..]
    requires (m1.applied == m.applied && m1.log == m.log)
             || (m1.applied.Keys == m.applied.Keys + {kinds[0]} && m1.log == m.log + [Apply(kinds[0])])
    requires m1.applied.Keys <= after.applied.Keys && forall kind :: kind in after.applied ==>
             kind in m1.applied || kind in kinds[1..]
    requires after.log == m1.log + Applies(Filter(kinds[1..], after.applied.Keys))
    ensures after.log == m.log + Applies(Filter(kinds, after.applied.Keys))
  {
    var rest := Filter(kinds[1..], after.applied.Keys);
    if kinds[0] in after.applied {
      assert Applies([kinds[0]] + rest) == [Apply(kinds[0])] + Applies(rest);
    } else {
      assert [] + rest == rest;
    }
  }

  lemma {:induction false} FilterNone(kinds: seq<Kind>, chosen: set<Kind>)
    requires forall kind :: kind in kinds ==> kind !in chosen
    ensures Filter(kinds, chosen) == []
  {
    if kinds != [] { FilterNone(kinds[1..], chosen); }
  }

  lemma {:induction false} UndosUnroll(log: seq<Event>, kinds: seq<Kind>)
    requires kinds != []
    ensures (log + [Undo(kinds[0])]) + Undos(kinds[1..]) == log + Undos(kinds)
  {
    assert [Undo(kinds[0])] + Undos(kinds[1..]) == Undos(kinds);
  }

  lemma {:induction false} UndoLogs(m: Machine, plan: seq<Step>, script: Script, kinds: seq<Kind>)
    requires forall kind :: kind in kinds ==> PlanStep(plan, kind).Some? && kind in m.applied
    ensures UndoStages(m, plan, script, kinds).0.log == m.log + Undos(kinds)
    ensures UndoStages(m, plan, script, kinds).0.applied == m.applied
    decreases |kinds|
  {
    if kinds != [] {
      var (m1, ok) := UndoStage(m, plan, script, kinds[0]);
      UndoLogs(m1, plan, script, kinds[1..]);
      UndosUnroll(m.log, kinds);
    }
  }

  lemma {:induction false} ReportFlag(m: Machine, plan: seq<Step>, script: Script, kinds: seq<Kind>)
    ensures var after := ApplyStages(m, plan, script, kinds).0.report;
            after.rollbackAttempted == m.report.rollbackAttempted && after.rollbackFailures == m.report.rollbackFailures
            && after.outcome == m.report.outcome
    ensures m.disk.Some? ==> ApplyStages(m, plan, script, kinds).0.disk.Some?
    decreases |kinds|
  {
    if kinds != [] {
      ReportFlag(ApplyStage(m, plan, script, kinds[0]).0, plan, script, kinds[1..]);
    }
  }

  lemma {:induction false} UndoFlag(m: Machine, plan: seq<Step>, script: Script, kinds: seq<Kind>)
    requires forall kind :: kind in kinds ==> PlanStep(plan, kind).Some? && kind in m.applied
    ensures UndoStages(m, plan, script, kinds).0.report.rollbackAttempted == m.report.rollbackAttempted
    ensures UndoStages(m, plan, script, kinds).0.report.outcome == m.report.outcome
    ensures m.disk.Some? ==> UndoStages(m, plan, script, kinds).0.disk.Some?
    decreases |kinds|
  {
    if kinds != [] {
      UndoFlag(UndoStage(m, plan, script, kinds[0]).0, plan, script, kinds[1..]);
    }
  }

  // ---------------------------------------------------------- all or nothing

  /** The applied stages recorded what they found; the others are untouched. */
  predicate Tracks(start: State, m: Machine) {
    && Complete(start) && Complete(m.device)
    && (forall kind :: kind in m.applied ==> m.applied[kind] == start[kind])
    && (forall kind: Kind :: kind !in m.applied ==> m.device[kind] == start[kind])
  }

  lemma {:induction false} ApplyTracks(start: State, m: Machine, plan: seq<Step>, script: Script, kinds: seq<Kind>)
    requires Distinct(kinds) && Tracks(start, m) && forall kind :: kind in kinds ==> kind !in m.applied
    ensures var (after, failure) := ApplyStages(m, plan, script, kinds);
            && Tracks(Displaced(start, failure), after)
            && (failure.Some? ==> failure.value.kind in kinds)
    decreases |kinds|
  {
    if kinds != [] {
      var (m1, failure) := ApplyStage(m, plan, script, kinds[0]);
      StageEffect(m, plan, script, kinds[0]);
      TailDistinct(kinds);
      StageTracks(start, m, plan, script, kinds[0]);
      if failure.None? {
        ApplyTracks(start, m1, plan, script, kinds[1..]);
      }
    }
  }

  lemma {:induction false} StageTracks(start: State, m: Machine, plan: seq<Step>, script: Script, kind: Kind)
    requires Tracks(start, m) && kind !in m.applied
    ensures var (m1, failure) := ApplyStage(m, plan, script, kind);
            Tracks(Displaced(start, failure), m1)
  {
    StageEffect(m, plan, script, kind);
  }

  /** When every undo went well, the undone components are back and the others
    * untouched. */
  lemma {:induction false} UndoRestores(m: Machine, plan: seq<Step>, script: Script, kinds: seq<Kind>)
    requires Distinct(kinds) && forall kind :: kind in kinds ==> PlanStep(plan, kind).Some? && kind in m.applied
    requires Complete(m.device)
    ensures var (after, ok) := UndoStages(m, plan, script, kinds);
            && Complete(after.device) && (forall kind: Kind :: kind !in kinds ==> after.device[kind] == m.device[kind])
            && (ok ==> forall kind :: kind in kinds ==> after.device[kind] == m.applied[kind])
    decreases |kinds|
  {
    if kinds != [] {
      var (m1, ok) := UndoStage(m, plan, script, kinds[0]);
      assert forall kind :: kind in kinds[1..] ==> kind != kinds[0];
      UndoRestores(m1, plan, script, kinds[1..]);
    }
  }

  lemma {:induction false} RollbackOrderDistinct(applied: set<Kind>)
    ensures Distinct(RollbackOrder(applied))
    ensures forall kind: Kind :: kind in UndoOrder <==> kind !in {CameraRestart, ControlPrerequisite}
  {
    FilterDistinct(UndoOrder, applied);
    assert UndoOrder == [VideoFormat, AudioMute, AudioGain, StandardControls, VendorControls];
    forall kind: Kind ensures kind in UndoOrder <==> kind !in {CameraRestart, ControlPrerequisite} {
      if kind.VideoFormat? { assert UndoOrder[0] == kind; }
      else if kind.AudioMute? { assert UndoOrder[1] == kind; }
      else if kind.AudioGain? { assert UndoOrder[2] == kind; }
      else if kind.StandardControls? { assert UndoOrder[3] == kind; }
      else if kind.VendorControls? { assert UndoOrder[4] == kind; }
    }
  }

  lemma {:induction false} RollbackLogs(m: Machine, plan: seq<Step>, script: Script)
    requires Grounded(m, plan)
    ensures var after := Rollback(m, plan, script).0;
            && after.log == m.log + Undos(RollbackOrder(m.applied.Keys)) && after.applied == m.applied
            && after.report.rollbackAttempted && after.report.outcome == m.report.outcome
            && (m.disk.Some? ==> after.disk.Some?)
  {
    var order := RollbackOrder(m.applied.Keys);
    var m1 := m.(report := m.report.(rollbackAttempted := true));
    UndoLogs(m1, plan, script, order);
    UndoFlag(m1, plan, script, order);
  }

  lemma {:induction false} UndoneDevice(start: State, m: Machine, after: State, order: seq<Kind>)
    requires Tracks(start, m) && Complete(after)
    requires forall kind: Kind :: kind in order <==> kind in m.applied
    requires forall kind: Kind :: kind !in order ==> after[kind] == m.device[kind]
    requires forall kind :: kind in order ==> after[kind] == m.applied[kind]
    ensures after == start
  {
    forall kind: Kind ensures after[kind] == start[kind] {}
  }

  lemma {:induction false} RollbackDevice(start: State, m: Machine, plan: seq<Step>, script: Script)
    requires Grounded(m, plan) && Tracks(start, m) && ControlPrerequisite !in m.applied && CameraRestart !in m.applied
    ensures var (after, ok) := Rollback(m, plan, script); ok ==> after.device == start
  {
    var order := RollbackOrder(m.applied.Keys);
    var m1 := m.(report := m.report.(rollbackAttempted := true));
    RollbackOrderDistinct(m.applied.Keys);
    UndoRestores(m1, plan, script, order);
    var (after, ok) := UndoStages(m1, plan, script, order);
    if ok { UndoneDevice(start, m, after.device, order); }
  }

  /** All that a rollback does: it logs its order, keeps the record of what was
    * applied, and when it went well over no restart the device is back. */
  lemma {:induction false} RollbackFacts(start: State, m: Machine, plan: seq<Step>, script: Script)
    requires Grounded(m, plan) && Tracks(start, m) && ControlPrerequisite !in m.applied
    ensures var (after, ok) := Rollback(m, plan, script);
            && after.log == m.log + Undos(RollbackOrder(m.applied.Keys)) && after.applied == m.applied
            && after.report.rollbackAttempted && after.report.outcome == m.report.outcome
            && (m.disk.Some? ==> after.disk.Some?)
            && (ok && CameraRestart !in m.applied ==> after.device == start)
  {
    RollbackLogs(m, plan, script);
    if CameraRestart !in m.applied { RollbackDevice(start, m, plan, script); }
  }

  /** The forward pass of a run, and where it failed. */
  function Forward(device: State, plan: seq<Step>, script: Script, writes: seq<Writing>): (Machine, Option<Failure>) {
    ApplyStages(WriteJournal(Started(device, plan, writes)).0, plan, script, ApplyOrder)
  }

  lemma {:induction false} ForwardLogs(device: State, plan: seq<Step>, script: Script, writes: seq<Writing>)
    ensures var m := Forward(device, plan, script, writes).0;
            && m.log == Applies(Filter(ApplyOrder, m.applied.Keys))
            && Grounded(m, plan) && ControlPrerequisite !in m.applied
  {
    var m1 := WriteJournal(Started(device, plan, writes)).0;
    assert Distinct(ApplyOrder) && ControlPrerequisite !in ApplyOrder;
    ApplyLogs(m1, plan, script, ApplyOrder);
  }

  lemma {:induction false} ForwardTracks(device: State, plan: seq<Step>, script: Script, writes: seq<Writing>)
    requires Complete(device)
    ensures var (m, failure) := Forward(device, plan, script, writes); Tracks(Displaced(device, failure), m)
  {
    var m1 := WriteJournal(Started(device, plan, writes)).0;
    assert Distinct(ApplyOrder);
    ApplyTracks(device, m1, plan, script, ApplyOrder);
  }

  lemma {:induction false} ForwardReports(device: State, plan: seq<Step>, script: Script, writes: seq<Writing>)
    ensures var m := Forward(device, plan, script, writes).0;
            && m.report.outcome.InProgress? && !m.report.rollbackAttempted && m.report.rollbackFailures == []
            && (WriteJournal(Started(device, plan, writes)).1 ==> m.disk.Some?)
  {
    ReportFlag(WriteJournal(Started(device, plan, writes)).0, plan, script, ApplyOrder);
  }

  lemma {:induction false} ForwardFacts(device: State, plan: seq<Step>, script: Script, writes: seq<Writing>)
    requires Complete(device)
    ensures var (m, failure) := Forward(device, plan, script, writes);
            && m.log == Applies(Filter(ApplyOrder, m.applied.Keys))
            && Tracks(Displaced(device, failure), m)
            && Grounded(m, plan) && ControlPrerequisite !in m.applied
            && m.report.outcome.InProgress? && !m.report.rollbackAttempted && m.report.rollbackFailures == []
            && (WriteJournal(Started(device, plan, writes)).1 ==> m.disk.Some?)
  {
    ForwardLogs(device, plan, script, writes);
    ForwardTracks(device, plan, script, writes);
    ForwardReports(device, plan, script, writes);
  }

  lemma {:induction false} FinishFacts(m: Machine, script: Script, outcome: Outcome, clean: Result)
    requires !outcome.Partial? && clean != Failing(true)
    ensures var (after, result) := Finish(m, script, outcome, clean);
            && after.log == m.log && after.applied == m.applied && after.device == m.device
            && after.report.rollbackAttempted == m.report.rollbackAttempted
            && ((after.report.outcome == outcome && result == clean && after.disk.None?)
                || (after.report.outcome.Partial? && result == Failing(true)))
  {
  }

  /** What recovery returns: it ends `RolledBack`, or leaves a partial state whose
    * journal stays where it was. */
  lemma {:induction false} RecoverCases(m: Machine, plan: seq<Step>, script: Script, failure: Failure)
    requires Grounded(m, plan)
    ensures var (m1, undone) := Rollback(Marked(m, failure.sequence, Failed), plan, script);
            var (after, result) := Recover(m, plan, script, failure);
            || (!failure.partial && CameraRestart !in m1.applied && undone
                && (after, result) == Finish(m1, script, Reverted, Failing(false)))
            || (&& after.report.outcome.Partial? && result == Failing(true)
                && after.report.rollbackAttempted == m1.report.rollbackAttempted
                && after.log == m1.log && after.applied == m1.applied && after.device == m1.device
                && (after.disk.None? ==> m1.disk.None?))
  {
  }

  lemma {:induction false} RecoverFacts(start: State, m: Machine, plan: seq<Step>, script: Script, failure: Failure)
    requires Grounded(m, plan) && Tracks(start, m) && ControlPrerequisite !in m.applied && m.report.outcome.InProgress?
    requires m.disk.Some?
    ensures var (after, result) := Recover(m, plan, script, failure);
            && after.log == m.log + Undos(RollbackOrder(m.applied.Keys)) && after.applied == m.applied
            && after.report.rollbackAttempted && result.Failing?
            && (after.report.outcome.Reverted? ==>
                  !failure.partial && CameraRestart !in m.applied && after.device == start && result == Failing(false)
                      && after.disk.None?)
            && (result == Failing(false) ==> after.report.outcome.Reverted?)
            && (after.disk.None? ==> !failure.partial && after.device == start)
  {
    RollbackFacts(start, Marked(m, failure.sequence, Failed), plan, script);
    RecoverCases(m, plan, script, failure);
    FinishFacts(Rollback(Marked(m, failure.sequence, Failed), plan, script).0, script, Reverted, Failing(false));
  }

  /** A run is idle, or its first journal write failed, or it went forward and
    * finished or recovered. */
  lemma {:induction false} RunCases(device: State, plan: seq<Step>, script: Script, writes: seq<Writing>)
    requires Complete(device)
    ensures var run := Run(device, None, plan, script, writes);
            var m := Started(device, plan, writes);
            var (m1, failure) := Forward(device, plan, script, writes);
            || run == (m.(report := m.report.(outcome := Completed)), Succeeded)
            || (run.1 == Failing(false) && run.0 == WriteJournal(m).0)
            || (failure.Some? && Grounded(m1, plan) && m1.disk.Some? && run == Recover(m1, plan, script, failure.value))
            || (failure.None? && m1.disk.Some? && run == Finish(m1, script, Completed, Succeeded))
  {
    ForwardFacts(device, plan, script, writes);
  }

  /** The log is the applied stages in order, then, once a rollback was attempted,
    * the same stages but the restart in exact reverse. */
  predicate MirrorLog(m: Machine) {
    m.log == Applies(Filter(ApplyOrder, m.applied.Keys))
             + (if m.report.rollbackAttempted then Undos(Mirrored(Filter(ApplyOrder[1..], m.applied.Keys))) else [])
  }

  lemma {:induction false} IdleMirror(m: Machine)
    requires m.log == [] && m.applied == map[] && !m.report.rollbackAttempted
    ensures MirrorLog(m)
  {
    assert m.applied.Keys == {};
    FilterNone(ApplyOrder, {});
    assert Applies([]) == [];
  }

  lemma {:induction false} RecoveredMirror(m: Machine, after: Machine)
    requires m.log == Applies(Filter(ApplyOrder, m.applied.Keys))
    requires after.log == m.log + Undos(RollbackOrder(m.applied.Keys)) && after.applied == m.applied
             && after.report.rollbackAttempted
    ensures MirrorLog(after)
  {
    RollbackOrderMirrors(m.applied.Keys);
  }

  lemma {:induction false} FinishedMirror(m: Machine, script: Script)
    requires m.log == Applies(Filter(ApplyOrder, m.applied.Keys)) && !m.report.rollbackAttempted
    ensures MirrorLog(Finish(m, script, Completed, Succeeded).0)
  {
    FinishFacts(m, script, Completed, Succeeded);
    assert m.log + [] == m.log;
  }

  lemma {:induction false} RecoverMirrors(device: State, plan: seq<Step>, script: Script, writes: seq<Writing>)
    requires Complete(device)
    requires var (m1, failure) := Forward(device, plan, script, writes);
             failure.Some? && Grounded(m1, plan) && m1.disk.Some?
    ensures var (m1, failure) := Forward(device, plan, script, writes);
            MirrorLog(Recover(m1, plan, script, failure.value).0)
  {
    ForwardFacts(device, plan, script, writes);
    var (m1, failure) := Forward(device, plan, script, writes);
    RecoverFacts(Displaced(device, failure), m1, plan, script, failure.value);
    RecoveredMirror(m1, Recover(m1, plan, script, failure.value).0);
  }

  lemma {:induction false} FinishMirrors(device: State, plan: seq<Step>, script: Script, writes: seq<Writing>)
    requires Complete(device)
    ensures MirrorLog(Finish(Forward(device, plan, script, writes).0, script, Completed, Succeeded).0)
  {
    ForwardFacts(device, plan, script, writes);
    FinishedMirror(Forward(device, plan, script, writes).0, script);
  }

  /** Every applied stage but the restart is undone exactly once, in exact reverse
    * of the apply order, whatever fails on the way back. */
  lemma {:induction false} RollbackMirrorsApply(device: State, plan: seq<Step>, script: Script, writes: seq<Writing>)
    requires Complete(device)
    ensures MirrorLog(Run(device, None, plan, script, writes).0)
    ensures Distinct(Filter(ApplyOrder, Run(device, None, plan, script, writes).0.applied.Keys))
  {
    var run := Run(device, None, plan, script, writes);
    RunCases(device, plan, script, writes);
    FilterDistinct(ApplyOrder, run.0.applied.Keys);
    var (m1, failure) := Forward(device, plan, script, writes);
    if failure.Some? && Grounded(m1, plan) && m1.disk.Some? && run == Recover(m1, plan, script, failure.value) {
      RecoverMirrors(device, plan, script, writes);
    } else if failure.None? && run == Finish(m1, script, Completed, Succeeded) {
      FinishMirrors(device, plan, script, writes);
    } else {
      IdleMirror(run.0);
    }
  }

  /** `RolledBack`, exactly: the device is back at its start state if and only if
    * the failing stage left its own state as it found it; no restart took effect. */
  lemma {:induction false} RolledBackExact(device: State, plan: seq<Step>, script: Script, writes: seq<Writing>)
    requires Complete(device)
    ensures var (m, result) := Run(device, None, plan, script, writes);
            var failure := Forward(device, plan, script, writes).1;
            m.report.outcome.Reverted? ==>
              && failure.Some? && !failure.value.partial && m.device == Displaced(device, failure)
              && (m.device == device <==>
                  failure.value.moved.None? || failure.value.moved.value == device[failure.value.kind])
              && CameraRestart !in m.applied && result == Failing(false) && m.disk.None?
  {
    RunCases(device, plan, script, writes);
    ForwardFacts(device, plan, script, writes);
    var (m1, failure) := Forward(device, plan, script, writes);
    if failure.Some? && m1.disk.Some? {
      RecoverFacts(Displaced(device, failure), m1, plan, script, failure.value);
    }
    FinishFacts(m1, script, Completed, Succeeded);
  }

  /** The stage contract: a failing stage leaves its own state unchanged, or says
    * that its state is partial. */
  predicate Contract(script: Script) {
    forall kind :: kind in script.forward ==>
      match script.forward[kind]
      case Takes => true
      case Breaks(partial, moved) => partial || kind.CameraRestart? || moved.None?
  }

  lemma {:induction false} FailureKeepsContract(m: Machine, plan: seq<Step>, script: Script, kinds: seq<Kind>)
    requires Contract(script)
    ensures var failure := ApplyStages(m, plan, script, kinds).1;
            failure.Some? ==> failure.value.partial || failure.value.moved.None?
    decreases |kinds|
  {
    if kinds != [] {
      FailureKeepsContract(ApplyStage(m, plan, script, kinds[0]).0, plan, script, kinds[1..]);
    }
  }

  /** Preset all or nothing: whenever the run reports `RolledBack` the whole device
    * is at its start state and no restart took effect. */
  lemma {:induction false} PresetAllOrNothing(device: State, plan: seq<Step>, script: Script, writes: seq<Writing>)
    requires Complete(device)
    requires Contract(script)
    ensures var m := Run(device, None, plan, script, writes).0;
            m.report.outcome.Reverted? ==> m.device == device && CameraRestart !in m.applied
  {
    RolledBackExact(device, plan, script, writes);
    FailureKeepsContract(WriteJournal(Started(device, plan, writes)).0, plan, script, ApplyOrder);
  }

  lemma {:induction false} OnlyStage(m: Machine, plan: seq<Step>, script: Script, kind: Kind, kinds: seq<Kind>)
    requires plan == [Step(0, kind, false)] && kind in kinds && ApplyStage(m, plan, script, kind).1.Some?
    ensures ApplyStages(m, plan, script, kinds) == ApplyStage(m, plan, script, kind)
    decreases |kinds|
  {
    assert plan[1..] == [];
    if kinds[0] != kind {
      assert ApplyStage(m, plan, script, kinds[0]) == (m, None);
      OnlyStage(m, plan, script, kind, kinds[1..]);
    }
  }

  lemma {:induction false} OnlyStageFails(m: Machine, plan: seq<Step>, script: Script, kind: Kind)
    requires plan == [Step(0, kind, false)] && !kind.CameraRestart? && Applying(script, kind).Breaks?
    ensures var answer := Applying(script, kind);
            ApplyStage(m, plan, script, kind) ==
            (m.(device := Moved(m.device, kind, answer.moved)), Some(Failure(answer.partial, 0, kind, answer.moved)))
  {
  }

  lemma {:induction false} OnlyStageRun(device: State, kind: Kind, script: Script)
    requires kind in ApplyOrder && !kind.CameraRestart? && Applying(script, kind).Breaks?
    ensures var plan := [Step(0, kind, false)];
            var answer := Applying(script, kind);
            var (m, failure) := Forward(device, plan, script, []);
            && failure == Some(Failure(answer.partial, 0, kind, answer.moved))
            && m.device == Moved(device, kind, answer.moved) && m.applied == map[] && m.report.rollbackFailures == []
            && Run(device, None, plan, script, []) == Recover(m, plan, script, failure.value)
  {
    var plan := [Step(0, kind, false)];
    var (m1, ok) := WriteJournal(Started(device, plan, []));
    assert ok && m1.device == device && m1.applied == map[] && m1.report.rollbackFailures == [];
    OnlyStageFails(m1, plan, script, kind);
    OnlyStage(m1, plan, script, kind, ApplyOrder);
    assert plan[0] in plan && !plan[0].noOp;
  }

  lemma {:induction false} MovedDiffers(device: State, kind: Kind, moved: Option<int>)
    requires Complete(device)
    ensures Moved(device, kind, moved) != device <==> moved.Some? && moved.value != device[kind]
  {
  }

  lemma {:induction false} OnlyStageEnds(device: State, kind: Kind, script: Script)
    requires kind in ApplyOrder && !kind.CameraRestart?
    requires Applying(script, kind).Breaks? && script.removal.Removed?
    ensures var m := Run(device, None, [Step(0, kind, false)], script, []).0;
            && m.device == Moved(device, kind, Applying(script, kind).moved)
            && (m.report.outcome.Reverted? <==> !Applying(script, kind).partial)
  {
    OnlyStageRun(device, kind, script);
    var (m1, failure) := Forward(device, [Step(0, kind, false)], script, []);
    RecoverNothing(m1, [Step(0, kind, false)], script, failure.value);
  }

  /** The run says `RolledBack` over a changed device. */
  predicate Misreports(device: State, kind: Kind, script: Script) {
    var m := Run(device, None, [Step(0, kind, false)], script, []).0;
    m.report.outcome.Reverted? && m.device != device
  }

  /** What the one stage of a plan answers is what the run reports: over a failing
    * stage it says `RolledBack` with a changed device exactly when the error is an
    * ordinary one and the stage kept something. */
  lemma {:induction false} BrokenContractMisreports(device: State, kind: Kind, script: Script)
    requires Complete(device) && kind in ApplyOrder && !kind.CameraRestart?
    requires Applying(script, kind).Breaks? && script.removal.Removed?
    ensures var answer := Applying(script, kind);
            Misreports(device, kind, script) <==>
                !answer.partial && answer.moved.Some? && answer.moved.value != device[kind]
  {
    OnlyStageEnds(device, kind, script);
    MovedDiffers(device, kind, Applying(script, kind).moved);
  }

  lemma {:induction false} RecoverNothing(m: Machine, plan: seq<Step>, script: Script, failure: Failure)
    requires Grounded(m, plan) && m.applied == map[] && m.report.rollbackFailures == [] && script.removal.Removed?
    ensures var after := Recover(m, plan, script, failure).0;
            after.device == m.device && (after.report.outcome.Reverted? <==> !failure.partial)
  {
    FilterNone(UndoOrder, {});
  }

  // ------------------------------------------------- success, and the journal

  predicate Due(plan: seq<Step>, kind: Kind) {
    kind in ApplyOrder && PlanStep(plan, kind).Some? && !PlanStep(plan, kind).value.noOp
  }

  /** The start state with every due stage at its target. */
  function Goal(start: State, plan: seq<Step>, script: Script): State {
    map kind: Kind | true :: if Due(plan, kind) then Target(start, script, kind) else At(start, kind)
  }

  lemma {:induction false} StageReaches(m: Machine, plan: seq<Step>, script: Script, kind: Kind)
    requires kind in ApplyOrder && ApplyStage(m, plan, script, kind).1.None?
    ensures var m1 := ApplyStage(m, plan, script, kind).0;
            m1.device == if Due(plan, kind) then m.device[kind := Target(m.device, script, kind)] else m.device
  {
  }

  lemma {:induction false} ApplyReaches(m: Machine, plan: seq<Step>, script: Script, kinds: seq<Kind>)
    requires Distinct(kinds) && (forall kind :: kind in kinds ==> kind in ApplyOrder)
             && ApplyStages(m, plan, script, kinds).1.None?
    requires Complete(m.device)
    ensures var after := ApplyStages(m, plan, script, kinds).0;
            && Complete(after.device)
            && forall kind: Kind ::
                 after.device[kind] == if kind in kinds && Due(plan, kind) then Target(m.device, script, kind)
                     else m.device[kind]
    decreases |kinds|
  {
    if kinds != [] {
      StageReaches(m, plan, script, kinds[0]);
      TailDistinct(kinds);
      assert forall kind :: kind in kinds <==> kind == kinds[0] || kind in kinds[1..];
      ApplyReaches(ApplyStage(m, plan, script, kinds[0]).0, plan, script, kinds[1..]);
    }
  }

  lemma {:induction false} ForwardReaches(device: State, plan: seq<Step>, script: Script, writes: seq<Writing>)
    requires Complete(device)
    requires Forward(device, plan, script, writes).1.None?
    ensures Forward(device, plan, script, writes).0.device == Goal(device, plan, script)
  {
    var m := WriteJournal(Started(device, plan, writes)).0;
    assert Distinct(ApplyOrder);
    ApplyReaches(m, plan, script, ApplyOrder);
    GoalReached(device, ApplyStages(m, plan, script, ApplyOrder).0.device, plan, script);
  }

  lemma {:induction false} GoalReached(start: State, after: State, plan: seq<Step>, script: Script)
    requires Complete(start) && Complete(after)
    requires forall kind: Kind :: after[kind] == if kind in ApplyOrder && Due(plan, kind) then
             Target(start, script, kind) else start[kind]
    ensures after == Goal(start, plan, script)
  {
    forall kind: Kind ensures after[kind] == Goal(start, plan, script)[kind] {}
  }

  lemma {:induction false} IdleReaches(device: State, plan: seq<Step>, script: Script)
    requires Complete(device)
    requires forall s :: s in plan ==> s.noOp
    ensures Goal(device, plan, script) == device
  {
  }

  /** Where a run can end.  Success means every due stage is at its target; an
    * ordinary error means the start state; and without a journal on disk the
    * device is at one of the two. */
  lemma {:induction false} JournalGuards(device: State, plan: seq<Step>, script: Script, writes: seq<Writing>)
    requires Complete(device)
    requires Contract(script)
    ensures var (m, result) := Run(device, None, plan, script, writes);
            && (result.Succeeded? ==> m.device == Goal(device, plan, script) && m.disk.None?)
            && (result == Failing(false) ==> m.device == device)
            && (m.disk.None? ==> m.device == device || m.device == Goal(device, plan, script))
  {
    var run := Run(device, None, plan, script, writes);
    RunCases(device, plan, script, writes);
    ForwardFacts(device, plan, script, writes);
    FailureKeepsContract(WriteJournal(Started(device, plan, writes)).0, plan, script, ApplyOrder);
    var (m1, failure) := Forward(device, plan, script, writes);
    if failure.Some? && Grounded(m1, plan) && m1.disk.Some? && run == Recover(m1, plan, script, failure.value) {
      RecoverFacts(Displaced(device, failure), m1, plan, script, failure.value);
    } else if failure.None? && run == Finish(m1, script, Completed, Succeeded) {
      FinishFacts(m1, script, Completed, Succeeded);
      ForwardReaches(device, plan, script, writes);
    } else if forall s :: s in plan ==> s.noOp {
      IdleReaches(device, plan, script);
    }
  }

  // ------------------------------------------------------------ step numbering

  function Rank(kind: Kind): nat {
    match kind
    case CameraRestart => 0 case VendorControls => 1 case ControlPrerequisite => 2 case StandardControls => 3
    case AudioGain => 4 case AudioMute => 5 case VideoFormat => 6
  }

  /** Steps in stage order with rising numbers, but for a mute step, which does
    * not move the number on. */
  predicate Numbered(draft: Draft, rank: nat) {
    && (forall i :: 0 <= i < |draft.steps| ==> Rank(draft.steps[i].kind) < rank)
    && (forall i :: 0 <= i < |draft.steps| ==>
          if draft.steps[i].kind.AudioMute? then draft.steps[i].sequence == draft.sequence
          else draft.steps[i].sequence < draft.sequence)
    && (forall i, j :: 0 <= i < j < |draft.steps| ==>
          Rank(draft.steps[i].kind) < Rank(draft.steps[j].kind) && draft.steps[i].sequence < draft.steps[j].sequence)
  }

  lemma {:induction false} PushNumbers(draft: Draft, kind: Kind, noOp: Option<bool>, advance: nat)
    requires Numbered(draft, Rank(kind)) && advance == (if kind.AudioMute? then 0 else 1) && !kind.VideoFormat?
    ensures Numbered(Push(draft, kind, noOp, advance), Rank(kind) + 1)
  {
  }

  function BeforeVideo(shape: Shape): Draft {
    var d1 := Push(Draft([], 0), CameraRestart, shape.restart, 1);
    var d2 := Push(d1, VendorControls, shape.vendor, 1);
    var d3 := Push(d2, ControlPrerequisite, shape.prerequisite, 1);
    var d4 := Push(d3, StandardControls, shape.controls, 1);
    var d5 := Push(d4, AudioGain, shape.gain, 1);
    Push(d5, AudioMute, shape.mute, 0)
  }

  lemma {:induction false} BeforeVideoNumbered(shape: Shape)
    ensures Numbered(BeforeVideo(shape), 6)
    ensures shape.mute.Some? <==>
            exists i :: 0 <= i < |BeforeVideo(shape).steps| && BeforeVideo(shape).steps[i].kind.AudioMute?
  {
    var d1 := Push(Draft([], 0), CameraRestart, shape.restart, 1);
    PushNumbers(Draft([], 0), CameraRestart, shape.restart, 1);
    var d2 := Push(d1, VendorControls, shape.vendor, 1);
    PushNumbers(d1, VendorControls, shape.vendor, 1);
    var d3 := Push(d2, ControlPrerequisite, shape.prerequisite, 1);
    PushNumbers(d2, ControlPrerequisite, shape.prerequisite, 1);
    var d4 := Push(d3, StandardControls, shape.controls, 1);
    PushNumbers(d3, StandardControls, shape.controls, 1);
    var d5 := Push(d4, AudioGain, shape.gain, 1);
    PushNumbers(d4, AudioGain, shape.gain, 1);
    PushNumbers(d5, AudioMute, shape.mute, 0);
    if shape.mute.Some? { assert BeforeVideo(shape).steps[|d5.steps|].kind.AudioMute?; }
  }

  predicate UniqueNumbers(plan: seq<Step>) {
    forall i, j :: 0 <= i < j < |plan| ==> plan[i].sequence != plan[j].sequence
  }

  /** Two steps share a number exactly when both mute and video are planned. */
  lemma {:induction false} NumberingCollides(shape: Shape)
    ensures UniqueNumbers(Planned(shape)) <==> shape.mute.None? || shape.video.None?
  {
    BeforeVideoNumbered(shape);
    var d := BeforeVideo(shape);
    var plan := Planned(shape);
    if shape.mute.Some? && shape.video.Some? {
      var i :| 0 <= i < |d.steps| && d.steps[i].kind.AudioMute?;
      assert plan[i].sequence == plan[|d.steps|].sequence;
    }
  }
}
