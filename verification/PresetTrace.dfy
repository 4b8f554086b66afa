/** Every run of the preset transaction is a run of the crash-safe machine: the
  * same device and the same journal, step by step. */
module PresetTrace {
  import opened Wrappers
  import opened Preset
  import PresetSafety
  import opened CrashSafety

  /** The due stages among some kinds, with their targets. */
  function Stages(start: State, plan: seq<Step>, script: Script, kinds: seq<Kind>): Plan
    decreases |kinds|, plan
  {
    if kinds == [] then []
    else
      (if PresetSafety.Due(plan, kinds[0]) then [StagePlan(kinds[0], Target(start, script, kinds[0]))] else [])
      + Stages(start, plan, script, kinds[1..])
  }

  function KindsOf(stages: Plan): seq<Kind> {
    seq(|stages|, i requires 0 <= i < |stages| => stages[i].kind)
  }

  /** Stages of different kinds, all among the given ones. */
  predicate Among(stages: Plan, kinds: seq<Kind>) {
    && (forall i :: 0 <= i < |stages| ==> stages[i].kind in kinds)
    && (forall i, j :: 0 <= i < j < |stages| ==> stages[i].kind != stages[j].kind)
  }

  lemma {:induction false} StagesAmong(start: State, plan: seq<Step>, script: Script, kinds: seq<Kind>)
    requires PresetSafety.Distinct(kinds)
    ensures Among(Stages(start, plan, script, kinds), kinds)
    decreases |kinds|
  {
    if kinds != [] {
      PresetSafety.TailDistinct(kinds);
      var rest := Stages(start, plan, script, kinds[1..]);
      StagesAmong(start, plan, script, kinds[1..]);
      AmongMore(rest, kinds);
      if PresetSafety.Due(plan, kinds[0]) {
        ConsAmong(StagePlan(kinds[0], Target(start, script, kinds[0])), rest, kinds);
      } else {
        assert [] + rest == rest;
      }
    }
  }

  lemma {:induction false} AmongMore(stages: Plan, kinds: seq<Kind>)
    requires kinds != [] && Among(stages, kinds[1..])
    ensures Among(stages, kinds)
  {
    forall i | 0 <= i < |stages| ensures stages[i].kind in kinds { assert stages[i].kind in kinds[1..]; }
  }

  lemma {:induction false} ConsAmong(head: StagePlan, rest: Plan, kinds: seq<Kind>)
    requires kinds != [] && head.kind == kinds[0] && kinds[0] !in kinds[1..] && Among(rest, kinds[1..])
    ensures Among([head] + rest, kinds)
  {
    var all := [head] + rest;
    AmongMore(rest, kinds);
    forall i, j | 0 <= i < j < |all| ensures all[i].kind != all[j].kind {
      assert all[j] == rest[j - 1] && rest[j - 1].kind in kinds[1..];
    }
  }

  // ------------------------------------------------------------- runs compose

  lemma {:induction false} ExecuteConcat(s: System, a: seq<Action>, b: seq<Action>)
    ensures Execute(s, a + b) == Execute(Execute(s, a), b)
    ensures Honest(s, a) && Honest(Execute(s, a), b) ==> Honest(s, a + b)
    decreases |a|
  {
    if a == [] {
      assert a + b == b;
    } else {
      assert (a + b)[1..] == a[1..] + b && (a + b)[0] == a[0];
      ExecuteConcat(Next(s, a[0]), a[1..], b);
    }
  }

  lemma {:induction false} Single(s: System, a: Action)
    ensures Execute(s, [a]) == Next(s, a) && (CrashSafety.Contract(s, a) ==> Honest(s, [a]))
  {
    assert [a][1..] == [];
  }

  // ------------------------------------------------------------ going forward

  /** Process 0 holds the lease and its journal is on disk, over the device of the
    * transaction. */
  predicate Matches(s: System, m: Machine, process: Process) {
    && s.processes == map[0 := process] && s.lease == Some(0) && s.committed == []
    && s.device == m.device && Complete(m.device) && s.visible && s.stable && m.disk.Some?
  }

  predicate Halfway(s: System, m: Machine, full: Plan, done: nat) {
    && done <= |full| && Matches(s, m, Applying(full, done, m.applied))
    && m.log == PresetSafety.Applies(KindsOf(full[..done]))
    && (CameraRestart in m.applied <==> Irreversible(full, done))
  }

  /** Where the forward pass stopped. */
  predicate Stopped(s: System, m: Machine, full: Plan, done: nat, failure: Failure) {
    && done <= |full| && Matches(s, m, Undoing(full, done, m.applied, failure.partial || CameraRestart in m.applied))
    && m.log == PresetSafety.Applies(KindsOf(full[..done]))
  }

  lemma {:induction false} AppliesGrows(full: Plan, done: nat)
    requires done < |full|
    ensures PresetSafety.Applies(KindsOf(full[..done])) + [Event.Apply(full[done].kind)] ==
            PresetSafety.Applies(KindsOf(full[..done + 1]))
    ensures Irreversible(full, done + 1) <==> Irreversible(full, done) || full[done].kind.CameraRestart?
  {
    assert full[..done + 1] == full[..done] + [full[done]];
    if full[done].kind.CameraRestart? { assert !full[done].Reversible(); }
  }

  lemma {:induction false} TakesResult(m: Machine, plan: seq<Step>, script: Script, kind: Kind)
    requires PresetSafety.Due(plan, kind) && Preset.Applying(script, kind).Takes? && kind in m.device
    ensures var (m1, failure) := ApplyStage(m, plan, script, kind);
            && m1.device == m.device[kind := Target(m.device, script, kind)]
                && m1.applied == m.applied[kind := m.device[kind]]
            && m1.log == m.log + [Event.Apply(kind)] && (m.disk.Some? ==> m1.disk.Some?)
            && (failure.Some? ==> !failure.value.partial)
  {
  }

  lemma {:induction false} AdvanceMatches(s: System, m: Machine, m1: Machine, full: Plan, done: nat)
    requires Halfway(s, m, full, done) && done < |full|
    requires m1.device == m.device[full[done].kind := full[done].target]
             && m1.applied == m.applied[full[done].kind := m.device[full[done].kind]]
    requires m1.log == m.log + [Event.Apply(full[done].kind)] && m1.disk.Some?
    ensures Halfway(Next(s, Advance(0)), m1, full, done + 1)
  {
    AppliesGrows(full, done);
    assert s.processes[0] == Applying(full, done, m.applied);
  }

  lemma {:induction false} JournalFailsMatches(s: System, m: Machine, full: Plan, done: nat, failure: Failure)
    requires Halfway(s, m, full, done) && !failure.partial
    ensures Stopped(Next(s, JournalFails(0)), m, full, done, failure)
  {
    assert s.processes[0] == Applying(full, done, m.applied);
  }

  /** One stage that takes effect, with its journal written or not. */
  lemma {:induction false} TakesTrace(s: System, m: Machine, plan: seq<Step>, script: Script, full: Plan, done: nat)
    returns (actions: seq<Action>, s1: System)
    requires Halfway(s, m, full, done) && done < |full|
    requires PresetSafety.Due(plan, full[done].kind) && full[done].target == Target(m.device, script, full[done].kind)
    requires Preset.Applying(script, full[done].kind).Takes?
    ensures s1 == Execute(s, actions) && Honest(s, actions)
    ensures var (m1, failure) := ApplyStage(m, plan, script, full[done].kind);
            if failure.None? then Halfway(s1, m1, full, done + 1) else Stopped(s1, m1, full, done + 1, failure.value)
  {
    var (m1, failure) := ApplyStage(m, plan, script, full[done].kind);
    TakesResult(m, plan, script, full[done].kind);
    AdvanceMatches(s, m, m1, full, done);
    Single(s, Advance(0));
    if failure.None? {
      actions, s1 := [Advance(0)], Next(s, Advance(0));
    } else {
      var middle := Next(s, Advance(0));
      JournalFailsMatches(middle, m1, full, done + 1, failure.value);
      Single(middle, JournalFails(0));
      ExecuteConcat(s, [Advance(0)], [JournalFails(0)]);
      actions, s1 := [Advance(0)] + [JournalFails(0)], Next(middle, JournalFails(0));
    }
  }

  /** One stage that fails. */
  lemma {:induction false} BreaksTrace(s: System, m: Machine, plan: seq<Step>, script: Script, full: Plan, done: nat)
    returns (actions: seq<Action>, s1: System)
    requires Halfway(s, m, full, done) && done < |full|
    requires PresetSafety.Due(plan, full[done].kind) && Preset.Applying(script, full[done].kind).Breaks?
    ensures s1 == Execute(s, actions) && (PresetSafety.Contract(script) ==> Honest(s, actions))
    ensures var (m1, failure) := ApplyStage(m, plan, script, full[done].kind);
            failure.Some? && Stopped(s1, m1, full, done, failure.value)
  {
    var answer := Preset.Applying(script, full[done].kind);
    var a := Fail(0, answer.partial, answer.moved);
    Single(s, a);
    actions, s1 := [a], Next(s, a);
  }

  lemma {:induction false} ForwardTrace(s: System, m: Machine, plan: seq<Step>, script: Script, start: State,
          full: Plan, done: nat, kinds: seq<Kind>)
    returns (actions: seq<Action>, s1: System, reached: nat)
    requires Halfway(s, m, full, done) && full[done..] == Stages(start, plan, script, kinds)
    requires PresetSafety.Distinct(kinds) && Complete(start)
    requires forall kind :: kind in kinds ==> kind in ApplyOrder && m.device[kind] == start[kind]
    ensures s1 == Execute(s, actions) && (PresetSafety.Contract(script) ==> Honest(s, actions))
    ensures var (m1, failure) := ApplyStages(m, plan, script, kinds);
            if failure.None? then reached == |full| && Halfway(s1, m1, full, |full|)
            else Stopped(s1, m1, full, reached, failure.value)
    decreases |kinds|
  {
    if kinds == [] {
      actions, s1, reached := [], s, done;
    } else {
      PresetSafety.TailDistinct(kinds);
      var (m1, failure) := ApplyStage(m, plan, script, kinds[0]);
      if !PresetSafety.Due(plan, kinds[0]) {
        assert (m1, failure) == (m, None);
        actions, s1, reached := ForwardTrace(s, m, plan, script, start, full, done, kinds[1..]);
      } else {
        assert full[done] == StagePlan(kinds[0], Target(start, script, kinds[0]))
            && full[done + 1..] == full[done..][1..];
        if Preset.Applying(script, kinds[0]).Breaks? {
          actions, s1 := BreaksTrace(s, m, plan, script, full, done);
          reached := done;
        } else {
          var first, middle := TakesTrace(s, m, plan, script, full, done);
          if failure.Some? {
            actions, s1, reached := first, middle, done + 1;
          } else {
            UntouchedKinds(m, plan, script, kinds);
            var rest;
            rest, s1, reached := ForwardTrace(middle, m1, plan, script, start, full, done + 1, kinds[1..]);
            actions := first + rest;
            ExecuteConcat(s, first, rest);
          }
        }
      }
    }
  }

  lemma {:induction false} UntouchedKinds(m: Machine, plan: seq<Step>, script: Script, kinds: seq<Kind>)
    requires kinds != [] && kinds[0] !in kinds[1..] && ApplyStage(m, plan, script, kinds[0]).1.None?
    ensures forall kind :: kind in kinds[1..] && kind in m.device ==>
              kind in ApplyStage(m, plan, script, kinds[0]).0.device
                  && ApplyStage(m, plan, script, kinds[0]).0.device[kind] == m.device[kind]
  {
    PresetSafety.StageEffect(m, plan, script, kinds[0]);
  }

  // -------------------------------------------------------------- going back

  /** The kinds to undo, newest first. */
  function Backward(full: Plan, left: nat): seq<Kind>
    requires left <= |full|
  {
    if left == 0 then []
    else (if full[left - 1].Reversible() then [full[left - 1].kind] else []) + Backward(full, left - 1)
  }

  /** The step of the machine that undoes the newest stage left. */
  function UndoAction(m: Machine, plan: seq<Step>, script: Script, stage: StagePlan): Action
    requires stage.Reversible() ==> PlanStep(plan, stage.kind).Some? && stage.kind in m.applied
  {
    if !stage.Reversible() then UndoNext(0, true, None, true)
    else
      var answer := Reversing(script, stage.kind);
      UndoNext(0, answer.Restores?, if answer.Leaves? then answer.moved
          else None, UndoStage(m, plan, script, stage.kind).1 || answer.Leaves?)
  }

  function Undone(m: Machine, plan: seq<Step>, script: Script, stage: StagePlan): (Machine, bool)
    requires stage.Reversible() ==> PlanStep(plan, stage.kind).Some? && stage.kind in m.applied
  {
    if stage.Reversible() then UndoStage(m, plan, script, stage.kind) else (m, true)
  }

  lemma {:induction false} UndoResult(m: Machine, plan: seq<Step>, script: Script, kind: Kind)
    requires PlanStep(plan, kind).Some? && kind in m.applied && Complete(m.device)
    ensures var (m1, ok) := UndoStage(m, plan, script, kind);
            var answer := Reversing(script, kind);
            && m1.applied == m.applied && (m.disk.Some? ==> m1.disk.Some?) && (ok ==> answer.Restores?)
            && m1.device == Moved(m.device, kind, if answer.Restores? then Some(m.applied[kind]) else answer.moved)
  {
  }

  lemma {:induction false} UndoMatches(s: System, m: Machine, plan: seq<Step>, script: Script, full: Plan, left: nat,
          tainted: bool)
    requires 0 < left <= |full| && Matches(s, m, Undoing(full, left, m.applied, tainted))
    requires full[left - 1].Reversible() ==>
             PlanStep(plan, full[left - 1].kind).Some? && full[left - 1].kind in m.applied
    ensures var (m1, ok) := Undone(m, plan, script, full[left - 1]);
            && m1.applied == m.applied
            && Matches(Next(s, UndoAction(m, plan, script, full[left - 1])), m1,
                Undoing(full, left - 1, m.applied, tainted || !ok))
  {
    if full[left - 1].Reversible() {
      var (m1, ok) := UndoStage(m, plan, script, full[left - 1].kind);
      UndoResult(m, plan, script, full[left - 1].kind);
      UndoNextMatches(s, m, m1, full, left, tainted, Reversing(script, full[left - 1].kind), ok);
    } else {
      assert s.processes[0] == Undoing(full, left, m.applied, tainted);
    }
  }

  lemma {:induction false} UndoNextMatches(s: System, m: Machine, m1: Machine, full: Plan, left: nat, tainted: bool,
          answer: Reversal, ok: bool)
    requires 0 < left <= |full| && Matches(s, m, Undoing(full, left, m.applied, tainted))
    requires full[left - 1].Reversible() && full[left - 1].kind in m.applied
    requires m1.disk.Some? && (ok ==> answer.Restores?)
    requires m1.device ==
             Moved(m.device, full[left - 1].kind, if answer.Restores? then Some(m.applied[full[left - 1].kind])
             else answer.moved)
    ensures var a := UndoNext(0, answer.Restores?, if answer.Leaves? then answer.moved else None, ok || answer.Leaves?);
            Matches(Next(s, a), m1, Undoing(full, left - 1, m.applied, tainted || !ok))
  {
    assert s.processes[0] == Undoing(full, left, m.applied, tainted);
  }

  lemma {:induction false} BackwardUnrolls(m: Machine, plan: seq<Step>, script: Script, full: Plan, left: nat)
    requires 0 < left <= |full|
    requires forall kind :: kind in Backward(full, left) ==> PlanStep(plan, kind).Some? && kind in m.applied
    ensures full[left - 1].Reversible() ==>
            PlanStep(plan, full[left - 1].kind).Some? && full[left - 1].kind in m.applied
    ensures forall kind :: kind in Backward(full, left - 1) ==> PlanStep(plan, kind).Some? && kind in m.applied
    ensures var (m1, ok) := Undone(m, plan, script, full[left - 1]);
            && m1.applied == m.applied
            && var (m2, rest) := UndoStages(m1, plan, script, Backward(full, left - 1));
               UndoStages(m, plan, script, Backward(full, left)) == (m2, ok && rest)
  {
    var order := Backward(full, left);
    if full[left - 1].Reversible() {
      assert order[0] == full[left - 1].kind && order[0] in order && order[1..] == Backward(full, left - 1);
    } else {
      assert order == Backward(full, left - 1);
    }
  }

  lemma {:induction false} BackwardTrace(s: System, m: Machine, plan: seq<Step>, script: Script, full: Plan,
          left: nat, tainted: bool)
    returns (actions: seq<Action>, s1: System)
    requires left <= |full| && Matches(s, m, Undoing(full, left, m.applied, tainted))
    requires forall kind :: kind in Backward(full, left) ==> PlanStep(plan, kind).Some? && kind in m.applied
    ensures s1 == Execute(s, actions) && Honest(s, actions)
    ensures var (m1, ok) := UndoStages(m, plan, script, Backward(full, left));
            Matches(s1, m1, Undoing(full, 0, m.applied, tainted || !ok))
    decreases left
  {
    if left == 0 {
      actions, s1 := [], s;
    } else {
      BackwardUnrolls(m, plan, script, full, left);
      UndoMatches(s, m, plan, script, full, left, tainted);
      var a := UndoAction(m, plan, script, full[left - 1]);
      var undone := Undone(m, plan, script, full[left - 1]);
      Single(s, a);
      var rest;
      rest, s1 := BackwardTrace(Next(s, a), undone.0, plan, script, full, left - 1, tainted || !undone.1);
      actions := [a] + rest;
      ExecuteConcat(s, [a], rest);
    }
  }

  function Reversibles(kinds: seq<Kind>): seq<Kind> {
    if kinds == [] then [] else (if kinds[0].CameraRestart? then [] else [kinds[0]]) + Reversibles(kinds[1..])
  }

  lemma {:induction false} ReversiblesConcat(a: seq<Kind>, b: seq<Kind>)
    ensures Reversibles(a + b) == Reversibles(a) + Reversibles(b)
    decreases |a|
  {
    if a == [] {
      assert a + b == b;
    } else {
      assert (a + b)[1..] == a[1..] + b;
      ReversiblesConcat(a[1..], b);
    }
  }

  lemma {:induction false} KindsGrow(full: Plan, left: nat)
    requires 0 < left <= |full|
    ensures KindsOf(full[..left]) == KindsOf(full[..left - 1]) + [full[left - 1].kind]
  {
  }

  lemma {:induction false} MirrorOne(kinds: seq<Kind>, kind: Kind)
    ensures PresetSafety.Mirrored(Reversibles(kinds + [kind])) ==
            (if kind.CameraRestart? then [] else [kind]) + PresetSafety.Mirrored(Reversibles(kinds))
  {
    ReversiblesConcat(kinds, [kind]);
    var one := if kind.CameraRestart? then [] else [kind];
    assert [kind][1..] == [] && Reversibles([kind]) == one;
    PresetSafety.MirroredConcat(Reversibles(kinds), one);
    assert PresetSafety.Mirrored(one) == one by { assert one != [] ==> PresetSafety.Mirrored(one[1..]) == []; }
  }

  lemma {:induction false} BackwardMirrors(full: Plan, left: nat)
    requires left <= |full|
    ensures Backward(full, left) == PresetSafety.Mirrored(Reversibles(KindsOf(full[..left])))
    decreases left
  {
    if left == 0 {
      assert KindsOf(full[..0]) == [];
    } else {
      BackwardMirrors(full, left - 1);
      KindsGrow(full, left);
      MirrorOne(KindsOf(full[..left - 1]), full[left - 1].kind);
    }
  }

  lemma {:induction false} AppliesInjective(a: seq<Kind>, b: seq<Kind>)
    requires PresetSafety.Applies(a) == PresetSafety.Applies(b)
    ensures a == b
  {
    assert |a| == |PresetSafety.Applies(a)| == |PresetSafety.Applies(b)| == |b|;
    forall i | 0 <= i < |a| ensures a[i] == b[i] {
      assert PresetSafety.Applies(a)[i] == Event.Apply(a[i]) && PresetSafety.Applies(b)[i] == Event.Apply(b[i]);
    }
  }

  lemma {:induction false} NoRestart(kinds: seq<Kind>)
    requires CameraRestart !in kinds
    ensures Reversibles(kinds) == kinds
    decreases |kinds|
  {
    if kinds != [] { NoRestart(kinds[1..]); }
  }

  lemma {:induction false} RestartFirst(kinds: seq<Kind>, applied: set<Kind>)
    requires kinds != [] && kinds[0].CameraRestart? && CameraRestart !in kinds[1..]
    ensures Reversibles(Filter(kinds, applied)) == Filter(kinds[1..], applied)
  {
    var rest := Filter(kinds[1..], applied);
    NoRestart(rest);
    if CameraRestart in applied {
      assert ([CameraRestart] + rest)[1..] == rest;
    } else {
      assert [] + rest == rest;
    }
  }

  /** What the machine undoes is the rollback order of the transaction. */
  lemma {:induction false} SameOrder(m: Machine, full: Plan, done: nat)
    requires done <= |full| && m.log == PresetSafety.Applies(KindsOf(full[..done]))
    requires m.log == PresetSafety.Applies(Filter(ApplyOrder, m.applied.Keys))
    ensures Backward(full, done) == RollbackOrder(m.applied.Keys)
  {
    AppliesInjective(KindsOf(full[..done]), Filter(ApplyOrder, m.applied.Keys));
    BackwardMirrors(full, done);
    PresetSafety.RollbackOrderMirrors(m.applied.Keys);
    RestartFirst(ApplyOrder, m.applied.Keys);
  }

  // ------------------------------------------------------------- whole runs

  lemma {:induction false} NoFailsHonest(s: System, actions: seq<Action>)
    requires forall a :: a in actions ==> !a.Fail?
    ensures Honest(s, actions)
    decreases |actions|
  {
    if actions != [] {
      assert actions[0] in actions;
      NoFailsHonest(Next(s, actions[0]), actions[1..]);
    }
  }

  /** The process is done: lease released, same device and journal. */
  predicate Closed(s: System, m: Machine) {
    s.processes == map[0 := Idle] && s.lease.None? && s.device == m.device && s.visible == m.disk.Some?
  }

  function NextWriting(m: Machine): Writing { if m.writes == [] then Persisted else m.writes[0] }

  lemma {:induction false} RewriteTrace(s: System, m: Machine) returns (actions: seq<Action>, s1: System)
    requires s.processes == map[0 := Rewriting] && s.lease == Some(0) && s.device == m.device
             && s.visible == m.disk.Some?
    ensures s1 == Execute(s, actions) && Honest(s, actions)
    ensures Closed(s1, WriteJournal(m).0) && s1.committed == s.committed
  {
    var middle := Next(s, Rewrite(0, NextWriting(m)));
    s1 := Next(middle, Release(0));
    actions := [Rewrite(0, NextWriting(m))] + [Release(0)];
    ExecuteConcat(s, [Rewrite(0, NextWriting(m))], [Release(0)]);
    Single(s, Rewrite(0, NextWriting(m)));
    Single(middle, Release(0));
    assert s1.processes == map[0 := Idle];
  }

  /** Removing the journal, and writing it again when that failed. */
  lemma {:induction false} ConcludeTrace(s: System, m: Machine, script: Script, outcome: Outcome, clean: Result,
          full: Plan, completed: bool)
    returns (actions: seq<Action>, s1: System)
    requires Matches(s, m, Removing(full, completed))
    ensures s1 == Execute(s, actions) && Honest(s, actions)
    ensures Closed(s1, Finish(m, script, outcome, clean).0)
    ensures s1.committed == if completed && !script.removal.Stays? then [full] else []
  {
    var m0 := m.(report := m.report.(outcome := outcome));
    var (m1, ok) := RemoveJournal(m0, script.removal);
    var middle := Next(s, Remove(0, script.removal));
    RemoveMatches(s, m0, script.removal, full, completed);
    Single(s, Remove(0, script.removal));
    var rest;
    if ok {
      rest, s1 := AbortTrace(middle, m1);
    } else {
      rest, s1 := RewriteTrace(middle, m1.(report := m1.report.(outcome := Partial)));
    }
    ExecuteConcat(s, [Remove(0, script.removal)], rest);
    actions := [Remove(0, script.removal)] + rest;
  }

  lemma {:induction false} RemoveMatches(s: System, m: Machine, removal: Removal, full: Plan, completed: bool)
    requires Matches(s, m, Removing(full, completed))
    ensures var (m1, ok) := RemoveJournal(m, removal);
            var s1 := Next(s, Remove(0, removal));
            && s1.processes == map[0 := if ok then Ending else Rewriting] && s1.lease == Some(0)
            && s1.device == m1.device && s1.visible == m1.disk.Some?
            && s1.committed == if completed && !removal.Stays? then [full] else []
  {
    assert s.processes[0] == Removing(full, completed) && s.committed + [full] == [full];
  }

  lemma {:induction false} SettleUndone(s: System, m: Machine, full: Plan, tainted: bool)
    requires Matches(s, m, Undoing(full, 0, m.applied, tainted))
    ensures var s1 := Next(s, Settle(0));
            if tainted then s1 == s.(processes := map[0 := Rewriting]) else Matches(s1, m, Removing(full, false))
  {
    assert s.processes[0] == Undoing(full, 0, m.applied, tainted);
    assert Next(s, Settle(0)).processes == map[0 := if tainted then Rewriting else Removing(full, false)];
  }

  /** From the failure of a stage to the end of the run. */
  lemma {:induction false} RecoverTrace(s: System, m: Machine, plan: seq<Step>, script: Script, full: Plan, done: nat,
          failure: Failure)
    returns (actions: seq<Action>, s1: System)
    requires Stopped(s, m, full, done, failure) && Grounded(m, plan)
    requires m.log == PresetSafety.Applies(Filter(ApplyOrder, m.applied.Keys)) && m.report.rollbackFailures == []
    ensures s1 == Execute(s, actions) && Honest(s, actions)
    ensures Closed(s1, Recover(m, plan, script, failure).0) && s1.committed == []
  {
    SameOrder(m, full, done);
    var m0 := Marked(m, failure.sequence, Failed);
    var m1 := m0.(report := m0.report.(rollbackAttempted := true));
    var tainted := failure.partial || CameraRestart in m.applied;
    var back, middle := BackwardTrace(s, m1, plan, script, full, done, tainted);
    var (m2, undone) := Rollback(m0, plan, script);
    assert (m2, undone) == UndoStages(m1, plan, script, Backward(full, done));
    UndoFailuresListed(m1, plan, script, Backward(full, done));
    SettleUndone(middle, m2, full, tainted || !undone);
    var settled := Next(middle, Settle(0));
    Single(middle, Settle(0));
    ExecuteConcat(s, back, [Settle(0)]);
    var rest;
    if tainted || !undone {
      rest, s1 := RewriteTrace(settled, m2.(report := m2.report.(outcome := Partial,
                                                rollbackFailures :=
                                                    m2.report.rollbackFailures
                                                    + Labels(failure, CameraRestart in m2.applied, undone))));
    } else {
      rest, s1 := ConcludeTrace(settled, m2, script, Reverted, Failing(false), full, false);
    }
    actions := (back + [Settle(0)]) + rest;
    ExecuteConcat(s, back + [Settle(0)], rest);
  }

  /** A rollback that went well lists no failure. */
  lemma {:induction false} UndoFailuresListed(m: Machine, plan: seq<Step>, script: Script, kinds: seq<Kind>)
    requires forall kind :: kind in kinds ==> PlanStep(plan, kind).Some? && kind in m.applied
    ensures var (after, ok) := UndoStages(m, plan, script, kinds);
            && after.applied == m.applied && (ok ==> after.report.rollbackFailures == m.report.rollbackFailures)
    decreases |kinds|
  {
    if kinds != [] {
      UndoFailuresListed(UndoStage(m, plan, script, kinds[0]).0, plan, script, kinds[1..]);
    }
  }

  lemma {:induction false} SettleDone(s: System, m: Machine, full: Plan)
    requires Halfway(s, m, full, |full|)
    ensures Matches(Next(s, Settle(0)), m, Removing(full, true))
  {
    assert s.processes[0] == Applying(full, |full|, m.applied);
    assert Next(s, Settle(0)).processes == map[0 := Removing(full, true)];
  }

  /** Taking the lease, checking for a journal, preparing, and the first write. */
  lemma {:induction false} OpeningTrace(device: State, full: Plan, writing: Writing)
    returns (actions: seq<Action>, s1: System)
    requires Plannable(device, full) && full != []
    ensures s1 == Execute(Booted(device), actions) && Honest(Booted(device), actions)
    ensures s1 == Next(System(device, false, false, Some(0), map[0 := Prepared(full)], []), Begin(0, writing))
  {
    BreakingPrepares(device, full, [Begin(0, writing)]);
    actions := [Acquire(0)] + ([Check(0)] + ([Prepare(0, Some(full))] + [Begin(0, writing)]));
    Single(System(device, false, false, Some(0), map[0 := Prepared(full)], []), Begin(0, writing));
    s1 := Execute(Booted(device), actions);
    NoFailsHonest(Booted(device), actions);
  }

  lemma {:induction false} OpenedHalfway(device: State, plan: seq<Step>, writes: seq<Writing>, full: Plan)
    requires Complete(device) && WriteJournal(Started(device, plan, writes)).1
    ensures Halfway(System(device, true, true, Some(0), map[0 := Applying(full, 0, map[])], []),
            WriteJournal(Started(device, plan, writes)).0, full, 0)
  {
    assert KindsOf(full[..0]) == [] && PresetSafety.Applies([]) == [];
  }

  lemma {:induction false} DuePlannable(device: State, plan: seq<Step>, script: Script)
    requires Complete(device)
    ensures Plannable(device, Stages(device, plan, script, ApplyOrder))
  {
    assert PresetSafety.Distinct(ApplyOrder);
    StagesAmong(device, plan, script, ApplyOrder);
  }

  lemma {:induction false} WholeForward(device: State, plan: seq<Step>, script: Script, writes: seq<Writing>,
          full: Plan, s: System)
    returns (actions: seq<Action>, s1: System, reached: nat)
    requires Complete(device) && WriteJournal(Started(device, plan, writes)).1
             && full == Stages(device, plan, script, ApplyOrder)
    requires s == System(device, true, true, Some(0), map[0 := Applying(full, 0, map[])], [])
    ensures s1 == Execute(s, actions) && (PresetSafety.Contract(script) ==> Honest(s, actions))
    ensures var (m, failure) := PresetSafety.Forward(device, plan, script, writes);
            if failure.None? then reached == |full| && Halfway(s1, m, full, |full|)
            else Stopped(s1, m, full, reached, failure.value)
  {
    OpenedHalfway(device, plan, writes, full);
    assert PresetSafety.Distinct(ApplyOrder) && full[0..] == full;
    actions, s1, reached :=
        ForwardTrace(s, WriteJournal(Started(device, plan, writes)).0, plan, script, device, full, 0, ApplyOrder);
  }

  /** From the journal on disk to the end of the run. */
  lemma {:induction false} OpenTrace(device: State, plan: seq<Step>, script: Script, writes: seq<Writing>, full: Plan,
          s: System)
    returns (actions: seq<Action>, s1: System)
    requires Complete(device) && WriteJournal(Started(device, plan, writes)).1
             && full == Stages(device, plan, script, ApplyOrder)
    requires s == System(device, true, true, Some(0), map[0 := Applying(full, 0, map[])], [])
    ensures s1 == Execute(s, actions) && (PresetSafety.Contract(script) ==> Honest(s, actions))
    ensures var (m, failure) := PresetSafety.Forward(device, plan, script, writes);
            && (failure.Some? ==> Grounded(m, plan))
            && Closed(s1, if failure.Some? then Recover(m, plan, script, failure.value).0
                else Finish(m, script, Completed, Succeeded).0)
            && s1.committed == if failure.None? && !script.removal.Stays? then [full] else []
  {
    PresetSafety.ForwardFacts(device, plan, script, writes);
    var (m, failure) := PresetSafety.Forward(device, plan, script, writes);
    var forward, s2, reached := WholeForward(device, plan, script, writes, full, s);
    var rest;
    rest, s1 := EndTrace(s2, m, plan, script, full, reached, failure);
    actions := forward + rest;
    ExecuteConcat(s, forward, rest);
  }

  lemma {:induction false} RunAfterOpening(device: State, plan: seq<Step>, script: Script, writes: seq<Writing>)
    requires Complete(device) && exists s :: s in plan && !s.noOp
    ensures var run := Run(device, None, plan, script, writes);
            var (m, failure) := PresetSafety.Forward(device, plan, script, writes);
            && (!WriteJournal(Started(device, plan, writes)).1 ==>
                run == (WriteJournal(Started(device, plan, writes)).0, Failing(false)))
            && (WriteJournal(Started(device, plan, writes)).1 ==>
                  && (failure.Some? ==>
                      Grounded(m, plan) && run == Recover(m, plan, script, failure.value) && !run.1.Succeeded?)
                  && (failure.None? ==>
                      run == Finish(m, script, Completed, Succeeded) && (run.1.Succeeded? ==> script.removal.Removed?)))
  {
    PresetSafety.ForwardFacts(device, plan, script, writes);
  }

  /** Every run that writes its journal is a run of the machine, ending with the
    * same device and the same journal; it is honest when the stage contract holds,
    * and commits the plan when it completed and its journal is gone. */
  lemma {:induction false} RunTraces(device: State, plan: seq<Step>, script: Script, writes: seq<Writing>)
    returns (actions: seq<Action>)
    requires Complete(device) && Stages(device, plan, script, ApplyOrder) != [] && exists s :: s in plan && !s.noOp
    ensures var (m, result) := Run(device, None, plan, script, writes);
            var s := Execute(Booted(device), actions);
            && Closed(s, m)
            && (PresetSafety.Contract(script) ==> Honest(Booted(device), actions))
            && (s.committed == [] || s.committed == [Stages(device, plan, script, ApplyOrder)])
            && (result.Succeeded? ==> s.committed == [Stages(device, plan, script, ApplyOrder)])
  {
    var full := Stages(device, plan, script, ApplyOrder);
    var (m, ok) := WriteJournal(Started(device, plan, writes));
    DuePlannable(device, plan, script);
    RunAfterOpening(device, plan, script, writes);
    var opening, s1 := OpeningTrace(device, full, NextWriting(Started(device, plan, writes)));
    OpeningEnds(device, plan, writes, full, s1);
    var rest, s2;
    if ok {
      rest, s2 := OpenTrace(device, plan, script, writes, full, s1);
    } else {
      rest, s2 := AbortTrace(s1, m);
    }
    actions := opening + rest;
    ExecuteConcat(Booted(device), opening, rest);
  }

  lemma {:induction false} OpeningEnds(device: State, plan: seq<Step>, writes: seq<Writing>, full: Plan, s: System)
    requires s ==
             Next(System(device, false, false, Some(0), map[0 := Prepared(full)], []),
             Begin(0, NextWriting(Started(device, plan, writes))))
    ensures var (m, ok) := WriteJournal(Started(device, plan, writes));
            if ok then s == System(device, true, true, Some(0), map[0 := Applying(full, 0, map[])], [])
            else s.processes == map[0 :=
                Ending] && s.lease == Some(0) && s.device == m.device && s.visible == m.disk.Some?
  {
    var start := System(device, false, false, Some(0), map[0 := Prepared(full)], []);
    assert start.processes[0] == Prepared(full);
    assert s.processes ==
        map[0 := if NextWriting(Started(device, plan, writes)).Persisted? then Applying(full, 0, map[]) else Ending];
  }

  /** So what is proved of all runs of many processes is true of the transaction
    * itself: without a journal on disk its device is the start state, or the start
    * state with the plan applied; and success is the latter. */
  lemma {:induction false} RunIsCrashSafe(device: State, plan: seq<Step>, script: Script, writes: seq<Writing>)
    requires Complete(device) && Stages(device, plan, script, ApplyOrder) != [] && exists s :: s in plan && !s.noOp
    requires PresetSafety.Contract(script)
    ensures var (m, result) := Run(device, None, plan, script, writes);
            var applied := ApplyPlan(device, Stages(device, plan, script, ApplyOrder));
            && (m.disk.None? ==> m.device == device || m.device == applied)
            && (result.Succeeded? ==> m.disk.None? && m.device == applied)
  {
    var full := Stages(device, plan, script, ApplyOrder);
    var actions := RunTraces(device, plan, script, writes);
    CrashSafe(device, actions);
    PresetSafety.JournalGuards(device, plan, script, writes);
    ReplayOne(device, full);
  }

  lemma {:induction false} ReplayOne(device: State, full: Plan)
    ensures Replay(device, []) == device && Replay(device, [full]) == ApplyPlan(device, full)
  {
    assert [full][..0] == [];
  }

  lemma {:induction false} AbortTrace(s: System, m: Machine) returns (actions: seq<Action>, s1: System)
    requires s.processes == map[0 := Ending] && s.lease == Some(0) && s.device == m.device && s.visible == m.disk.Some?
    ensures s1 == Execute(s, actions) && Honest(s, actions) && Closed(s1, m) && s1.committed == s.committed
  {
    Single(s, Release(0));
    actions, s1 := [Release(0)], Next(s, Release(0));
    assert s1.processes == map[0 := Idle];
  }

  lemma {:induction false} EndTrace(s: System, m: Machine, plan: seq<Step>, script: Script, full: Plan, reached: nat,
          failure: Option<Failure>)
    returns (actions: seq<Action>, s1: System)
    requires if failure.None? then reached == |full| && Halfway(s, m, full, |full|)
             else Stopped(s, m, full, reached, failure.value)
    requires Grounded(m, plan) && m.log == PresetSafety.Applies(Filter(ApplyOrder, m.applied.Keys))
             && m.report.rollbackFailures == []
    ensures s1 == Execute(s, actions) && Honest(s, actions)
    ensures Closed(s1, if failure.Some? then Recover(m, plan, script, failure.value).0
            else Finish(m, script, Completed, Succeeded).0)
    ensures s1.committed == if failure.None? && !script.removal.Stays? then [full] else []
  {
    if failure.Some? {
      actions, s1 := RecoverTrace(s, m, plan, script, full, reached, failure.value);
    } else {
      SettleDone(s, m, full);
      Single(s, Settle(0));
      var rest;
      rest, s1 := ConcludeTrace(Next(s, Settle(0)), m, script, Completed, Succeeded, full, true);
      actions := [Settle(0)] + rest;
      ExecuteConcat(s, [Settle(0)], rest);
    }
  }
}
