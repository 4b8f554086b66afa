/** Crash safety over whole runs: any number of processes apply presets to one
  * device, and any of them, or the whole machine, may die between two steps. */
module CrashSafety {
  import opened Wrappers
  import opened Preset

  type Pid = nat

  /** One due stage of a preset and what it sets its component to.  A restart
    * cannot be undone. */
  datatype StagePlan = StagePlan(kind: Kind, target: int) {
    predicate Reversible() { !kind.CameraRestart? }
  }

  type Plan = seq<StagePlan>

  predicate Plannable(device: State, plan: Plan) {
    && (forall i :: 0 <= i < |plan| ==> plan[i].kind in device)
    && (forall i, j :: 0 <= i < j < |plan| ==> plan[i].kind != plan[j].kind)
  }

  /** Where one process stands.  `tainted` says that its rollback cannot end in
    * `RolledBack`. */
  datatype Process =
    | Idle
    | Leased
    | Checked
    | Prepared(plan: Plan)
    | Applying(plan: Plan, done: nat, previous: State)
    | Undoing(plan: Plan, left: nat, previous: State, tainted: bool)
    | Removing(plan: Plan, completed: bool)
    | Rewriting
    | Ending

  /** `visible` is whether a journal can be seen, `stable` whether one survives a
    * power loss; `committed` are the presets whose journal has been removed after
    * completion. */
  datatype System = System(
    device: State,
    visible: bool,
    stable: bool,
    lease: Option<Pid>,
    processes: map<Pid, Process>,
    committed: seq<Plan>)

  datatype Action =
    | Acquire(pid: Pid)
    | Check(pid: Pid)
    | Prepare(pid: Pid, plan: Option<Plan>)
    | Begin(pid: Pid, writing: Writing)
    | Advance(pid: Pid)
    | Fail(pid: Pid, partial: bool, moved: Option<int>)
    | JournalFails(pid: Pid)
    | UndoNext(pid: Pid, restored: bool, moved: Option<int>, journaled: bool)
    | Settle(pid: Pid)
    | Remove(pid: Pid, removal: Removal)
    | Rewrite(pid: Pid, writing: Writing)
    | Release(pid: Pid)
    | Crash(pid: Pid)
    | PowerLoss(survives: bool)

  function Of(s: System, pid: Pid): Process {
    if pid in s.processes then s.processes[pid] else Idle
  }

  function To(s: System, pid: Pid, process: Process): System {
    s.(processes := s.processes[pid := process])
  }

  /** A journal write replaces the file whole or leaves it. */
  function Journaled(s: System, writing: Writing): System {
    match writing
    case Persisted => s.(visible := true, stable := true)
    case Unsynced => s.(visible := true)
    case Lost => s
  }

  function Unjournaled(s: System, removal: Removal): System {
    match removal
    case Removed => s.(visible := false, stable := false)
    case RemovedUnsynced => s.(visible := false)
    case Stays => s
  }

  predicate Irreversible(plan: Plan, done: nat)
    requires done <= |plan|
  {
    exists i :: 0 <= i < done && !plan[i].Reversible()
  }

  /** One step; an action that does not fit where its process stands does nothing. */
  function Next(s: System, a: Action): System {
    match a
    case Acquire(pid) =>
      if Of(s, pid).Idle? && s.lease.None? then To(s.(lease := Some(pid)), pid, Leased) else s
    case Check(pid) =>
      if Of(s, pid).Leased? then To(s, pid, if s.visible then Ending else Checked) else s
    case Prepare(pid, plan) =>
      if !Of(s, pid).Checked? then s
      else if plan.None? || plan.value == [] || !Plannable(s.device, plan.value) then To(s, pid, Ending)
      else To(s, pid, Prepared(plan.value))
    case Begin(pid, writing) =>
      if !Of(s, pid).Prepared? then s
      else To(Journaled(s, writing), pid, if writing.Persisted? then Applying(Of(s, pid).plan, 0, map[]) else Ending)
    case Advance(pid) =>
      var p := Of(s, pid);
      if !p.Applying? || p.done >= |p.plan| || p.plan[p.done].kind !in s.device then s
      else
        var stage := p.plan[p.done];
        To(s.(device := s.device[stage.kind := stage.target]), pid,
           Applying(p.plan, p.done + 1, p.previous[stage.kind := s.device[stage.kind]]))
    case Fail(pid, partial, moved) =>
      var p := Of(s, pid);
      if !p.Applying? || p.done >= |p.plan| then s
      else
        var stage := p.plan[p.done];
        To(s.(device := Moved(s.device, stage.kind, moved)), pid,
           Undoing(p.plan, p.done, p.previous, partial || !stage.Reversible() || Irreversible(p.plan, p.done)))
    case JournalFails(pid) =>
      var p := Of(s, pid);
      if !p.Applying? || p.done > |p.plan| then s
      else To(s, pid, Undoing(p.plan, p.done, p.previous, Irreversible(p.plan, p.done)))
    case UndoNext(pid, restored, moved, journaled) =>
      var p := Of(s, pid);
      if !p.Undoing? || p.left == 0 || p.left > |p.plan| then s
      else
        var stage := p.plan[p.left - 1];
        if !stage.Reversible() then To(s, pid, p.(left := p.left - 1))
        else
          To(s.(device := Moved(s.device, stage.kind,
                                  if restored then
                                      (if stage.kind in p.previous then Some(p.previous[stage.kind]) else None)
                                      else moved)),
             pid, p.(left := p.left - 1, tainted := p.tainted || !restored || !journaled))
    case Settle(pid) =>
      var p := Of(s, pid);
      if p.Applying? && p.done == |p.plan| then To(s, pid, Removing(p.plan, true))
      else if p.Undoing? && p.left == 0 then To(s, pid, if p.tainted then Rewriting else Removing(p.plan, false))
      else s
    case Remove(pid, removal) =>
      var p := Of(s, pid);
      if !p.Removing? then s
      else
        var s1 := Unjournaled(s, removal);
        var s2 := if p.completed && !removal.Stays? then s1.(committed := s1.committed + [p.plan]) else s1;
        To(s2, pid, if removal.Removed? then Ending else Rewriting)
    case Rewrite(pid, writing) =>
      if Of(s, pid).Rewriting? then To(Journaled(s, writing), pid, Ending) else s
    case Release(pid) =>
      if Of(s, pid).Ending? then To(s.(lease := None), pid, Idle) else s
    case Crash(pid) =>
      if Of(s, pid).Idle? then s else To(s.(lease := None), pid, Idle)
    case PowerLoss(survives) =>
      var visible := if survives then s.visible else s.stable;
      s.(visible := visible, stable := visible, lease := None, processes := map[])
  }

  function Execute(s: System, actions: seq<Action>): System
    decreases |actions|
  {
    if actions == [] then s else Execute(Next(s, actions[0]), actions[1..])
  }

  function Booted(device: State): System { System(device, false, false, None, map[], []) }

  // ------------------------------------------------------------- the invariant

  /** The device with the first stages of a plan in place. */
  function ApplyPlan(device: State, plan: Plan): State
    decreases |plan|
  {
    if plan == [] then device
    else ApplyPlan(device, plan[..|plan| - 1])[plan[|plan| - 1].kind := plan[|plan| - 1].target]
  }

  /** The start state with the completed presets applied in order. */
  function Replay(device: State, committed: seq<Plan>): State
    decreases |committed|
  {
    if committed == [] then device
    else ApplyPlan(Replay(device, committed[..|committed| - 1]), committed[|committed| - 1])
  }

  /** The stage contract: a failing stage that does not report a partial state, or
    * restart the camera, left its state unchanged. */
  predicate Contract(s: System, a: Action) {
    a.Fail? ==>
      var p := Of(s, a.pid);
      a.partial || a.moved.None? || (p.Applying? && p.done < |p.plan| && !p.plan[p.done].Reversible())
  }

  predicate Honest(s: System, actions: seq<Action>)
    decreases |actions|
  {
    actions == [] || (Contract(s, actions[0]) && Honest(Next(s, actions[0]), actions[1..]))
  }

  /** The recorded values are those of the base state. */
  predicate Recorded(base: State, plan: Plan, done: nat, previous: State)
    requires done <= |plan|
  {
    forall i :: 0 <= i < done ==>
        plan[i].kind in base && plan[i].kind in previous && previous[plan[i].kind] == base[plan[i].kind]
  }

  predicate Sound(s: System, base: State, p: Process) {
    match p
    case Idle => true
    case Leased => true
    case Checked => s.device == base && !s.visible
    case Prepared(plan) => s.device == base && !s.visible && Plannable(base, plan)
    case Applying(plan, done, previous) =>
      && s.visible && s.stable && Plannable(base, plan) && done <= |plan|
      && s.device == ApplyPlan(base, plan[..done]) && Recorded(base, plan, done, previous)
    case Undoing(plan, left, previous, tainted) =>
      && s.visible && s.stable && Plannable(base, plan) && left <= |plan|
      && (!tainted ==>
          s.device == ApplyPlan(base, plan[..left]) && Recorded(base, plan, left, previous)
          && !Irreversible(plan, left))
    case Removing(plan, completed) =>
      && s.visible && s.stable && Plannable(base, plan)
      && s.device == if completed then ApplyPlan(base, plan) else base
    case Rewriting => true
    case Ending => true
  }

  predicate Invariant(s: System, start: State) {
    var base := Replay(start, s.committed);
    && (!s.visible || !s.stable ==> s.device == base)
    && (forall pid :: pid in s.processes && !s.processes[pid].Idle? ==> s.lease == Some(pid))
    && (forall pid :: pid in s.processes ==> Sound(s, base, s.processes[pid]))
  }

  /** Processes exclude one another: at most one is past the lease. */
  lemma {:induction false} OneAtATime(s: System, start: State, p: Pid, q: Pid)
    requires Invariant(s, start) && !Of(s, p).Idle? && !Of(s, q).Idle?
    ensures p == q
  {
    assert s.lease == Some(p) && s.lease == Some(q);
  }

  // ---------------------------------------------------------------- who lives on

  /** The lease is held by exactly the process that is past it, if there is one. */
  ghost predicate Living(s: System) {
    && (forall pid: Pid :: !Of(s, pid).Idle? ==> s.lease == Some(pid))
    && (s.lease.Some? ==> !Of(s, s.lease.value).Idle?)
  }

  lemma {:induction false} LivingStays(s: System, s1: System, pid: Pid)
    requires Living(s) && s1.processes == s.processes[pid := Of(s1, pid)] && pid in s1.processes
    requires !Of(s, pid).Idle? || (s.lease.None? && (s1.lease == Some(pid) || Of(s1, pid).Idle?))
    requires if Of(s1, pid).Idle? then s1.lease.None? else s1.lease == Some(pid)
    ensures Living(s1)
  {
    forall q: Pid | !Of(s1, q).Idle? ensures s1.lease == Some(q) {
      if q != pid { assert Of(s1, q) == Of(s, q); }
    }
  }

  lemma {:induction false} LivingForward(s: System, a: Action)
    requires Living(s) && (a.Acquire? || a.Check? || a.Prepare? || a.Begin? || a.Advance? || a.Fail? || a.JournalFails?)
    ensures Living(Next(s, a))
  {
    if Next(s, a) != s { LivingStays(s, Next(s, a), a.pid); }
  }

  lemma {:induction false} LivingBack(s: System, a: Action)
    requires Living(s) && (a.UndoNext? || a.Settle? || a.Remove? || a.Rewrite? || a.Release? || a.Crash?)
    ensures Living(Next(s, a))
  {
    if Next(s, a) != s { LivingStays(s, Next(s, a), a.pid); }
  }

  lemma {:induction false} LivingStep(s: System, a: Action)
    requires Living(s)
    ensures Living(Next(s, a))
  {
    if a.UndoNext? || a.Settle? || a.Remove? || a.Rewrite? || a.Release? || a.Crash? {
      LivingBack(s, a);
    } else if !a.PowerLoss? {
      LivingForward(s, a);
    }
  }

  lemma {:induction false} LivingOn(s: System, actions: seq<Action>)
    requires Living(s)
    ensures Living(Execute(s, actions))
    decreases |actions|
  {
    if actions != [] {
      LivingStep(s, actions[0]);
      LivingOn(Next(s, actions[0]), actions[1..]);
    }
  }

  /** After any run a lease is never left behind by a process that is gone: it is
    * held by the one process past it, and when that crashes, or the power fails,
    * any other can take it. */
  lemma {:induction false} LeaseOutlivesNobody(device: State, actions: seq<Action>, holder: Pid, other: Pid,
          survives: bool)
    ensures var s := Execute(Booted(device), actions);
            && Living(s)
            && (s.lease == Some(holder) && (other == holder || Of(s, other).Idle?) ==>
                  Of(Next(Next(s, Crash(holder)), Acquire(other)), other).Leased?)
            && Of(Next(Next(s, PowerLoss(survives)), Acquire(other)), other).Leased?
  {
    assert Living(Booted(device));
    LivingOn(Booted(device), actions);
  }

  /** A journal whose removal was reported is gone for good. */
  lemma {:induction false} RemovedForGood(s: System, pid: Pid, survives: bool)
    requires Of(s, pid).Removing?
    ensures !Next(Next(s, Remove(pid, Removed)), PowerLoss(survives)).visible
  {
  }

  /** It is enough to look at the acting process. */
  lemma {:induction false} OthersIdle(s: System, start: State, pid: Pid, s1: System)
    requires Invariant(s, start) && !Of(s, pid).Idle?
    requires s1.processes.Keys == s.processes.Keys + {pid} && forall q :: q in s.processes && q != pid ==>
             s1.processes[q] == s.processes[q]
    requires s1.lease == s.lease || s1.processes[pid].Idle?
    requires var base := Replay(start, s1.committed);
             (!s1.visible || !s1.stable ==> s1.device == base) && Sound(s1, base, s1.processes[pid])
    ensures Invariant(s1, start)
  {
    forall q | q in s1.processes && q != pid ensures s1.processes[q].Idle? {
      if !s1.processes[q].Idle? { OneAtATime(s, start, pid, q); }
    }
  }

  lemma {:induction false} ApplyPlanElsewhere(device: State, plan: Plan, kind: Kind)
    requires kind in device && forall i :: 0 <= i < |plan| ==> plan[i].kind != kind
    ensures kind in ApplyPlan(device, plan) && ApplyPlan(device, plan)[kind] == device[kind]
    decreases |plan|
  {
    if plan != [] { ApplyPlanElsewhere(device, plan[..|plan| - 1], kind); }
  }

  lemma {:induction false} ApplyPlanKeys(device: State, plan: Plan)
    requires forall i :: 0 <= i < |plan| ==> plan[i].kind in device
    ensures ApplyPlan(device, plan).Keys == device.Keys
    decreases |plan|
  {
    if plan != [] { ApplyPlanKeys(device, plan[..|plan| - 1]); }
  }

  lemma {:induction false} NextStage(base: State, plan: Plan, done: nat)
    requires Plannable(base, plan) && done < |plan|
    ensures var c := plan[done].kind;
            var before := ApplyPlan(base, plan[..done]);
            && c in before && before[c] == base[c] && before.Keys == base.Keys
            && ApplyPlan(base, plan[..done + 1]) == before[c := plan[done].target]
            && ApplyPlan(base, plan[..done + 1])[c := base[c]] == before
  {
    assert plan[..done + 1][..done] == plan[..done];
    ApplyPlanElsewhere(base, plan[..done], plan[done].kind);
    ApplyPlanKeys(base, plan[..done]);
  }

  lemma {:induction false} KeepsBegin(s: System, start: State, pid: Pid, writing: Writing)
    requires Invariant(s, start) && Of(s, pid).Prepared?
    ensures Invariant(Next(s, Begin(pid, writing)), start)
  {
    assert Of(s, pid).plan[..0] == [];
    OthersIdle(s, start, pid, Next(s, Begin(pid, writing)));
  }

  lemma {:induction false} KeepsApply(s: System, start: State, pid: Pid)
    requires Invariant(s, start) && Of(s, pid).Applying?
    ensures Invariant(Next(s, Advance(pid)), start)
  {
    var p := Of(s, pid);
    if p.done < |p.plan| {
      NextStage(Replay(start, s.committed), p.plan, p.done);
      OthersIdle(s, start, pid, Next(s, Advance(pid)));
    }
  }

  lemma {:induction false} KeepsFail(s: System, start: State, a: Action)
    requires Invariant(s, start) && a.Fail? && Contract(s, a) && Of(s, a.pid).Applying?
    ensures Invariant(Next(s, a), start)
  {
    var p := Of(s, a.pid);
    if p.done < |p.plan| { OthersIdle(s, start, a.pid, Next(s, a)); }
  }

  /** Undoing one recorded stage goes one stage back. */
  lemma {:induction false} StageUndone(base: State, plan: Plan, left: nat, previous: State)
    requires 0 < left <= |plan| && Plannable(base, plan) && Recorded(base, plan, left, previous)
             && !Irreversible(plan, left)
    ensures var kind := plan[left - 1].kind;
            && plan[left - 1].Reversible() && kind in previous
            && ApplyPlan(base, plan[..left])[kind := previous[kind]] == ApplyPlan(base, plan[..left - 1])
            && Recorded(base, plan, left - 1, previous) && !Irreversible(plan, left - 1)
  {
    NextStage(base, plan, left - 1);
    assert plan[left - 1].Reversible();
  }

  lemma {:induction false} KeepsUndo(s: System, start: State, a: Action)
    requires Invariant(s, start) && a.UndoNext? && Of(s, a.pid).Undoing? && Of(s, a.pid).left > 0
    ensures Invariant(Next(s, a), start)
  {
    var p := Of(s, a.pid);
    var base := Replay(start, s.committed);
    if !p.tainted { StageUndone(base, p.plan, p.left, p.previous); }
    OthersIdle(s, start, a.pid, Next(s, a));
  }

  lemma {:induction false} KeepsSettle(s: System, start: State, pid: Pid)
    requires Invariant(s, start) && (Of(s, pid).Applying? || Of(s, pid).Undoing?)
    ensures Invariant(Next(s, Settle(pid)), start)
  {
    var p := Of(s, pid);
    assert p.plan[..0] == [] && p.plan[..|p.plan|] == p.plan;
    OthersIdle(s, start, pid, To(s, pid, p));
    if Next(s, Settle(pid)) != s { OthersIdle(s, start, pid, Next(s, Settle(pid))); }
  }

  lemma {:induction false} KeepsRemove(s: System, start: State, pid: Pid, removal: Removal)
    requires Invariant(s, start) && Of(s, pid).Removing?
    ensures Invariant(Next(s, Remove(pid, removal)), start)
  {
    var p := Of(s, pid);
    assert (s.committed + [p.plan])[..|s.committed|] == s.committed;
    OthersIdle(s, start, pid, Next(s, Remove(pid, removal)));
  }

  lemma {:induction false} KeepsAcquire(s: System, start: State, pid: Pid)
    requires Invariant(s, start)
    ensures Invariant(Next(s, Acquire(pid)), start)
  {
  }

  lemma {:induction false} KeepsCheck(s: System, start: State, pid: Pid)
    requires Invariant(s, start)
    ensures Invariant(Next(s, Check(pid)), start)
  {
    if Of(s, pid).Leased? { OthersIdle(s, start, pid, Next(s, Check(pid))); }
  }

  lemma {:induction false} KeepsPrepare(s: System, start: State, pid: Pid, plan: Option<Plan>)
    requires Invariant(s, start)
    ensures Invariant(Next(s, Prepare(pid, plan)), start)
  {
    if Of(s, pid).Checked? { OthersIdle(s, start, pid, Next(s, Prepare(pid, plan))); }
  }

  lemma {:induction false} KeepsJournalFails(s: System, start: State, pid: Pid)
    requires Invariant(s, start)
    ensures Invariant(Next(s, JournalFails(pid)), start)
  {
    if Of(s, pid).Applying? { OthersIdle(s, start, pid, Next(s, JournalFails(pid))); }
  }

  lemma {:induction false} KeepsRewrite(s: System, start: State, pid: Pid, writing: Writing)
    requires Invariant(s, start)
    ensures Invariant(Next(s, Rewrite(pid, writing)), start)
  {
    if Of(s, pid).Rewriting? { OthersIdle(s, start, pid, Next(s, Rewrite(pid, writing))); }
  }

  lemma {:induction false} KeepsLeaving(s: System, start: State, pid: Pid)
    requires Invariant(s, start)
    ensures Invariant(Next(s, Release(pid)), start) && Invariant(Next(s, Crash(pid)), start)
  {
    if !Of(s, pid).Idle? {
      OthersIdle(s, start, pid, Next(s, Crash(pid)));
      if Of(s, pid).Ending? { OthersIdle(s, start, pid, Next(s, Release(pid))); }
    }
  }

  /** Every step keeps the invariant, given the stage contract. */
  lemma {:induction false} StepKeepsInvariant(s: System, start: State, a: Action)
    requires Invariant(s, start) && Contract(s, a)
    ensures Invariant(Next(s, a), start)
  {
    match a
    case Acquire(pid) => KeepsAcquire(s, start, pid);
    case Check(pid) => KeepsCheck(s, start, pid);
    case Prepare(pid, plan) => KeepsPrepare(s, start, pid, plan);
    case Begin(pid, writing) => if Of(s, pid).Prepared? { KeepsBegin(s, start, pid, writing); }
    case Advance(pid) => if Of(s, pid).Applying? { KeepsApply(s, start, pid); }
    case Fail(pid, partial, moved) => if Of(s, pid).Applying? { KeepsFail(s, start, a); }
    case JournalFails(pid) => KeepsJournalFails(s, start, pid);
    case UndoNext(pid, restored, moved, journaled) =>
      if Of(s, pid).Undoing? && Of(s, pid).left > 0 { KeepsUndo(s, start, a); }
    case Settle(pid) => if Of(s, pid).Applying? || Of(s, pid).Undoing? { KeepsSettle(s, start, pid); }
    case Remove(pid, removal) => if Of(s, pid).Removing? { KeepsRemove(s, start, pid, removal); }
    case Rewrite(pid, writing) => KeepsRewrite(s, start, pid, writing);
    case Release(pid) => KeepsLeaving(s, start, pid);
    case Crash(pid) => KeepsLeaving(s, start, pid);
    case PowerLoss(survives) =>
  }

  lemma {:induction false} RunKeepsInvariant(s: System, start: State, actions: seq<Action>)
    requires Invariant(s, start) && Honest(s, actions)
    ensures Invariant(Execute(s, actions), start)
    decreases |actions|
  {
    if actions != [] {
      StepKeepsInvariant(s, start, actions[0]);
      RunKeepsInvariant(Next(s, actions[0]), start, actions[1..]);
    }
  }

  /** Crash safety over whole runs: whenever no recovery journal is on disk, the
    * device holds the start state with the completed presets applied in order. */
  lemma {:induction false} CrashSafe(start: State, actions: seq<Action>)
    requires Honest(Booted(start), actions)
    ensures var s := Execute(Booted(start), actions);
            !s.visible ==> s.device == Replay(start, s.committed)
  {
    assert Invariant(Booted(start), start) by { assert Replay(start, []) == start; }
    RunKeepsInvariant(Booted(start), start, actions);
  }

  // ------------------------------------------------------- refusal and limits

  /** A journal left behind by a process that is gone. */
  predicate Abandoned(s: System) {
    s.visible && s.stable && forall pid :: pid in s.processes ==> s.processes[pid] in {Idle, Leased, Ending}
  }

  /** While a left journal is on disk no run of presets touches the device. */
  lemma {:induction false} FrozenBehindJournal(s: System, actions: seq<Action>)
    requires Abandoned(s)
    ensures var after := Execute(s, actions);
            Abandoned(after) && after.device == s.device && after.committed == s.committed
    decreases |actions|
  {
    if actions != [] {
      FrozenStep(s, actions[0]);
      FrozenBehindJournal(Next(s, actions[0]), actions[1..]);
    }
  }

  lemma {:induction false} FrozenStep(s: System, a: Action)
    requires Abandoned(s)
    ensures var after := Next(s, a); Abandoned(after) && after.device == s.device && after.committed == s.committed
  {
  }

  lemma {:induction false} ExecuteOne(s: System, a: Action, rest: seq<Action>)
    ensures Execute(s, [a] + rest) == Execute(Next(s, a), rest)
  {
    assert ([a] + rest)[1..] == rest;
  }

  const Closing: seq<Action> := [Settle(0)] + ([Remove(0, Removed)] + [])

  function Breaking(plan: Plan, garbage: int): seq<Action> {
    [Acquire(0)]
        + ([Check(0)]
        + ([Prepare(0, Some(plan))] + ([Begin(0, Persisted)] + ([Fail(0, false, Some(garbage))] + Closing))))
  }

  /** The contract is needed: a stage that moves its state and reports an ordinary
    * error leaves a changed device without a journal. */
  lemma {:induction false} BrokenContractLosesState(start: State, kind: Kind, target: int, garbage: int)
    requires kind in start && garbage != start[kind] && !kind.CameraRestart?
    ensures var s := Execute(Booted(start), Breaking([StagePlan(kind, target)], garbage));
            !s.visible && s.device != Replay(start, s.committed)
  {
    var plan := [StagePlan(kind, target)];
    BreakingPrepares(start, plan, [Begin(0, Persisted)] + ([Fail(0, false, Some(garbage))] + Closing));
    BreakingFails(start, plan, garbage, Closing);
    BreakingCloses(start, plan, garbage);
    assert Replay(start, []) == start;
  }

  lemma {:induction false} BreakingCloses(start: State, plan: Plan, garbage: int)
    requires |plan| == 1
    ensures var s := Execute(BrokenSystem(start, plan, garbage), Closing);
            !s.visible && s.committed == [] && s.device == start[plan[0].kind := garbage]
  {
    var s5 := BrokenSystem(start, plan, garbage);
    var s6 := s5.(processes := map[0 := Removing(plan, false)]);
    ExecuteOne(s5, Settle(0), [Remove(0, Removed)] + []);
    assert s5.processes[0] == Undoing(plan, 0, map[], false) && Next(s5, Settle(0)) == s6;
    ExecuteOne(s6, Remove(0, Removed), []);
  }

  function BrokenSystem(start: State, plan: Plan, garbage: int): System
    requires plan != []
  {
    System(start[plan[0].kind := garbage], true, true, Some(0), map[0 := Undoing(plan, 0, map[], false)], [])
  }

  lemma {:induction false} BreakingFails(start: State, plan: Plan, garbage: int, last: seq<Action>)
    requires |plan| == 1 && plan[0].kind in start && plan[0].Reversible()
    ensures Execute(System(start, false, false, Some(0), map[0 := Prepared(plan)], []),
                    [Begin(0, Persisted)] + ([Fail(0, false, Some(garbage))] + last))
         == Execute(BrokenSystem(start, plan, garbage), last)
  {
    var s3 := System(start, false, false, Some(0), map[0 := Prepared(plan)], []);
    var s4 := System(start, true, true, Some(0), map[0 := Applying(plan, 0, map[])], []);
    ExecuteOne(s3, Begin(0, Persisted), [Fail(0, false, Some(garbage))] + last);
    assert Next(s3, Begin(0, Persisted)) == s4;
    ExecuteOne(s4, Fail(0, false, Some(garbage)), last);
    assert Next(s4, Fail(0, false, Some(garbage))) == BrokenSystem(start, plan, garbage);
  }

  lemma {:induction false} BreakingPrepares(start: State, plan: Plan, later: seq<Action>)
    requires Plannable(start, plan) && plan != []
    ensures Execute(Booted(start), [Acquire(0)] + ([Check(0)] + ([Prepare(0, Some(plan))] + later)))
         == Execute(System(start, false, false, Some(0), map[0 := Prepared(plan)], []), later)
  {
    var s0 := Booted(start);
    var s1 := System(start, false, false, Some(0), map[0 := Leased], []);
    var s2 := System(start, false, false, Some(0), map[0 := Checked], []);
    ExecuteOne(s0, Acquire(0), [Check(0)] + ([Prepare(0, Some(plan))] + later));
    assert Next(s0, Acquire(0)) == s1;
    ExecuteOne(s1, Check(0), [Prepare(0, Some(plan))] + later);
    assert Next(s1, Check(0)) == s2;
    ExecuteOne(s2, Prepare(0, Some(plan)), later);
    assert Next(s2, Prepare(0, Some(plan))) == System(start, false, false, Some(0), map[0 := Prepared(plan)], []);
  }
}
