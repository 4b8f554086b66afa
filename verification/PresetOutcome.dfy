/** How a preset run ends, exactly: decided by the plan, the answers of its stages
  * and undos, and the journal writes, counted off in advance. */
module PresetOutcome {
  import opened Wrappers
  import opened Preset
  import opened PresetSafety

  // ------------------------------------------------------ counting off in advance

  /** The stages a plan performs, in the order they are applied. */
  function DueStages(kinds: seq<Kind>, plan: seq<Step>): (r: seq<Kind>)
    ensures forall kind :: kind in r <==>
            kind in kinds && PlanStep(plan, kind).Some? && !PlanStep(plan, kind).value.noOp
    ensures Distinct(kinds) ==> Distinct(r)
    decreases |kinds|, plan
  {
    if kinds == [] then []
    else
      var rest := DueStages(kinds[1..], plan);
      assert forall kind :: kind in kinds <==> kind == kinds[0] || kind in kinds[1..];
      if PlanStep(plan, kinds[0]).Some? && !PlanStep(plan, kinds[0]).value.noOp then [kinds[0]] + rest else rest
  }

  /** The answer to the `i`-th journal write of a run; the opening one is write 0
    * and an exhausted script answers well. */
  predicate Writes(writes: seq<Writing>, i: nat) { i < |writes| ==> writes[i].Persisted? }

  /** Stage `i` takes effect and its journal write, number `base + i`, succeeds. */
  predicate Stands(due: seq<Kind>, script: Script, writes: seq<Writing>, base: nat, i: nat)
    requires i < |due|
  {
    (due[i] in script.forward ==> script.forward[due[i]].Takes?) && Writes(writes, base + i)
  }

  /** The first stage that does not stand is number `n`. */
  predicate FailsAt(due: seq<Kind>, script: Script, writes: seq<Writing>, base: nat, n: nat) {
    n < |due| && !Stands(due, script, writes, base, n) && forall i :: 0 <= i < n ==>
        Stands(due, script, writes, base, i)
  }

  predicate AllStand(due: seq<Kind>, script: Script, writes: seq<Writing>, base: nat) {
    forall i :: 0 <= i < |due| ==> Stands(due, script, writes, base, i)
  }

  predicate BreaksAt(due: seq<Kind>, script: Script, n: nat)
    requires n < |due|
  {
    due[n] in script.forward && script.forward[due[n]].Breaks?
  }

  /** How many stages took effect before a run that fails at stage `n` turned back:
    * stage `n` itself did when only its journal write failed. */
  function Applied(due: seq<Kind>, script: Script, n: nat): nat
    requires n < |due|
  {
    if BreaksAt(due, script, n) then n else n + 1
  }

  /** The undo of stage `i` and journal write `base + i` succeed. */
  predicate UndoesAt(kinds: seq<Kind>, script: Script, writes: seq<Writing>, base: nat, i: nat)
    requires i < |kinds|
  {
    (kinds[i] in script.undo ==> script.undo[kinds[i]].Restores?) && Writes(writes, base + i)
  }

  /** The undo of every applied stage and its journal write succeed; a restart has
    * no undo.  The rollback writes come after the opening and `count` stage writes. */
  predicate UndoesAll(due: seq<Kind>, script: Script, writes: seq<Writing>, count: nat)
    requires count <= |due|
  {
    forall i :: 0 <= i < count ==> !due[i].CameraRestart? && UndoesAt(due, script, writes, 1 + count, i)
  }

  /** A run that fails at stage `n` ends rolled back. */
  predicate RollsBack(due: seq<Kind>, script: Script, writes: seq<Writing>, n: nat)
    requires n < |due|
  {
    && (BreaksAt(due, script, n) ==> !script.forward[due[n]].partial && !due[n].CameraRestart?)
    && UndoesAll(due, script, writes, Applied(due, script, n))
    && script.removal.Removed?
  }

  // ------------------------------------------------------------- the forward pass

  /** A machine in the middle of its forward pass: the journal writes that are left
    * are those from number `base` on. */
  predicate Going(m: Machine, writes: seq<Writing>, base: nat) {
    if base <= |writes| then m.writes == writes[base..] else m.writes == []
  }

  lemma {:induction false} NextWrite(m: Machine, writes: seq<Writing>, base: nat)
    requires Going(m, writes, base)
    ensures var (m1, ok) := WriteJournal(m);
            ok == Writes(writes, base) && Going(m1, writes, base + 1) && m1.applied == m.applied
  {
  }

  lemma {:induction false} DueStage(m: Machine, plan: seq<Step>, script: Script, kind: Kind, writes: seq<Writing>,
          base: nat)
    requires Going(m, writes, base) && PlanStep(plan, kind).Some? && !PlanStep(plan, kind).value.noOp
    requires kind !in m.applied
    ensures var (m1, failure) := ApplyStage(m, plan, script, kind);
            if kind in script.forward && script.forward[kind].Breaks? then
              && failure == Some(Failure(script.forward[kind].partial || kind.CameraRestart?,
                                         PlanStep(plan, kind).value.sequence, kind, script.forward[kind].moved))
              && m1.applied == m.applied && Going(m1, writes, base)
            else
              && (failure.None? <==> Writes(writes, base))
              && (failure.Some? ==> !failure.value.partial && failure.value.kind == kind)
              && m1.applied.Keys == m.applied.Keys + {kind} && Going(m1, writes, base + 1)
  {
    if !(kind in script.forward && script.forward[kind].Breaks?) {
      var m1 := m.(device := m.device[kind := Target(m.device, script, kind)],
                   applied := m.applied[kind := At(m.device, kind)], log := m.log + [Apply(kind)]);
      NextWrite(MarkedBoth(m1, plan, PlanStep(plan, kind).value, Verified), writes, base);
    }
  }

  function Kinds(kinds: seq<Kind>): set<Kind> { set kind | kind in kinds }

  /** The pass stopped at stage `n`. */
  predicate Stopped(m: Machine, after: Machine, failure: Option<Failure>, due: seq<Kind>, script: Script,
          writes: seq<Writing>, base: nat, n: nat)
    requires n < |due|
  {
    && failure.Some? && failure.value.kind == due[n]
    && (failure.value.partial <==>
        BreaksAt(due, script, n) && (script.forward[due[n]].partial || due[n].CameraRestart?))
    && after.applied.Keys == m.applied.Keys + Kinds(due[..Applied(due, script, n)])
    && Going(after, writes, base + Applied(due, script, n))
  }

  /** Where the forward pass ends: past all due stages, or at the first that does
    * not stand. */
  ghost predicate Reached(m: Machine, after: Machine, failure: Option<Failure>, due: seq<Kind>, script: Script,
          writes: seq<Writing>, base: nat) {
    && (failure.None? <==> AllStand(due, script, writes, base))
    && (failure.None? ==> after.applied.Keys == m.applied.Keys + Kinds(due) && Going(after, writes, base + |due|))
    && (forall n: nat :: FailsAt(due, script, writes, base, n) ==>
        Stopped(m, after, failure, due, script, writes, base, n))
  }

  lemma {:induction false} KindsCons(kind: Kind, rest: seq<Kind>, n: nat)
    requires n <= |rest|
    ensures Kinds(([kind] + rest)[..n + 1]) == {kind} + Kinds(rest[..n])
    ensures Kinds([kind] + rest) == {kind} + Kinds(rest)
  {
    assert ([kind] + rest)[..n + 1] == [kind] + rest[..n];
    forall k ensures k in Kinds([kind] + rest[..n]) <==> k == kind || k in rest[..n] {}
    forall k ensures k in Kinds([kind] + rest) <==> k == kind || k in rest {}
  }

  lemma {:induction false} StandsCons(kind: Kind, rest: seq<Kind>, script: Script, writes: seq<Writing>, base: nat,
          later: nat)
    requires later == base + 1
    requires Stands([kind] + rest, script, writes, base, 0)
    ensures AllStand([kind] + rest, script, writes, base) <==> AllStand(rest, script, writes, later)
    ensures forall n: nat :: FailsAt([kind] + rest, script, writes, base, n) ==>
              n > 0 && FailsAt(rest, script, writes, later, n - 1)
  {
    var due := [kind] + rest;
    forall i | 0 <= i < |rest|
      ensures Stands(due, script, writes, base, i + 1) == Stands(rest, script, writes, later, i)
    {
      assert due[i + 1] == rest[i];
    }
    if AllStand(due, script, writes, base) {
      forall i | 0 <= i < |rest| ensures Stands(rest, script, writes, later, i) {
        assert Stands(due, script, writes, base, i + 1);
      }
    }
    if AllStand(rest, script, writes, later) {
      forall i | 0 <= i < |due| ensures Stands(due, script, writes, base, i) {
        if i > 0 { assert Stands(rest, script, writes, later, i - 1); }
      }
    }
    forall n: nat | FailsAt(due, script, writes, base, n) ensures n > 0 && FailsAt(rest, script, writes, later, n - 1) {
      forall i | 0 <= i < n - 1 ensures Stands(rest, script, writes, later, i) {
        assert Stands(due, script, writes, base, i + 1);
      }
    }
  }

  lemma {:induction false} StoppedCons(m: Machine, m1: Machine, after: Machine, failure: Option<Failure>, kind: Kind,
          rest: seq<Kind>, script: Script, writes: seq<Writing>, base: nat, n: nat)
    requires n < |rest| && m1.applied.Keys == m.applied.Keys + {kind}
    requires Stopped(m1, after, failure, rest, script, writes, base + 1, n)
    ensures Stopped(m, after, failure, [kind] + rest, script, writes, base, n + 1)
  {
    var due, count := [kind] + rest, Applied(rest, script, n);
    AppliedCons(kind, rest, script, n);
    KindsCons(kind, rest, count);
    assert m.applied.Keys + Kinds(due[..count + 1]) == m1.applied.Keys + Kinds(rest[..count]);
  }

  lemma {:induction false} AppliedCons(kind: Kind, rest: seq<Kind>, script: Script, n: nat)
    requires n < |rest|
    ensures var due := [kind] + rest;
            && due[n + 1] == rest[n] && BreaksAt(due, script, n + 1) == BreaksAt(rest, script, n)
            && Applied(due, script, n + 1) == Applied(rest, script, n) + 1
  {
  }

  lemma {:induction false} ReachedCons(m: Machine, m1: Machine, after: Machine, failure: Option<Failure>, kind: Kind,
          rest: seq<Kind>, script: Script, writes: seq<Writing>, base: nat)
    requires Stands([kind] + rest, script, writes, base, 0) && m1.applied.Keys == m.applied.Keys + {kind}
    requires Reached(m1, after, failure, rest, script, writes, base + 1)
    ensures Reached(m, after, failure, [kind] + rest, script, writes, base)
  {
    var due := [kind] + rest;
    StandsCons(kind, rest, script, writes, base, base + 1);
    KindsCons(kind, rest, 0);
    forall n: nat | FailsAt(due, script, writes, base, n)
      ensures Stopped(m, after, failure, due, script, writes, base, n)
    {
      StoppedCons(m, m1, after, failure, kind, rest, script, writes, base, n - 1);
    }
  }

  lemma {:induction false} FirstFailsFirst(due: seq<Kind>, script: Script, writes: seq<Writing>, base: nat, n: nat)
    requires due != [] && !Stands(due, script, writes, base, 0) && FailsAt(due, script, writes, base, n)
    ensures n == 0
  {
  }

  /** A pass whose first due stage does not stand. */
  lemma {:induction false} ReachedNow(m: Machine, after: Machine, failure: Option<Failure>, due: seq<Kind>,
          script: Script, writes: seq<Writing>, base: nat)
    requires due != [] && !Stands(due, script, writes, base, 0)
    requires Stopped(m, after, failure, due, script, writes, base, 0)
    ensures Reached(m, after, failure, due, script, writes, base)
  {
    forall n: nat | FailsAt(due, script, writes, base, n) ensures n == 0 {
      FirstFailsFirst(due, script, writes, base, n);
    }
  }

  lemma {:induction false} FailsNow(m: Machine, plan: seq<Step>, script: Script, due: seq<Kind>,
          writes: seq<Writing>, base: nat)
    requires due != [] && Going(m, writes, base) && due[0] !in m.applied
    requires PlanStep(plan, due[0]).Some? && !PlanStep(plan, due[0]).value.noOp
    ensures var (m1, failure) := ApplyStage(m, plan, script, due[0]);
            && (failure.None? <==> Stands(due, script, writes, base, 0))
            && (failure.Some? ==> Stopped(m, m1, failure, due, script, writes, base, 0))
            && (failure.None? ==> m1.applied.Keys == m.applied.Keys + {due[0]} && Going(m1, writes, base + 1))
  {
    DueStage(m, plan, script, due[0], writes, base);
    assert Kinds(due[..0]) == {};
    assert due[..1] == [due[0]];
    assert Kinds(due[..1]) == {due[0]};
  }

  lemma {:induction false} StagesUnroll(m: Machine, plan: seq<Step>, script: Script, kinds: seq<Kind>)
    requires kinds != []
    ensures var step := PlanStep(plan, kinds[0]);
            var (m1, failure) := ApplyStage(m, plan, script, kinds[0]);
            && ApplyStages(m, plan, script, kinds) ==
               (if failure.Some? then (m1, failure) else ApplyStages(m1, plan, script, kinds[1..]))
            && (if step.None? || step.value.noOp then
                  (m1, failure) == (m, None) && DueStages(kinds, plan) == DueStages(kinds[1..], plan)
                else DueStages(kinds, plan) == [kinds[0]] + DueStages(kinds[1..], plan))
  {
  }

  lemma {:induction false} ForwardReachesEnd(m: Machine, plan: seq<Step>, script: Script, kinds: seq<Kind>,
          writes: seq<Writing>, base: nat)
    requires Going(m, writes, base) && Distinct(kinds) && forall kind :: kind in kinds ==> kind !in m.applied
    ensures var (after, failure) := ApplyStages(m, plan, script, kinds);
            Reached(m, after, failure, DueStages(kinds, plan), script, writes, base)
    decreases |kinds|
  {
    if kinds == [] {
      assert Kinds([]) == {};
    } else {
      TailDistinct(kinds);
      StagesUnroll(m, plan, script, kinds);
      var step := PlanStep(plan, kinds[0]);
      var (m1, failure) := ApplyStage(m, plan, script, kinds[0]);
      if step.None? || step.value.noOp {
        ForwardReachesEnd(m, plan, script, kinds[1..], writes, base);
      } else {
        var rest := DueStages(kinds[1..], plan);
        FailsNow(m, plan, script, [kinds[0]] + rest, writes, base);
        if failure.None? {
          ForwardReachesEnd(m1, plan, script, kinds[1..], writes, base + 1);
          var (after, ending) := ApplyStages(m1, plan, script, kinds[1..]);
          ReachedCons(m, m1, after, ending, kinds[0], rest, script, writes, base);
        } else {
          ReachedNow(m, m1, failure, [kinds[0]] + rest, script, writes, base);
        }
      }
    }
  }

  // ----------------------------------------------------------------- the rollback

  /** Every undo of these stages and its journal write, from number `base` on, go
    * well. */
  predicate UndoesIn(kinds: seq<Kind>, script: Script, writes: seq<Writing>, base: nat) {
    forall i :: 0 <= i < |kinds| ==> UndoesAt(kinds, script, writes, base, i)
  }

  lemma {:induction false} UndoesCons(kinds: seq<Kind>, script: Script, writes: seq<Writing>, base: nat, later: nat)
    requires kinds != [] && later == base + 1
    ensures UndoesIn(kinds, script, writes, base) <==>
            UndoesAt(kinds, script, writes, base, 0) && UndoesIn(kinds[1..], script, writes, later)
  {
    var rest := kinds[1..];
    if UndoesIn(kinds, script, writes, base) {
      forall i | 0 <= i < |rest| ensures UndoesAt(rest, script, writes, later, i) {
        assert UndoesAt(kinds, script, writes, base, i + 1);
      }
    }
    if UndoesAt(kinds, script, writes, base, 0) && UndoesIn(rest, script, writes, later) {
      forall i | 0 <= i < |kinds| ensures UndoesAt(kinds, script, writes, base, i) {
        if i > 0 { assert UndoesAt(rest, script, writes, later, i - 1); }
      }
    }
  }

  lemma {:induction false} UndoStageGoes(m: Machine, plan: seq<Step>, script: Script, kind: Kind,
          writes: seq<Writing>, base: nat)
    requires Going(m, writes, base) && PlanStep(plan, kind).Some? && kind in m.applied
    ensures var (m1, ok) := UndoStage(m, plan, script, kind);
            && (ok <==> (kind in script.undo ==> script.undo[kind].Restores?) && Writes(writes, base))
            && Going(m1, writes, base + 1)
            && (ok ==> m1.report.rollbackFailures == m.report.rollbackFailures)
  {
  }

  lemma {:induction false} UndoStagesGo(m: Machine, plan: seq<Step>, script: Script, kinds: seq<Kind>,
          writes: seq<Writing>, base: nat)
    requires Going(m, writes, base)
    requires forall kind :: kind in kinds ==> PlanStep(plan, kind).Some? && kind in m.applied
    ensures var (after, ok) := UndoStages(m, plan, script, kinds);
            && (ok <==> UndoesIn(kinds, script, writes, base))
            && (ok ==> after.report.rollbackFailures == m.report.rollbackFailures)
    decreases |kinds|
  {
    if kinds != [] {
      UndoStageGoes(m, plan, script, kinds[0], writes, base);
      UndoesCons(kinds, script, writes, base, base + 1);
      UndoStagesGo(UndoStage(m, plan, script, kinds[0]).0, plan, script, kinds[1..], writes, base + 1);
    }
  }

  lemma {:induction false} DistinctSize(kinds: seq<Kind>)
    requires Distinct(kinds)
    ensures |Kinds(kinds)| == |kinds|
  {
    if kinds == [] {
      assert Kinds(kinds) == {};
    } else {
      TailDistinct(kinds);
      DistinctSize(kinds[1..]);
      assert kinds == [kinds[0]] + kinds[1..];
      KindsCons(kinds[0], kinds[1..], 0);
    }
  }

  /** Without a restart there are as many undos as applied stages. */
  lemma {:induction false} AsManyUndos(applied: set<Kind>, made: seq<Kind>)
    requires Distinct(made) && applied == Kinds(made)
    requires forall kind :: kind in made ==> kind in UndoOrder
    ensures |RollbackOrder(applied)| == |made| && Kinds(RollbackOrder(applied)) == applied
  {
    RollbackOrderDistinct(applied);
    assert Kinds(RollbackOrder(applied)) == applied;
    DistinctSize(RollbackOrder(applied));
    DistinctSize(made);
  }

  /** The order of the undos does not matter to whether all go well. */
  lemma {:induction false} SameUndoes(order: seq<Kind>, due: seq<Kind>, script: Script, writes: seq<Writing>,
          count: nat)
    requires count <= |due| && |order| == count && Kinds(order) == Kinds(due[..count])
    requires forall i :: 0 <= i < count ==> !due[i].CameraRestart?
    ensures UndoesIn(order, script, writes, 1 + count) <==> UndoesAll(due, script, writes, count)
  {
    var base := 1 + count;
    if UndoesIn(order, script, writes, base) {
      forall i | 0 <= i < count ensures UndoesAt(due, script, writes, base, i) {
        assert UndoesAt(order, script, writes, base, i);
        assert due[..count][i] in Kinds(due[..count]);
        var j :| 0 <= j < |order| && order[j] == due[i];
        assert UndoesAt(order, script, writes, base, j);
      }
    }
    if UndoesAll(due, script, writes, count) {
      forall i | 0 <= i < |order| ensures UndoesAt(order, script, writes, base, i) {
        assert order[i] in Kinds(order);
        var j :| 0 <= j < count && due[..count][j] == order[i];
        assert UndoesAt(due, script, writes, base, i) && UndoesAt(due, script, writes, base, j) && due[j] == order[i];
      }
    }
  }

  // ----------------------------------------------------------------- the whole run

  /** The end of a run that turned back with these stages applied. */
  lemma {:induction false} TurnedBack(m: Machine, plan: seq<Step>, script: Script, failure: Failure,
          due: seq<Kind>, writes: seq<Writing>, count: nat)
    requires Grounded(m, plan) && count <= |due| && Distinct(due)
    requires forall kind :: kind in due ==> kind in ApplyOrder
    requires m.applied.Keys == Kinds(due[..count]) && Going(m, writes, 1 + count) && m.report.rollbackFailures == []
    ensures var (after, result) := Recover(m, plan, script, failure);
            if !failure.partial && UndoesAll(due, script, writes, count) && script.removal.Removed? then
              after.report.outcome.Reverted? && result == Failing(false) && after.disk.None?
            else
              after.report.outcome.Partial? && result == Failing(true)
  {
    var m1 := Marked(m, failure.sequence, Failed);
    RollbackGoes(m1, plan, script, due, writes, count);
    RollbackLogs(m1, plan, script);
  }

  /** The rollback of a run with these stages applied. */
  lemma {:induction false} RollbackGoes(m: Machine, plan: seq<Step>, script: Script, due: seq<Kind>,
          writes: seq<Writing>, count: nat)
    requires Grounded(m, plan) && count <= |due| && Distinct(due)
    requires forall kind :: kind in due ==> kind in ApplyOrder
    requires m.applied.Keys == Kinds(due[..count]) && Going(m, writes, 1 + count) && m.report.rollbackFailures == []
    ensures var (after, ok) := Rollback(m, plan, script);
            && (ok ==> after.report.rollbackFailures == [])
            && (CameraRestart !in m.applied ==> (ok <==> UndoesAll(due, script, writes, count)))
            && (CameraRestart in m.applied ==> !UndoesAll(due, script, writes, count))
  {
    var m1 := m.(report := m.report.(rollbackAttempted := true));
    var order := RollbackOrder(m.applied.Keys);
    UndoStagesGo(m1, plan, script, order, writes, 1 + count);
    if CameraRestart in m.applied {
      var i :| 0 <= i < count && due[..count][i] == CameraRestart;
      assert due[i].CameraRestart?;
    } else {
      UndoableStages(due, count);
      AsManyUndos(m.applied.Keys, due[..count]);
      SameUndoes(order, due, script, writes, count);
    }
  }

  lemma {:induction false} UndoableStages(due: seq<Kind>, count: nat)
    requires count <= |due| && Distinct(due) && (forall kind :: kind in due ==> kind in ApplyOrder)
    requires CameraRestart !in Kinds(due[..count])
    ensures Distinct(due[..count]) && (forall kind :: kind in due[..count] ==> kind in UndoOrder)
    ensures forall i :: 0 <= i < count ==> !due[i].CameraRestart?
  {
    RollbackOrderDistinct({});
    forall i | 0 <= i < count ensures !due[i].CameraRestart? { assert due[..count][i] in Kinds(due[..count]); }
    forall kind | kind in due[..count] ensures kind in UndoOrder {
      assert kind in due;
      assert kind in ApplyOrder;
    }
  }

  lemma {:induction false} SomeStageFails(due: seq<Kind>, script: Script, writes: seq<Writing>, base: nat, from: nat)
    requires from <= |due| && (forall i :: 0 <= i < from ==> Stands(due, script, writes, base, i))
    requires !AllStand(due, script, writes, base)
    ensures exists n: nat :: FailsAt(due, script, writes, base, n)
    decreases |due| - from
  {
    if from < |due| {
      if Stands(due, script, writes, base, from) {
        SomeStageFails(due, script, writes, base, from + 1);
      } else {
        assert FailsAt(due, script, writes, base, from);
      }
    }
  }

  lemma {:induction false} Opened(device: State, plan: seq<Step>, writes: seq<Writing>)
    requires Writes(writes, 0)
    ensures var (m, ok) := WriteJournal(Started(device, plan, writes));
            ok && Going(m, writes, 1) && m.applied == map[]
  {
  }

  lemma {:induction false} DueOfPlan(plan: seq<Step>)
    ensures var due := DueStages(ApplyOrder, plan); Distinct(due) && forall kind :: kind in due ==> kind in ApplyOrder
  {
    assert Distinct(ApplyOrder);
  }

  /** The forward pass of a whole run. */
  lemma {:induction false} ForwardOf(device: State, plan: seq<Step>, script: Script, writes: seq<Writing>)
    requires Writes(writes, 0)
    ensures var (m1, failure) := Forward(device, plan, script, writes);
            var start := WriteJournal(Started(device, plan, writes)).0;
            && m1.report.rollbackFailures == [] && Grounded(m1, plan)
            && Reached(start, m1, failure, DueStages(ApplyOrder, plan), script, writes, 1)
  {
    Opened(device, plan, writes);
    ForwardLogs(device, plan, script, writes);
    ForwardReports(device, plan, script, writes);
    assert Distinct(ApplyOrder);
    ForwardReachesEnd(WriteJournal(Started(device, plan, writes)).0, plan, script, ApplyOrder, writes, 1);
  }

  /** A run that fails at stage `n` ends rolled back, with the ordinary error and
    * without a journal, or partial. */
  predicate EndsAt(m: Machine, result: Result, due: seq<Kind>, script: Script, writes: seq<Writing>, n: nat)
    requires n < |due|
  {
    if RollsBack(due, script, writes, n) then
      m.report.outcome.Reverted? && result == Failing(false) && m.disk.None?
    else m.report.outcome.Partial? && result == Failing(true)
  }

  /** A run all of whose stages stand completes, or its journal stays. */
  predicate EndsDone(m: Machine, result: Result, script: Script) {
    if script.removal.Removed? then m.report.outcome.Completed? && result.Succeeded? && m.disk.None?
    else m.report.outcome.Partial? && result == Failing(true)
  }

  lemma {:induction false} FailedRun(device: State, plan: seq<Step>, script: Script, writes: seq<Writing>, n: nat)
    requires Complete(device) && Writes(writes, 0) && exists s :: s in plan && !s.noOp
    requires FailsAt(DueStages(ApplyOrder, plan), script, writes, 1, n)
    ensures var (m, result) := Run(device, None, plan, script, writes);
            EndsAt(m, result, DueStages(ApplyOrder, plan), script, writes, n)
  {
    var due := DueStages(ApplyOrder, plan);
    FailedForward(device, plan, script, writes, n);
    var (m1, failure) := Forward(device, plan, script, writes);
    TurnedBack(m1, plan, script, failure.value, due, writes, Applied(due, script, n));
    RunTurnsBack(device, plan, script, writes);
  }

  lemma {:induction false} RunTurnsBack(device: State, plan: seq<Step>, script: Script, writes: seq<Writing>)
    requires WriteJournal(Started(device, plan, writes)).1 && exists s :: s in plan && !s.noOp
    requires var (m1, failure) := Forward(device, plan, script, writes); failure.Some? && Grounded(m1, plan)
    ensures var (m1, failure) := Forward(device, plan, script, writes);
            Run(device, None, plan, script, writes) == Recover(m1, plan, script, failure.value)
  {
  }

  lemma {:induction false} FailedForward(device: State, plan: seq<Step>, script: Script, writes: seq<Writing>, n: nat)
    requires Complete(device) && Writes(writes, 0) && FailsAt(DueStages(ApplyOrder, plan), script, writes, 1, n)
    ensures var (m1, failure) := Forward(device, plan, script, writes);
            var due := DueStages(ApplyOrder, plan);
            var count := Applied(due, script, n);
            && WriteJournal(Started(device, plan, writes)).1
            && failure.Some? && failure.value.kind == due[n]
            && Grounded(m1, plan) && m1.report.rollbackFailures == []
            && (failure.value.partial <==>
                BreaksAt(due, script, n) && (script.forward[due[n]].partial || due[n].CameraRestart?))
            && m1.applied.Keys == Kinds(due[..count]) && Going(m1, writes, 1 + count)
            && Distinct(due) && forall kind :: kind in due ==> kind in ApplyOrder
  {
    var due := DueStages(ApplyOrder, plan);
    Opened(device, plan, writes);
    DueOfPlan(plan);
    ForwardOf(device, plan, script, writes);
    var (m1, failure) := Forward(device, plan, script, writes);
    assert Stopped(WriteJournal(Started(device, plan, writes)).0, m1, failure, due, script, writes, 1, n);
    EmptyStart(device, plan, writes, due, Applied(due, script, n));
  }

  lemma {:induction false} EmptyStart(device: State, plan: seq<Step>, writes: seq<Writing>, due: seq<Kind>, count: nat)
    requires count <= |due|
    ensures WriteJournal(Started(device, plan, writes)).0.applied.Keys + Kinds(due[..count]) == Kinds(due[..count])
  {
  }

  lemma {:induction false} DoneRun(device: State, plan: seq<Step>, script: Script, writes: seq<Writing>)
    requires Complete(device) && Writes(writes, 0) && exists s :: s in plan && !s.noOp
    requires AllStand(DueStages(ApplyOrder, plan), script, writes, 1)
    ensures var (m, result) := Run(device, None, plan, script, writes); EndsDone(m, result, script)
  {
    Opened(device, plan, writes);
    ForwardOf(device, plan, script, writes);
    var m1 := Forward(device, plan, script, writes).0;
    assert Run(device, None, plan, script, writes) == Finish(m1, script, Completed, Succeeded);
  }

  /** A run that finds a recovery journal is refused: it applies nothing, writes
    * nothing and leaves the journal as it found it. */
  lemma {:induction false} RefusedOverJournal(device: State, journal: Report, plan: seq<Step>, script: Script,
          writes: seq<Writing>)
    ensures var (m, result) := Run(device, Some(journal), plan, script, writes);
            && result.Refused? && m.device == device && m.disk == Some(journal) && m.log == [] && m.applied == map[]
            && m.writes == writes
  {
  }

  /** And no run without one is refused. */
  lemma {:induction false} NotRefused(device: State, plan: seq<Step>, script: Script, writes: seq<Writing>)
    ensures !Run(device, None, plan, script, writes).1.Refused?
  {
    ForwardLogs(device, plan, script, writes);
  }

  /** How every run ends.  With nothing to do it completes at once; when the opening
    * journal write fails it gives up with nothing applied.  Otherwise it completes
    * when every due stage stands, and its journal goes; and when stage `n` is the
    * first that does not, it ends rolled back, with the ordinary error and without
    * a journal, exactly when that stage failed with an ordinary error or only its
    * journal write did, no restart took effect, every applied stage can be undone,
    * every journal write of the rollback succeeds and the journal goes.  In all
    * other cases it ends partial. */
  lemma {:induction false} RunOutcome(device: State, plan: seq<Step>, script: Script, writes: seq<Writing>)
    requires Complete(device)
    ensures var (m, result) := Run(device, None, plan, script, writes);
            var due := DueStages(ApplyOrder, plan);
            if forall s :: s in plan ==> s.noOp then
              m.report.outcome.Completed? && result.Succeeded? && m.disk.None? && m.device == device
            else if !Writes(writes, 0) then
              m.report.outcome.InProgress? && result == Failing(false) && m.device == device
            else
              && (AllStand(due, script, writes, 1) ==> EndsDone(m, result, script))
              && (!AllStand(due, script, writes, 1) ==> exists n: nat :: FailsAt(due, script, writes, 1, n))
              && (forall n: nat :: FailsAt(due, script, writes, 1, n) ==> EndsAt(m, result, due, script, writes, n))
  {
    if !(forall s :: s in plan ==> s.noOp) {
      var due := DueStages(ApplyOrder, plan);
      if Writes(writes, 0) {
        if AllStand(due, script, writes, 1) {
          DoneRun(device, plan, script, writes);
        } else {
          SomeStageFails(due, script, writes, 1, 0);
        }
        forall n: nat | FailsAt(due, script, writes, 1, n)
          ensures var (m, result) := Run(device, None, plan, script, writes); EndsAt(m, result, due, script, writes, n)
        {
          FailedRun(device, plan, script, writes, n);
        }
      } else {
        assert !WriteJournal(Started(device, plan, writes)).1;
      }
    }
  }
}
