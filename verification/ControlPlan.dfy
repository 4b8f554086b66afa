/** Planning: which automatic parents must be made manual before the requested
  * controls are written, and the two entry points that plan and then transact. */
module ControlPlan {
  import opened Wrappers
  import opened ControlModel
  import opened ControlSafety
  import opened ControlOrder

  /** A request after its selector and value were parsed, as far as they could be. */
  datatype Request = Request(id: Id, value: Option<int>)

  /** Adds the prerequisites of one control that no earlier one added. */
  function PlanDependencies(d: Device, dependencies: seq<Dependency>, seen: seq<Id>,
          prepared: seq<PreparedWrite>): (r: (Device, seq<Id>, seq<PreparedWrite>))
    requires d.Valid()
    decreases |dependencies|
  {
    if dependencies == [] then (d, seen, prepared)
    else
      var parent := dependencies[0].parent;
      if parent in seen then PlanDependencies(d, dependencies[1..], seen, prepared)
      else
        var (d1, status) := Query(d, Forward, parent);
        if status.None? then PlanDependencies(d1, dependencies[1..], seen, prepared)
        else
          var write := PreparedWrite(status.value.descriptor, dependencies[0].manual, true);
          PlanDependencies(d1, dependencies[1..], seen + [parent],
                           if status.value.current == Some(dependencies[0].manual) then prepared
                           else prepared + [write])
  }

  function PlanFrom(d: Device, requests: seq<Request>, raw: bool, seen: seq<Id>,
          prepared: seq<PreparedWrite>): (Device, Option<seq<PreparedWrite>>)
    requires d.Valid()
    decreases |requests|
  {
    if requests == [] then (d, Some(prepared))
    else
      var (d1, status) := Query(d, Forward, requests[0].id);
      if status.None? then (d1, None)
      else
        var descriptor := status.value.descriptor;
        var (d2, seen2, prepared2) :=
            PlanDependencies(d1, if raw then [] else ManualDependencies(requests[0].id), seen, prepared);
        PlanDependenciesFrame(d1, if raw then [] else ManualDependencies(requests[0].id), seen, prepared);
        if requests[0].value.None? || !descriptor.Accepts(requests[0].value.value) then (d2, None)
        else PlanFrom(d2, requests[1..], raw, seen2,
            prepared2 + [PreparedWrite(descriptor, requests[0].value.value, false)])
  }

  /** The command-line entry point: plan with one reading node, then transact
    * with another. */
  function ExecuteRequests(d: Device, requests: seq<Request>, raw: bool, fallback: bool, batched: bool,
          dryRun: bool): (Device, Outcome)
    requires d.Valid()
  {
    var (d1, isOpen) := OpenNode(d);
    if !isOpen then (d1, OpenFailed)
    else
      var (d2, planned) := PlanFrom(d1, requests, raw, [], []);
      PlanFrame(d1, requests, raw, [], []);
      if planned.None? then (d2, Rejected) else ExecutePrepared(d2, planned.value, fallback, batched, dryRun)
  }

  /** The daemon's entry point: one reading node for planning and snapshot. */
  function ApplyStandardControls(d: Device, requests: seq<Request>, raw: bool, fallback: bool, batched: bool,
          dryRun: bool): (Device, Outcome)
    requires d.Valid()
  {
    if requests == [] then (d, NothingPrepared)
    else
      var (d1, isOpen) := OpenNode(d);
      if !isOpen then (d1, OpenFailed)
      else
        var (d2, planned) := PlanFrom(d1, requests, raw, [], []);
        PlanFrame(d1, requests, raw, [], []);
        if planned.None? then (d2, Rejected)
        else Transact(d2, planned.value, fallback, batched, dryRun, batched || |Requested(planned.value)| > 1)
  }

  lemma {:induction false} PartsAppend(a: seq<PreparedWrite>, w: PreparedWrite)
    ensures Prerequisites(a + [w]) == if w.prerequisite then Prerequisites(a) + [w] else Prerequisites(a)
    ensures Requested(a + [w]) == if w.prerequisite then Requested(a) else Requested(a) + [w]
  {
    if a == [] {
      assert a + [w] == [w] && [w][1..] == [];
    } else {
      assert (a + [w])[1..] == a[1..] + [w];
      PartsAppend(a[1..], w);
    }
  }

  lemma {:induction false} PlanDependenciesFrame(d: Device, dependencies: seq<Dependency>, seen: seq<Id>,
          prepared: seq<PreparedWrite>)
    requires d.Valid()
    ensures var (d1, seen1, prepared1) := PlanDependencies(d, dependencies, seen, prepared);
            && SameStore(d, d1) && d1.undo == d.undo && d1.opens == d.opens && d1.log == d.log
            && Requested(prepared1) == Requested(prepared)
            && (Quiet(d.forward) ==> Quiet(d1.forward))
    decreases |dependencies|
  {
    if dependencies != [] {
      var parent := dependencies[0].parent;
      var (d1, status) := Query(d, Forward, parent);
      if parent in seen {
        PlanDependenciesFrame(d, dependencies[1..], seen, prepared);
      } else if status.None? {
        PlanDependenciesFrame(d1, dependencies[1..], seen, prepared);
      } else {
        var write := PreparedWrite(status.value.descriptor, dependencies[0].manual, true);
        PartsAppend(prepared, write);
        PlanDependenciesFrame(d1, dependencies[1..], seen + [parent],
                              if status.value.current == Some(dependencies[0].manual) then prepared
                              else prepared + [write]);
      }
    }
  }

  /** Planning writes nothing. */
  lemma {:induction false} PlanReads(d: Device, requests: seq<Request>, raw: bool, seen: seq<Id>,
          prepared: seq<PreparedWrite>)
    requires d.Valid()
    ensures var d1 := PlanFrom(d, requests, raw, seen, prepared).0;
            SameStore(d, d1) && d1.undo == d.undo && d1.opens == d.opens && d1.log == d.log
    decreases |requests|
  {
    if requests != [] {
      var (d1, status) := Query(d, Forward, requests[0].id);
      if status.Some? {
        var dependencies := if raw then [] else ManualDependencies(requests[0].id);
        PlanDependenciesFrame(d1, dependencies, seen, prepared);
        var (d2, seen2, prepared2) := PlanDependencies(d1, dependencies, seen, prepared);
        if requests[0].value.Some? {
          PlanReads(d2, requests[1..], raw, seen2,
              prepared2 + [PreparedWrite(status.value.descriptor, requests[0].value.value, false)]);
        }
      }
    }
  }

  /** Every request becomes exactly one requested write, in order, with a value its
    * control accepts. */
  lemma {:induction false} PlanRequests(d: Device, requests: seq<Request>, raw: bool, seen: seq<Id>,
          prepared: seq<PreparedWrite>)
    requires d.Valid()
    ensures var planned := PlanFrom(d, requests, raw, seen, prepared).1;
            planned.Some? ==> Requested(planned.value) == Requested(prepared) + RequestedWrites(d, requests)
    decreases |requests|
  {
    if requests != [] {
      var (d1, status) := Query(d, Forward, requests[0].id);
      if status.Some? {
        var dependencies := if raw then [] else ManualDependencies(requests[0].id);
        PlanDependenciesFrame(d1, dependencies, seen, prepared);
        var (d2, seen2, prepared2) := PlanDependencies(d1, dependencies, seen, prepared);
        var descriptor := status.value.descriptor;
        if requests[0].value.Some? && descriptor.Accepts(requests[0].value.value) {
          var write := PreparedWrite(descriptor, requests[0].value.value, false);
          PartsAppend(prepared2, write);
          PlanRequests(d2, requests[1..], raw, seen2, prepared2 + [write]);
          SameRequestedWrites(d, d2, requests[1..]);
          assert RequestedWrites(d, requests) == [write] + RequestedWrites(d, requests[1..]);
        }
      }
    }
  }

  lemma {:induction false} PlanFrame(d: Device, requests: seq<Request>, raw: bool, seen: seq<Id>,
          prepared: seq<PreparedWrite>)
    requires d.Valid()
    ensures var (d1, planned) := PlanFrom(d, requests, raw, seen, prepared);
            && SameStore(d, d1) && d1.undo == d.undo && d1.opens == d.opens && d1.log == d.log
            && (planned.Some? ==> Requested(planned.value) == Requested(prepared) + RequestedWrites(d, requests))
  {
    PlanReads(d, requests, raw, seen, prepared);
    PlanRequests(d, requests, raw, seen, prepared);
  }

  /** The writes that `requests` ask for, as far as they name known controls. */
  function RequestedWrites(d: Device, requests: seq<Request>): seq<PreparedWrite> {
    if requests == [] then []
    else if requests[0].id in d.info && requests[0].value.Some?
    then [PreparedWrite(d.info[requests[0].id], requests[0].value.value, false)] + RequestedWrites(d, requests[1..])
    else RequestedWrites(d, requests[1..])
  }

  lemma {:induction false} SameRequestedWrites(d: Device, e: Device, requests: seq<Request>)
    requires d.info == e.info
    ensures RequestedWrites(d, requests) == RequestedWrites(e, requests)
  {
    if requests != [] { SameRequestedWrites(d, e, requests[1..]); }
  }

  // --------------------------------------------------------- gates after planning

  function ManualValue(parent: Id): int {
    if parent == EXPOSURE_AUTO then EXPOSURE_MANUAL else 0
  }

  /** One parent never has to hold two manual values, and no parent is itself
    * a dependent: making a parent manual never needs another one first. */
  lemma {:induction false} DependenciesAreFlat(id: Id, k: nat)
    requires k < |ManualDependencies(id)|
    ensures var dependency := ManualDependencies(id)[k];
            && dependency.manual == ManualValue(dependency.parent)
            && dependency.parent != id
            && ManualDependencies(dependency.parent) == []
  {
    assert ManualDependencies(id)[k] in ManualDependencies(id);
  }

  /** Every parent seen so far is manual once the planned prerequisites are written. */
  predicate Prepares(values: map<Id, int>, seen: seq<Id>, prepared: seq<PreparedWrite>) {
    && (forall w :: w in Prerequisites(prepared) ==> w.descriptor.id in seen)
    && (forall p :: p in seen ==>
        p in Written(values, Prerequisites(prepared)) && Written(values, Prerequisites(prepared))[p] == ManualValue(p))
  }

  lemma {:induction false} WrittenOutside(values: map<Id, int>, writes: seq<PreparedWrite>, id: Id)
    requires id in values && forall w :: w in writes ==> w.descriptor.id != id
    ensures id in Written(values, writes) && Written(values, writes)[id] == values[id]
    decreases |writes|
  {
    if writes != [] { WrittenOutside(values[writes[0].descriptor.id := writes[0].value], writes[1..], id); }
  }

  lemma {:induction false} WrittenKeys(values: map<Id, int>, writes: seq<PreparedWrite>)
    ensures Written(values, writes).Keys == values.Keys + Ids(writes)
    decreases |writes|
  {
    if writes != [] {
      WrittenKeys(values[writes[0].descriptor.id := writes[0].value], writes[1..]);
      assert Ids(writes) == {writes[0].descriptor.id} + Ids(writes[1..]) by {
        forall w | w in writes ensures w.descriptor.id in {writes[0].descriptor.id} + Ids(writes[1..]) {
          if w != writes[0] { assert w in writes[1..]; }
        }
        assert writes[0] in writes;
      }
    }
  }

  lemma {:induction false} PlanDependenciesPrepares(d: Device, dependencies: seq<Dependency>, seen: seq<Id>,
          prepared: seq<PreparedWrite>)
    requires d.Valid() && Quiet(d.forward)
    requires Prepares(d.values, seen, prepared)
    requires forall k :: 0 <= k < |dependencies| ==> dependencies[k].manual == ManualValue(dependencies[k].parent)
    ensures var (d1, seen1, prepared1) := PlanDependencies(d, dependencies, seen, prepared);
            && Prepares(d.values, seen1, prepared1)
            && (forall p :: p in seen ==> p in seen1)
            && (forall k :: 0 <= k < |dependencies| && dependencies[k].parent in d.values ==>
                dependencies[k].parent in seen1)
    decreases |dependencies|
  {
    if dependencies != [] {
      var parent := dependencies[0].parent;
      if d.forward != [] { assert d.forward[0] in d.forward; }
      var (d1, status) := Query(d, Forward, parent);
      if parent in seen {
        PlanDependenciesPrepares(d, dependencies[1..], seen, prepared);
      } else if status.None? {
        PlanDependenciesPrepares(d1, dependencies[1..], seen, prepared);
      } else {
        var write := PreparedWrite(status.value.descriptor, dependencies[0].manual, true);
        PartsAppend(prepared, write);
        var next := if status.value.current == Some(dependencies[0].manual) then prepared else prepared + [write];
        WrittenOutside(d.values, Prerequisites(prepared), parent);
        WrittenAppend(d.values, Prerequisites(prepared), [write]);
        assert [write][1..] == [];
        assert Written(Written(d.values, Prerequisites(prepared)), [write]) ==
            Written(d.values, Prerequisites(prepared))[parent := write.value];
        PlanDependenciesPrepares(d1, dependencies[1..], seen + [parent], next);
      }
      forall k | 0 <= k < |dependencies| && dependencies[k].parent in d.values
        ensures dependencies[k].parent in PlanDependencies(d, dependencies, seen, prepared).1
      {
        if k > 0 { assert dependencies[1..][k - 1] == dependencies[k]; }
      }
    }
  }

  lemma {:induction false} OpenLater(d2: Device, after: Device, requests: seq<Request>, prepared: seq<PreparedWrite>)
    requires requests != [] && after.Open(requests[0].id)
    requires after.gated == d2.gated && after.values == Written(d2.values, Prerequisites(prepared))
    requires forall i :: 0 <= i < |requests| - 1 ==>
             d2.(values := Written(d2.values, Prerequisites(prepared))).Open(requests[1..][i].id)
    ensures forall i :: 0 <= i < |requests| ==> after.Open(requests[i].id)
  {
    forall i | 0 < i < |requests| ensures after.Open(requests[i].id) {
      assert requests[1..][i - 1] == requests[i];
      assert d2.(values := Written(d2.values, Prerequisites(prepared))).Open(requests[1..][i - 1].id);
    }
  }

  /** Planning opens every gate: once exactly the planned prerequisites are
    * written, each requested control can be written, whatever was automatic. */
  lemma {:induction false} PlanOpensGates(d: Device, requests: seq<Request>, seen: seq<Id>,
          prepared: seq<PreparedWrite>)
    requires d.Valid() && Quiet(d.forward) && Prepares(d.values, seen, prepared)
    ensures var planned := PlanFrom(d, requests, false, seen, prepared).1;
            planned.Some? ==>
              && (exists seen1 :: Prepares(d.values, seen1, planned.value) && (forall p :: p in seen ==> p in seen1))
              && forall i :: 0 <= i < |requests| ==>
                   d.(values := Written(d.values, Prerequisites(planned.value))).Open(requests[i].id)
    decreases |requests|
  {
    if requests == [] {
      if PlanFrom(d, requests, false, seen, prepared).1.Some? {
        assert Prepares(d.values, seen, PlanFrom(d, requests, false, seen, prepared).1.value);
      }
    } else {
      var (d1, status) := Query(d, Forward, requests[0].id);
      if status.Some? && requests[0].value.Some? && status.value.descriptor.Accepts(requests[0].value.value) {
        var dependencies := ManualDependencies(requests[0].id);
        forall k | 0 <= k < |dependencies| ensures dependencies[k].manual == ManualValue(dependencies[k].parent) {
          DependenciesAreFlat(requests[0].id, k);
        }
        PlanDependenciesFrame(d1, dependencies, seen, prepared);
        PlanDependenciesPrepares(d1, dependencies, seen, prepared);
        var (d2, seen2, prepared2) := PlanDependencies(d1, dependencies, seen, prepared);
        var write := PreparedWrite(status.value.descriptor, requests[0].value.value, false);
        PartsAppend(prepared2, write);
        PlanOpensGates(d2, requests[1..], seen2, prepared2 + [write]);
        var planned := PlanFrom(d, requests, false, seen, prepared).1;
        if planned.Some? {
          var seen3 :| Prepares(d2.values, seen3, planned.value) && forall p :: p in seen2 ==> p in seen3;
          var after := d.(values := Written(d.values, Prerequisites(planned.value)));
          OpenOnceSeen(d, after, requests[0].id, seen3, planned.value);
          OpenLater(d2, after, requests, planned.value);
        }
      }
    }
  }

  lemma {:induction false} OpenOnceSeen(d: Device, after: Device, id: Id, seen: seq<Id>, prepared: seq<PreparedWrite>)
    requires Prepares(d.values, seen, prepared) && after.values == Written(d.values, Prerequisites(prepared))
    requires forall k :: 0 <= k < |ManualDependencies(id)| && ManualDependencies(id)[k].parent in d.values ==>
             ManualDependencies(id)[k].parent in seen
    ensures after.Open(id)
  {
    WrittenKeys(d.values, Prerequisites(prepared));
    forall k | 0 <= k < |ManualDependencies(id)| && ManualDependencies(id)[k].parent in after.values
      ensures after.values[ManualDependencies(id)[k].parent] == ManualDependencies(id)[k].manual
    {
      DependenciesAreFlat(id, k);
    }
  }

  // ------------------------------------------------------------- entry points

  /** Nothing changed, as far as this outcome claims so. */
  predicate Unchanged(start: Device, after: Device, outcome: Outcome) {
    && (outcome.Undone? && outcome.rollback.failed == [] && NoSkew(start.undo) ==> after.values == start.values)
    && (outcome.Rejected? || outcome.OpenFailed? || outcome.NothingPrepared? || outcome.Preview? ==>
        after.values == start.values)
  }

  lemma {:induction false} PreparedUnchanged(d: Device, prepared: seq<PreparedWrite>, fallback: bool, batched: bool,
          dryRun: bool)
    requires d.Valid() && (prepared != [] ==> Requested(prepared) != [])
    ensures var (after, outcome) := ExecutePrepared(d, prepared, fallback, batched, dryRun);
            Unchanged(d, after, outcome)
  {
    AllOrNothing(d, prepared, fallback, batched, dryRun);
  }

  /** From the request list on, an undone run that lists no failure left no trace. */
  lemma {:induction false} RequestsAllOrNothing(d: Device, requests: seq<Request>, raw: bool, fallback: bool,
          batched: bool, dryRun: bool)
    requires d.Valid()
    ensures var (after, outcome) := ExecuteRequests(d, requests, raw, fallback, batched, dryRun);
            Unchanged(d, after, outcome)
  {
    var (d1, isOpen) := OpenNode(d);
    if isOpen {
      PlanFrame(d1, requests, raw, [], []);
      var (d2, planned) := PlanFrom(d1, requests, raw, [], []);
      if planned.Some? {
        PreparedUnchanged(d2, planned.value, fallback, batched, dryRun);
        assert ExecuteRequests(d, requests, raw, fallback, batched, dryRun) ==
            ExecutePrepared(d2, planned.value, fallback, batched, dryRun);
      }
    }
  }

  predicate Answered(d: Device, requests: seq<Request>) {
    forall r :: r in requests ==>
      r.value.Some? && r.id in d.info && (d.info[r.id].readable ==> r.id in d.values && d.values[r.id] == r.value.value)
  }

  /** And applied means that every readable requested control holds its value. */
  lemma {:induction false} RequestsSucceedTruly(d: Device, requests: seq<Request>, raw: bool, fallback: bool,
          batched: bool, dryRun: bool)
    requires d.Valid()
    ensures var (after, outcome) := ExecuteRequests(d, requests, raw, fallback, batched, dryRun);
            outcome.Applied? ==> Answered(after, requests)
  {
    var (d1, isOpen) := OpenNode(d);
    if isOpen {
      PlanFrame(d1, requests, raw, [], []);
      var (d2, planned) := PlanFrom(d1, requests, raw, [], []);
      if planned.Some? {
        var prepared := planned.value;
        PlannedRequested(d1, requests, raw, [], []);
        RequestedWritesMembers(d1, requests);
        assert Requested(prepared) == RequestedWrites(d1, requests);
        PartsAreMembers(prepared);
        AllOrNothing(d2, prepared, fallback, batched, dryRun);
        SuccessIsTrue(d2, prepared, fallback, batched, dryRun);
        var (after, outcome) := ExecutePrepared(d2, prepared, fallback, batched, dryRun);
        assert after.info == d1.info;
        if outcome.Applied? {
          AnsweredByHolding(d1, after, requests, prepared);
        }
      }
    }
  }

  lemma {:induction false} AnsweredByHolding(d: Device, after: Device, requests: seq<Request>,
          prepared: seq<PreparedWrite>)
    requires Holds(after, prepared) && after.info == d.info
    requires forall r :: r in requests ==>
             r.id in d.info && r.value.Some? && PreparedWrite(d.info[r.id], r.value.value, false) in prepared
    requires d.Valid()
    ensures Answered(after, requests)
  {
    forall r | r in requests && d.info[r.id].readable
      ensures r.id in after.values && after.values[r.id] == r.value.value
    {
      var write := PreparedWrite(d.info[r.id], r.value.value, false);
      assert write in prepared && write.descriptor.id == r.id;
    }
  }

  lemma {:induction false} PlannedRequested(d: Device, requests: seq<Request>, raw: bool, seen: seq<Id>,
          prepared: seq<PreparedWrite>)
    requires d.Valid() && PlanFrom(d, requests, raw, seen, prepared).1.Some?
    ensures forall r :: r in requests ==> r.id in d.info && r.value.Some?
    decreases |requests|
  {
    if requests != [] {
      var (d1, status) := Query(d, Forward, requests[0].id);
      var dependencies := if raw then [] else ManualDependencies(requests[0].id);
      PlanDependenciesFrame(d1, dependencies, seen, prepared);
      var (d2, seen2, prepared2) := PlanDependencies(d1, dependencies, seen, prepared);
      PlannedRequested(d2, requests[1..], raw, seen2,
          prepared2 + [PreparedWrite(status.value.descriptor, requests[0].value.value, false)]);
    }
  }

  lemma {:induction false} RequestedWritesMembers(d: Device, requests: seq<Request>)
    requires d.Valid() && forall r :: r in requests ==> r.id in d.info && r.value.Some?
    ensures |RequestedWrites(d, requests)| == |requests|
    ensures forall r :: r in requests ==>
            PreparedWrite(d.info[r.id], r.value.value, false) in RequestedWrites(d, requests)
  {
    if requests != [] { RequestedWritesMembers(d, requests[1..]); }
  }

  lemma {:induction false} PlanIgnoresOpens(d: Device, requests: seq<Request>, raw: bool, seen: seq<Id>,
          prepared: seq<PreparedWrite>, opens: seq<bool>)
    requires d.Valid()
    ensures var (d1, planned) := PlanFrom(d, requests, raw, seen, prepared);
            PlanFrom(d.(opens := opens), requests, raw, seen, prepared) == (d1.(opens := opens), planned)
    decreases |requests|
  {
    if requests != [] {
      var (d1, status) := Query(d, Forward, requests[0].id);
      if status.Some? {
        var dependencies := if raw then [] else ManualDependencies(requests[0].id);
        PlanDependenciesIgnoresOpens(d1, dependencies, seen, prepared, opens);
        PlanDependenciesFrame(d1, dependencies, seen, prepared);
        var (d2, seen2, prepared2) := PlanDependencies(d1, dependencies, seen, prepared);
        if requests[0].value.Some? {
          PlanIgnoresOpens(d2, requests[1..], raw, seen2,
                           prepared2 + [PreparedWrite(status.value.descriptor, requests[0].value.value, false)], opens);
        }
      }
    }
  }

  lemma {:induction false} PlanDependenciesIgnoresOpens(d: Device, dependencies: seq<Dependency>, seen: seq<Id>,
          prepared: seq<PreparedWrite>, opens: seq<bool>)
    requires d.Valid()
    ensures var (d1, seen1, prepared1) := PlanDependencies(d, dependencies, seen, prepared);
            PlanDependencies(d.(opens := opens), dependencies, seen, prepared) ==
                (d1.(opens := opens), seen1, prepared1)
    decreases |dependencies|
  {
    if dependencies != [] {
      var parent := dependencies[0].parent;
      var (d1, status) := Query(d, Forward, parent);
      assert Query(d.(opens := opens), Forward, parent) == (d1.(opens := opens), status);
      if parent in seen {
        PlanDependenciesIgnoresOpens(d, dependencies[1..], seen, prepared, opens);
      } else if status.None? {
        PlanDependenciesIgnoresOpens(d1, dependencies[1..], seen, prepared, opens);
      } else {
        var write := PreparedWrite(status.value.descriptor, dependencies[0].manual, true);
        PlanDependenciesIgnoresOpens(d1, dependencies[1..], seen + [parent],
                                     if status.value.current == Some(dependencies[0].manual) then prepared
                                     else prepared + [write], opens);
      }
    }
  }

  /** The two copies agree.  The command line opens one reading node more than
    * the daemon; when that opening succeeds, both issue the same commands to the
    * driver, leave the same device and reach the same outcome, up to the
    * `batched` flag of a dry run. */
  lemma {:induction false} CopiesAgree(d: Device, requests: seq<Request>, raw: bool, fallback: bool, batched: bool,
          dryRun: bool)
    requires d.Valid() && requests != [] && (d.opens == [] || (|d.opens| > 1 && d.opens[1]))
    ensures var daemon := if d.opens == [] then d else d.(opens := [d.opens[0]] + d.opens[2..]);
            var (a, outcomeA) := ExecuteRequests(d, requests, raw, fallback, batched, dryRun);
            var (b, outcomeB) := ApplyStandardControls(daemon, requests, raw, fallback, batched, dryRun);
            && a.log == b.log && a.values == b.values && a.forward == b.forward && a.undo == b.undo
            && (if dryRun && outcomeA.Preview? then outcomeB.Preview? && outcomeB.changes == outcomeA.changes
                else outcomeA == outcomeB)
  {
    var daemon := if d.opens == [] then d else d.(opens := [d.opens[0]] + d.opens[2..]);
    var (d1, isOpen) := OpenNode(d);
    var (e1, isOpenToo) := OpenNode(daemon);
    assert isOpen == isOpenToo && e1 == d1.(opens := e1.opens);
    if isOpen {
      PlanIgnoresOpens(d1, requests, raw, [], [], e1.opens);
      PlanFrame(d1, requests, raw, [], []);
      var (d2, planned) := PlanFrom(d1, requests, raw, [], []);
      var e2 := PlanFrom(e1, requests, raw, [], []).0;
      if planned.Some? {
        PlannedRequested(d1, requests, raw, [], []);
        RequestedWritesMembers(d1, requests);
        assert Requested(planned.value) == RequestedWrites(d1, requests);
        PartsAreMembers(planned.value);
        assert OpenNode(d2) == (e2, true);
      }
    }
  }
}
