/** Progress: on a device without faults the request list is applied, gates and
  * all, exactly when the driver accepts the prerequisites that planning inserts. */
module ControlProgress {
  import opened Wrappers
  import opened ControlModel
  import opened ControlSafety
  import opened ControlOrder
  import opened ControlPlan
  import opened ControlRequests

  /** No written control is a parent of another one. */
  predicate Unrelated(writes: seq<PreparedWrite>) {
    forall v, w :: v in writes && w in writes ==> !IsParent(v.descriptor.id, w.descriptor.id)
  }

  predicate AllOpen(d: Device, writes: seq<PreparedWrite>) {
    forall w :: w in writes ==> w.descriptor.id in d.values && d.Open(w.descriptor.id)
  }

  predicate AllAccepted(writes: seq<PreparedWrite>) {
    forall w :: w in writes ==> w.descriptor.Accepts(w.value)
  }

  /** Writing an unrelated control closes no gate. */
  lemma {:induction false} StaysOpen(d: Device, d1: Device, writes: seq<PreparedWrite>, v: PreparedWrite)
    requires AllOpen(d, writes) && Unrelated(writes) && v in writes
    requires d1.gated == d.gated && d1.values == d.values[v.descriptor.id := v.value]
    ensures AllOpen(d1, writes)
  {
    forall w | w in writes ensures w.descriptor.id in d1.values && d1.Open(w.descriptor.id) {
      var id := w.descriptor.id;
      if d.gated {
        forall k | 0 <= k < |ManualDependencies(id)| && ManualDependencies(id)[k].parent in d1.values
          ensures d1.values[ManualDependencies(id)[k].parent] == ManualDependencies(id)[k].manual
        {
          assert ManualDependencies(id)[k].parent != v.descriptor.id by { assert !IsParent(v.descriptor.id, id); }
        }
      }
    }
  }

  lemma {:induction false} QuietSetAll(d: Device, writes: seq<PreparedWrite>)
    requires Quiet(d.forward) && AllOpen(d, writes) && Unrelated(writes)
    ensures var (d1, failed) := SetAll(d, writes);
            && (failed.None? <==> AllAccepted(writes))
            && (failed.None? ==> d1.values == Written(d.values, writes)) && Quiet(d1.forward)
            && d1.info == d.info && d1.gated == d.gated && d1.opens == d.opens
    decreases |writes|
  {
    if writes != [] {
      var w := writes[0];
      QuietTail(d.forward);
      var (d1, ok) := Set(d, Forward, w.descriptor, w.value);
      if ok {
        StaysOpen(d, d1, writes, w);
        QuietSetAll(d1, writes[1..]);
        assert forall v :: v in writes ==> v == w || v in writes[1..];
      }
    }
  }

  lemma {:induction false} QuietSnapshot(d: Device, prepared: seq<PreparedWrite>)
    requires d.Valid() && Quiet(d.forward)
    ensures Quiet(Snapshot(d, prepared).0.forward)
    decreases |prepared|
  {
    if prepared != [] {
      QuietTail(d.forward);
      QuietSnapshot(Get(d, Forward, prepared[0].descriptor.id).0, prepared[1..]);
    }
  }

  lemma {:induction false} QuietRequery(d: Device, requested: seq<PreparedWrite>)
    requires d.Valid() && Quiet(d.forward) && AllOpen(d, requested)
    ensures Requery(d, requested).1 && Quiet(Requery(d, requested).0.forward)
    decreases |requested|
  {
    if requested != [] {
      QuietTail(d.forward);
      QuietRequery(Query(d, Forward, requested[0].descriptor.id).0, requested[1..]);
    }
  }

  lemma {:induction false} QuietReadback(d: Device, prepared: seq<PreparedWrite>, previous: seq<Option<int>>)
    requires d.Valid() && |prepared| == |previous| && Quiet(d.forward) && Matching(d, prepared) && Holds(d, prepared)
    ensures AllVerified(Readback(d, prepared, previous).1)
    decreases |prepared|
  {
    if prepared != [] {
      QuietTail(d.forward);
      var d1 := Get(d, Forward, prepared[0].descriptor.id).0;
      QuietTail(d1.forward);
      var d2 := Query(d1, Forward, prepared[0].descriptor.id).0;
      assert prepared[0] in prepared;
      QuietReadback(d2, prepared[1..], previous[1..]);
    }
  }

  lemma {:induction false} WrittenHolds(values: map<Id, int>, writes: seq<PreparedWrite>, w: PreparedWrite)
    requires Distinct(writes) && w in writes
    ensures w.descriptor.id in Written(values, writes) && Written(values, writes)[w.descriptor.id] == w.value
    decreases |writes|
  {
    var next := values[writes[0].descriptor.id := writes[0].value];
    if w == writes[0] {
      WrittenOutside(next, writes[1..], w.descriptor.id);
    } else {
      WrittenHolds(next, writes[1..], w);
    }
  }

  predicate AllOpened(opens: seq<bool>) { forall o :: o in opens ==> o }

  lemma {:induction false} NodeOpens(d: Device)
    requires AllOpened(d.opens)
    ensures OpenNode(d).1 && AllOpened(OpenNode(d).0.opens)
  {
    if d.opens != [] {
      assert d.opens[0] in d.opens;
      assert forall o :: o in d.opens[1..] ==> o in d.opens;
    }
  }

  /** Verifying on a quiet device that holds every prepared value. */
  lemma {:induction false} QuietVerify(d: Device, prepared: seq<PreparedWrite>, previous: seq<Option<int>>,
          batched: bool, fallbackUsed: bool, index: Option<nat>)
    requires d.Valid() && |prepared| == |previous| && Quiet(d.forward) && Matching(d, prepared) && Holds(d, prepared)
    requires AllOpened(d.opens)
    ensures Verify(d, prepared, previous, batched, fallbackUsed, index).1.Applied?
  {
    NodeOpens(d);
    QuietReadback(OpenNode(d).0, prepared, previous);
  }

  /** The state in which the requested controls are submitted. */
  predicate Submittable(d: Device, prepared: seq<PreparedWrite>) {
    && d.Valid() && Quiet(d.forward) && AllOpened(d.opens) && Matching(d, prepared) && Distinct(InOrder(prepared))
    && AllOpen(d, Requested(prepared)) && Unrelated(Requested(prepared)) && AllAccepted(Requested(prepared))
  }

  lemma {:induction false} SubmittedHolds(start: map<Id, int>, d: Device, prepared: seq<PreparedWrite>)
    requires Submittable(d, prepared) && d.values == Written(start, Prerequisites(prepared))
    ensures var (d1, failed) := SetAll(d, Requested(prepared));
            failed.None? && Holds(d1, prepared) && Quiet(d1.forward) && d1.Valid() && d1.info == d.info
                && d1.opens == d.opens
  {
    QuietSetAll(d, Requested(prepared));
    SetAllFrame(d, Requested(prepared));
    WrittenAppend(start, Prerequisites(prepared), Requested(prepared));
    PartsAreMembers(prepared);
    forall w | w in prepared
      ensures w.descriptor.id in Written(start, InOrder(prepared))
              && Written(start, InOrder(prepared))[w.descriptor.id] == w.value
    {
      assert w in InOrder(prepared);
      WrittenHolds(start, InOrder(prepared), w);
    }
  }

  lemma {:induction false} QuietSubmit(start: map<Id, int>, d: Device, prepared: seq<PreparedWrite>,
          previous: seq<Option<int>>, fallback: bool, batched: bool)
    requires Submittable(d, prepared) && d.values == Written(start, Prerequisites(prepared))
    requires |prepared| == |previous| && Requested(prepared) != []
    ensures Submit(d, prepared, previous, fallback, batched).1.Applied?
  {
    var writes := Requested(prepared);
    SubmittedHolds(start, d, prepared);
    var d1 := SetAll(d, writes).0;
    if batched || |writes| > 1 {
      QuietVerify(d1, prepared, previous, true, false, None);
    } else {
      SingleWrite(d, writes);
      QuietVerify(d1, prepared, previous, false, false, None);
    }
  }

  /** What a plan must be like for a quiet device to carry it out: its gates are
    * open once the prerequisites are written. */
  predicate Feasible(d: Device, prepared: seq<PreparedWrite>) {
    && d.Valid() && Quiet(d.forward) && AllOpened(d.opens) && Matching(d, prepared) && Distinct(InOrder(prepared))
    && Unrelated(Prerequisites(prepared)) && AllOpen(d, Prerequisites(prepared))
    && Unrelated(Requested(prepared)) && AllAccepted(Requested(prepared)) && Requested(prepared) != []
    && AllOpen(d.(values := Written(d.values, Prerequisites(prepared))), Requested(prepared))
  }

  lemma {:induction false} QuietWrite(d: Device, prepared: seq<PreparedWrite>, previous: seq<Option<int>>,
          fallback: bool, batched: bool)
    requires Feasible(d, prepared) && |prepared| == |previous|
    ensures Write(d, prepared, previous, fallback, batched).1.Applied? <==> AllAccepted(Prerequisites(prepared))
  {
    var (d1, failed) := SetAll(d, Prerequisites(prepared));
    QuietSetAll(d, Prerequisites(prepared));
    SetAllFrame(d, Prerequisites(prepared));
    if failed.None? {
      assert AllOpen(d1, Requested(prepared)) by {
        var after := d.(values := Written(d.values, Prerequisites(prepared)));
        assert forall w :: w in Requested(prepared) ==> after.Open(w.descriptor.id) == d1.Open(w.descriptor.id);
      }
      QuietRequery(d1, Requested(prepared));
      RequeryFrame(d1, Requested(prepared));
      var d2 := Requery(d1, Requested(prepared)).0;
      assert forall w :: w in Requested(prepared) ==> d2.Open(w.descriptor.id) == d1.Open(w.descriptor.id);
      QuietSubmit(d.values, d2, prepared, previous, fallback, batched);
    }
  }

  lemma {:induction false} QuietPrepared(d: Device, prepared: seq<PreparedWrite>, fallback: bool, batched: bool)
    requires Feasible(d, prepared)
    ensures ExecutePrepared(d, prepared, fallback, batched, false).1.Applied? <==> AllAccepted(Prerequisites(prepared))
  {
    NodeOpens(d);
    var d0 := OpenNode(d).0;
    QuietSnapshot(d0, prepared);
    SnapshotFrame(d0, prepared);
    var (d1, previous) := Snapshot(d0, prepared);
    NodeOpens(d1);
    var d2 := OpenNode(d1).0;
    FeasibleStore(d, d2, prepared);
    QuietWrite(d2, prepared, previous, fallback, batched);
  }

  lemma {:induction false} FeasibleStore(d: Device, d1: Device, prepared: seq<PreparedWrite>)
    requires Feasible(d, prepared) && SameStore(d, d1) && Quiet(d1.forward) && AllOpened(d1.opens)
    ensures Feasible(d1, prepared)
  {
    var a, b := d.(values := Written(d.values, Prerequisites(prepared))),
        d1.(values := Written(d1.values, Prerequisites(prepared)));
    assert forall w :: w in Requested(prepared) ==> a.Open(w.descriptor.id) == b.Open(w.descriptor.id);
    assert forall w :: w in Prerequisites(prepared) ==> d.Open(w.descriptor.id) == d1.Open(w.descriptor.id);
  }

  // ------------------------------------------------------------ from the requests

  /** Every request names a control of the device with a value it accepts. */
  predicate Sound(d: Device, requests: seq<Request>) {
    forall r :: r in requests ==> r.id in d.info && r.value.Some? && d.info[r.id].Accepts(r.value.value)
  }

  /** No requested control is a parent of a requested one. */
  predicate Independent(requests: seq<Request>) {
    forall r, s :: r in requests && s in requests ==> !IsParent(r.id, s.id)
  }

  lemma {:induction false} QuietPlan(d: Device, requests: seq<Request>, raw: bool, seen: seq<Id>,
          prepared: seq<PreparedWrite>)
    requires d.Valid() && Quiet(d.forward) && Sound(d, requests)
    ensures var (d1, planned) := PlanFrom(d, requests, raw, seen, prepared); planned.Some? && Quiet(d1.forward)
    decreases |requests|
  {
    if requests != [] {
      var r := requests[0];
      assert r in requests;
      QuietTail(d.forward);
      var (d1, status) := Query(d, Forward, r.id);
      var dependencies := if raw then [] else ManualDependencies(r.id);
      PlanDependenciesFrame(d1, dependencies, seen, prepared);
      var (d2, seen2, prepared2) := PlanDependencies(d1, dependencies, seen, prepared);
      assert Quiet(d1.forward);
      QuietPlan(d2, requests[1..], raw, seen2,
          prepared2 + [PreparedWrite(status.value.descriptor, r.value.value, false)]);
    }
  }

  /** Every inserted prerequisite is a parent of a requested control. */
  predicate FromRequests(requests: seq<Request>, prepared: seq<PreparedWrite>) {
    forall w :: w in Prerequisites(prepared) ==> exists r :: r in requests && IsParent(w.descriptor.id, r.id)
  }

  lemma {:induction false} DependenciesFromRequests(d: Device, dependencies: seq<Dependency>, seen: seq<Id>,
          prepared: seq<PreparedWrite>, requests: seq<Request>, r: Request)
    requires d.Valid() && r in requests && FromRequests(requests, prepared)
    requires forall k :: 0 <= k < |dependencies| ==> IsParent(dependencies[k].parent, r.id)
    ensures FromRequests(requests, PlanDependencies(d, dependencies, seen, prepared).2)
    decreases |dependencies|
  {
    if dependencies != [] {
      var parent := dependencies[0].parent;
      var (d1, status) := Query(d, Forward, parent);
      if parent in seen {
        DependenciesFromRequests(d, dependencies[1..], seen, prepared, requests, r);
      } else if status.None? {
        DependenciesFromRequests(d1, dependencies[1..], seen, prepared, requests, r);
      } else {
        var write := PreparedWrite(status.value.descriptor, dependencies[0].manual, true);
        PartsAppend(prepared, write);
        DependenciesFromRequests(d1, dependencies[1..], seen + [parent],
                                 if status.value.current == Some(dependencies[0].manual) then prepared
                                 else prepared + [write],
                                 requests, r);
      }
    }
  }

  lemma {:induction false} PlanFromRequests(d: Device, requests: seq<Request>, n: nat, raw: bool, seen: seq<Id>,
          prepared: seq<PreparedWrite>)
    requires d.Valid() && n <= |requests| && FromRequests(requests, prepared)
    ensures var planned := PlanFrom(d, requests[n..], raw, seen, prepared).1;
            planned.Some? ==> FromRequests(requests, planned.value)
    decreases |requests| - n
  {
    if n < |requests| {
      var r := requests[n];
      assert requests[n..][0] == r && requests[n..][1..] == requests[n + 1..];
      var (d1, status) := Query(d, Forward, r.id);
      if status.Some? {
        var dependencies := if raw then [] else ManualDependencies(r.id);
        DependenciesFromRequests(d1, dependencies, seen, prepared, requests, r);
        PlanDependenciesFrame(d1, dependencies, seen, prepared);
        var (d2, seen2, prepared2) := PlanDependencies(d1, dependencies, seen, prepared);
        if r.value.Some? {
          var write := PreparedWrite(status.value.descriptor, r.value.value, false);
          PartsAppend(prepared2, write);
          PlanFromRequests(d2, requests, n + 1, raw, seen2, prepared2 + [write]);
        }
      }
    }
  }

  lemma {:induction false} IndependentNotInserted(d: Device, requests: seq<Request>, prepared: seq<PreparedWrite>)
    requires d.Valid() && Independent(requests) && FromRequests(requests, prepared)
    ensures NoneInserted(requests, prepared)
  {
    PartsAreMembers(prepared);
    forall r, w | r in requests && w in prepared && w.prerequisite ensures r.id != w.descriptor.id {
      assert w in Prerequisites(prepared);
    }
  }

  lemma {:induction false} RequestedFacts(d: Device, requests: seq<Request>)
    requires d.Valid() && Sound(d, requests) && Independent(requests)
    ensures var writes := RequestedWrites(d, requests);
            && |writes| == |requests| && Unrelated(writes) && AllAccepted(writes)
            && forall i :: 0 <= i < |requests| ==> writes[i].descriptor.id == requests[i].id
  {
    RequestedWritesAt(d, requests);
    RequestedValues(d, requests);
    var writes := RequestedWrites(d, requests);
    forall v, w | v in writes && w in writes ensures !IsParent(v.descriptor.id, w.descriptor.id) {
      var i :| 0 <= i < |writes| && writes[i] == v;
      var j :| 0 <= j < |writes| && writes[j] == w;
      assert requests[i] in requests && requests[j] in requests;
    }
  }

  lemma {:induction false} RequestedValues(d: Device, requests: seq<Request>)
    requires d.Valid() && Sound(d, requests)
    ensures AllAccepted(RequestedWrites(d, requests))
  {
    if requests != [] {
      assert requests[0] in requests;
      RequestedValues(d, requests[1..]);
    }
  }

  lemma {:induction false} PrerequisitesOpen(d: Device, prepared: seq<PreparedWrite>, seen: seq<Id>)
    requires d.Valid() && Planning(d, seen, prepared)
    ensures Unrelated(Prerequisites(prepared)) && AllOpen(d, Prerequisites(prepared))
  {
    PartsAreMembers(prepared);
  }

  lemma {:induction false} PrerequisitesAreFree(d: Device, requests: seq<Request>)
    requires d.Valid() && PlanFrom(d, requests, false, [], []).1.Some?
    requires DistinctRequests(requests) && Independent(requests)
    ensures var planned := PlanFrom(d, requests, false, [], []).1.value;
            && Matching(d, planned) && Distinct(InOrder(planned))
            && Unrelated(Prerequisites(planned)) && AllOpen(d, Prerequisites(planned))
  {
    var planned := PlanFrom(d, requests, false, [], []).1.value;
    assert requests[0..] == requests;
    PlanFromRequests(d, requests, 0, false, [], []);
    IndependentNotInserted(d, requests, planned);
    PlanCanBeUndone(d, requests, false);
    PlanIsDistinct(d, requests, false, [], []);
    var seen :| Planning(d, seen, planned);
    PrerequisitesOpen(d, planned, seen);
  }

  predicate GatesOpen(d: Device, requests: seq<Request>, prepared: seq<PreparedWrite>) {
    forall i :: 0 <= i < |requests| ==>
      d.(values := Written(d.values, Prerequisites(prepared))).Open(requests[i].id)
  }

  lemma {:induction false} GatesOpenAfter(d: Device, requests: seq<Request>, planned: seq<PreparedWrite>)
    requires d.Valid() && Quiet(d.forward) && PlanFrom(d, requests, false, [], []).1 == Some(planned)
    ensures GatesOpen(d, requests, planned)
  {
    PlanOpensGates(d, requests, [], []);
  }

  /** The requested part of a plan is that of the requests. */
  predicate Asks(requests: seq<Request>, prepared: seq<PreparedWrite>) {
    && Unrelated(Requested(prepared)) && AllAccepted(Requested(prepared)) && |Requested(prepared)| == |requests|
    && forall i :: 0 <= i < |requests| ==> Requested(prepared)[i].descriptor.id == requests[i].id
  }

  lemma {:induction false} RequestedPart(d: Device, requests: seq<Request>, planned: seq<PreparedWrite>)
    requires d.Valid() && Sound(d, requests) && Independent(requests)
    requires Requested(planned) == RequestedWrites(d, requests)
    ensures Asks(requests, planned)
  {
    RequestedFacts(d, requests);
  }

  lemma {:induction false} PlanIsFeasible(d: Device, requests: seq<Request>)
    requires d.Valid() && Quiet(d.forward) && AllOpened(d.opens)
    requires requests != [] && DistinctRequests(requests) && Sound(d, requests) && Independent(requests)
    ensures var (d1, planned) := PlanFrom(d, requests, false, [], []);
            planned.Some? && Feasible(d1, planned.value)
  {
    QuietPlan(d, requests, false, [], []);
    PlanFrame(d, requests, false, [], []);
    var (d1, planned) := PlanFrom(d, requests, false, [], []);
    PrerequisitesAreFree(d, requests);
    RequestedPart(d, requests, planned.value);
    GatesOpenAfter(d, requests, planned.value);
    FeasibleFrom(d, d1, requests, planned.value);
  }

  lemma {:induction false} FeasibleFrom(d: Device, d1: Device, requests: seq<Request>, prepared: seq<PreparedWrite>)
    requires d.Valid() && SameStore(d, d1) && Quiet(d1.forward) && AllOpened(d1.opens)
    requires Matching(d, prepared) && Distinct(InOrder(prepared)) && requests != []
    requires Unrelated(Prerequisites(prepared)) && AllOpen(d, Prerequisites(prepared))
    requires Asks(requests, prepared) && GatesOpen(d, requests, prepared)
    ensures Feasible(d1, prepared)
  {
    var after := d.(values := Written(d.values, Prerequisites(prepared)));
    WrittenKeys(d.values, Prerequisites(prepared));
    PartsAreMembers(prepared);
    forall w | w in Requested(prepared) ensures w.descriptor.id in after.values && after.Open(w.descriptor.id) {
      var i :| 0 <= i < |requests| && Requested(prepared)[i] == w;
      assert after.Open(requests[i].id);
    }
    var after1 := d1.(values := Written(d1.values, Prerequisites(prepared)));
    assert forall w :: w in Requested(prepared) ==> after.Open(w.descriptor.id) == after1.Open(w.descriptor.id);
    assert forall w :: w in Prerequisites(prepared) ==> d.Open(w.descriptor.id) == d1.Open(w.descriptor.id);
  }

  /** Progress.  On a device without faults, gated or not, distinct requests for
    * controls it has, none a parent of another, with values they accept, are
    * applied, whatever is automatic at the start, if and only if the driver
    * accepts the manual values of the prerequisites that planning inserts. */
  lemma {:induction false} QuietRequestsApply(d: Device, requests: seq<Request>, fallback: bool, batched: bool)
    requires d.Valid() && Quiet(d.forward) && AllOpened(d.opens)
    requires requests != [] && DistinctRequests(requests) && Sound(d, requests) && Independent(requests)
    ensures var planned := PlanFrom(OpenNode(d).0, requests, false, [], []).1;
            var (after, outcome) := ExecuteRequests(d, requests, false, fallback, batched, false);
            && planned.Some? && (outcome.Applied? <==> AllAccepted(Prerequisites(planned.value)))
            && (outcome.Applied? ==> Answered(after, requests))
  {
    NodeOpens(d);
    var d0 := OpenNode(d).0;
    PlanIsFeasible(d0, requests);
    PlanFrame(d0, requests, false, [], []);
    var (d1, planned) := PlanFrom(d0, requests, false, [], []);
    QuietPrepared(d1, planned.value, fallback, batched);
    RequestsSucceedTruly(d, requests, false, fallback, batched, false);
  }
}
