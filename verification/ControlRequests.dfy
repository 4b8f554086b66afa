/** From the request list on: planning prepares distinct writes in an order that
  * can be undone on a gated driver, and a device without faults accepts them. */
module ControlRequests {
  import opened Wrappers
  import opened ControlModel
  import opened ControlSafety
  import opened ControlOrder
  import opened ControlPlan

  // ------------------------------------------------------- what planning prepares

  /** The inserted prerequisites are of distinct controls already seen, none of
    * them a dependent; every write carries the descriptor of its control. */
  predicate Planning(d: Device, seen: seq<Id>, prepared: seq<PreparedWrite>) {
    && Matching(d, prepared)
    && Distinct(Prerequisites(prepared))
    && forall w :: w in Prerequisites(prepared) ==> w.descriptor.id in seen && ManualDependencies(w.descriptor.id) == []
  }

  predicate Flat(dependencies: seq<Dependency>) {
    forall k :: 0 <= k < |dependencies| ==> ManualDependencies(dependencies[k].parent) == []
  }

  lemma {:induction false} PrerequisiteAdded(d: Device, seen: seq<Id>, prepared: seq<PreparedWrite>, w: PreparedWrite)
    requires Planning(d, seen, prepared) && w.prerequisite && w.descriptor.id !in seen
    requires w.descriptor.id in d.info && d.info[w.descriptor.id] == w.descriptor
             && ManualDependencies(w.descriptor.id) == []
    ensures Planning(d, seen + [w.descriptor.id], prepared) && Planning(d, seen + [w.descriptor.id], prepared + [w])
  {
    PartsAppend(prepared, w);
    assert forall v :: v in prepared + [w] ==> v in prepared || v == w;
    forall i | 0 <= i < |Prerequisites(prepared)| ensures Prerequisites(prepared)[i].descriptor.id != w.descriptor.id {
      assert Prerequisites(prepared)[i] in Prerequisites(prepared);
    }
  }

  lemma {:induction false} PlanDependenciesDistinct(d: Device, dependencies: seq<Dependency>, seen: seq<Id>,
          prepared: seq<PreparedWrite>)
    requires d.Valid() && Planning(d, seen, prepared) && Flat(dependencies)
    ensures var (d1, seen1, prepared1) := PlanDependencies(d, dependencies, seen, prepared);
            d1.info == d.info && Planning(d, seen1, prepared1)
    decreases |dependencies|
  {
    if dependencies != [] {
      var parent := dependencies[0].parent;
      var (d1, status) := Query(d, Forward, parent);
      if parent in seen {
        PlanDependenciesDistinct(d, dependencies[1..], seen, prepared);
      } else if status.None? {
        PlanDependenciesDistinct(d1, dependencies[1..], seen, prepared);
      } else {
        var write := PreparedWrite(status.value.descriptor, dependencies[0].manual, true);
        PrerequisiteAdded(d, seen, prepared, write);
        PlanDependenciesDistinct(d1, dependencies[1..], seen + [parent],
                                 if status.value.current == Some(dependencies[0].manual) then prepared
                                 else prepared + [write]);
      }
    }
  }

  lemma {:induction false} RequestAdded(d: Device, seen: seq<Id>, prepared: seq<PreparedWrite>, w: PreparedWrite)
    requires Planning(d, seen, prepared) && !w.prerequisite
    requires w.descriptor.id in d.info && d.info[w.descriptor.id] == w.descriptor
    ensures Planning(d, seen, prepared + [w])
  {
    PartsAppend(prepared, w);
    assert forall v :: v in prepared + [w] ==> v in prepared || v == w;
  }

  /** Planning never inserts one control twice, and never a dependent one. */
  lemma {:induction false} PlanIsDistinct(d: Device, requests: seq<Request>, raw: bool, seen: seq<Id>,
          prepared: seq<PreparedWrite>)
    requires d.Valid() && Planning(d, seen, prepared)
    ensures var planned := PlanFrom(d, requests, raw, seen, prepared).1;
            planned.Some? ==> exists seen1 :: Planning(d, seen1, planned.value)
    decreases |requests|
  {
    if requests != [] {
      var (d1, status) := Query(d, Forward, requests[0].id);
      if status.Some? {
        var dependencies := if raw then [] else ManualDependencies(requests[0].id);
        forall k | 0 <= k < |dependencies| ensures ManualDependencies(dependencies[k].parent) == [] {
          DependenciesAreFlat(requests[0].id, k);
        }
        PlanDependenciesDistinct(d1, dependencies, seen, prepared);
        PlanDependenciesFrame(d1, dependencies, seen, prepared);
        var (d2, seen2, prepared2) := PlanDependencies(d1, dependencies, seen, prepared);
        if requests[0].value.Some? && status.value.descriptor.Accepts(requests[0].value.value) {
          var write := PreparedWrite(status.value.descriptor, requests[0].value.value, false);
          RequestAdded(d, seen2, prepared2, write);
          PlanIsDistinct(d2, requests[1..], raw, seen2, prepared2 + [write]);
          var planned := PlanFrom(d, requests, raw, seen, prepared).1;
          if planned.Some? {
            var seen3 :| Planning(d2, seen3, planned.value);
            assert Planning(d, seen3, planned.value);
          }
        }
      }
    }
  }

  predicate DistinctRequests(requests: seq<Request>) {
    forall i, j :: 0 <= i < j < |requests| ==> requests[i].id != requests[j].id
  }

  /** No control that cannot be read is requested after one of its dependents. */
  predicate NoLateRequest(d: Device, requests: seq<Request>) {
    forall i, j :: 0 <= i < j < |requests| && requests[j].id in d.info && !d.info[requests[j].id].readable ==>
      !IsParent(requests[j].id, requests[i].id)
  }

  predicate NoneInserted(requests: seq<Request>, prepared: seq<PreparedWrite>) {
    forall r :: r in requests ==> r.id !in PrerequisiteIds(prepared)
  }

  lemma {:induction false} RequestedWritesAt(d: Device, requests: seq<Request>)
    requires d.Valid() && forall r :: r in requests ==> r.id in d.info && r.value.Some?
    ensures var writes := RequestedWrites(d, requests);
            |writes| == |requests| && forall i :: 0 <= i < |requests| ==> writes[i].descriptor == d.info[requests[i].id]
  {
    if requests != [] {
      assert requests[0] in requests;
      RequestedWritesAt(d, requests[1..]);
    }
  }

  lemma {:induction false} AppendDistinct(a: seq<PreparedWrite>, b: seq<PreparedWrite>)
    requires Distinct(a) && Distinct(b) && forall v, w :: v in a && w in b ==> v.descriptor.id != w.descriptor.id
    ensures Distinct(a + b)
  {
    forall i, j | 0 <= i < j < |a + b| ensures (a + b)[i].descriptor.id != (a + b)[j].descriptor.id {
      if i < |a| <= j { assert a[i] in a && b[j - |a|] in b; }
    }
  }

  lemma {:induction false} AppendNoLate(a: seq<PreparedWrite>, b: seq<PreparedWrite>)
    requires (forall w :: w in a ==> ManualDependencies(w.descriptor.id) == []) && NoLateUnreadable(b)
    ensures NoLateUnreadable(a + b)
  {
    forall i, j | 0 <= i < j < |a + b| && !(a + b)[j].descriptor.readable
      ensures !IsParent((a + b)[j].descriptor.id, (a + b)[i].descriptor.id)
    {
      if i < |a| { assert a[i] in a; }
    }
  }

  /** What planning leaves to show: its requested writes are those asked for. */
  ghost predicate Follows(d: Device, requests: seq<Request>, planned: seq<PreparedWrite>) {
    && (exists seen :: Planning(d, seen, planned)) && |Requested(planned)| == |requests|
    && forall i :: 0 <= i < |requests| ==>
         requests[i].id in d.info && Requested(planned)[i].descriptor == d.info[requests[i].id]
  }

  lemma {:induction false} PlanFollows(d: Device, requests: seq<Request>, raw: bool)
    requires d.Valid() && PlanFrom(d, requests, raw, [], []).1.Some?
    ensures Follows(d, requests, PlanFrom(d, requests, raw, [], []).1.value)
  {
    PlanIsDistinct(d, requests, raw, [], []);
    PlanFrame(d, requests, raw, [], []);
    PlannedRequested(d, requests, raw, [], []);
    RequestedWritesAt(d, requests);
  }

  lemma {:induction false} FollowingIsDistinct(d: Device, requests: seq<Request>, planned: seq<PreparedWrite>)
    requires d.Valid() && DistinctRequests(requests) && Follows(d, requests, planned) && NoneInserted(requests, planned)
    ensures Matching(d, planned) && Distinct(InOrder(planned))
    ensures NoLateRequest(d, requests) ==> NoLateUnreadable(InOrder(planned))
  {
    var seen :| Planning(d, seen, planned);
    InsertedApart(d, requests, planned);
    RequestsNoLate(d, requests, Requested(planned));
    AppendDistinct(Prerequisites(planned), Requested(planned));
    if NoLateRequest(d, requests) { AppendNoLate(Prerequisites(planned), Requested(planned)); }
  }

  /** The writes a plan performs are of distinct controls, in an order that can be
    * undone. */
  lemma {:induction false} PlanCanBeUndone(d: Device, requests: seq<Request>, raw: bool)
    requires d.Valid() && DistinctRequests(requests)
    requires var planned := PlanFrom(d, requests, raw, [], []).1; planned.Some? && NoneInserted(requests, planned.value)
    ensures var planned := PlanFrom(d, requests, raw, [], []).1.value;
            && Matching(d, planned) && Distinct(InOrder(planned))
            && (NoLateRequest(d, requests) ==> NoLateUnreadable(InOrder(planned)))
  {
    PlanFollows(d, requests, raw);
    FollowingIsDistinct(d, requests, PlanFrom(d, requests, raw, [], []).1.value);
  }

  lemma {:induction false} InsertedApart(d: Device, requests: seq<Request>, planned: seq<PreparedWrite>)
    requires d.Valid() && NoneInserted(requests, planned) && |Requested(planned)| == |requests|
    requires forall i :: 0 <= i < |requests| ==>
             requests[i].id in d.info && Requested(planned)[i].descriptor == d.info[requests[i].id]
    ensures forall v, w :: v in Prerequisites(planned) && w in Requested(planned) ==> v.descriptor.id != w.descriptor.id
  {
    PartsAreMembers(planned);
    forall v, w | v in Prerequisites(planned) && w in Requested(planned) ensures v.descriptor.id != w.descriptor.id {
      var i :| 0 <= i < |requests| && Requested(planned)[i] == w;
      assert v in planned && requests[i] in requests;
    }
  }

  lemma {:induction false} RequestsNoLate(d: Device, requests: seq<Request>, writes: seq<PreparedWrite>)
    requires d.Valid() && DistinctRequests(requests) && |writes| == |requests|
    requires forall i :: 0 <= i < |requests| ==>
             requests[i].id in d.info && writes[i].descriptor == d.info[requests[i].id]
    ensures Distinct(writes) && (NoLateRequest(d, requests) ==> NoLateUnreadable(writes))
  {
    assert forall i :: 0 <= i < |requests| ==> writes[i].descriptor.id == requests[i].id;
  }

  /** Each control to be written that can be read and written holds a value the
    * driver accepts. */
  predicate HoldsAcceptable(d: Device, prepared: seq<PreparedWrite>) {
    forall w :: w in prepared && w.descriptor.readable && w.descriptor.writable ==>
      w.descriptor.id in d.values && w.descriptor.Accepts(d.values[w.descriptor.id])
  }

  /** What a run that is to be undone asks of its plan. */
  predicate CanBeUndone(d: Device, requests: seq<Request>, raw: bool)
    requires d.Valid()
  {
    var (d1, planned) := PlanFrom(OpenNode(d).0, requests, raw, [], []);
    planned.Some? ==>
      Answers(d1.forward, |planned.value|) && HoldsAcceptable(d, planned.value) && NoneInserted(requests, planned.value)
  }

  /** The report of a rollback is true from the request list on.  With distinct
    * requested controls, none of them also inserted as a prerequisite, acceptable
    * old values, a snapshot that is answered and no fault while rolling back,
    * whatever fails on the way forward: a planned control is listed exactly when it
    * cannot be read or did not come back, and a readable one did not come back only
    * where a parent that cannot be read, requested after it, holds its gate shut. */
  lemma {:induction false} RequestsReportTruly(d: Device, requests: seq<Request>, raw: bool, fallback: bool,
          batched: bool)
    requires d.Valid() && Quiet(d.undo) && DistinctRequests(requests) && CanBeUndone(d, requests, raw)
    ensures var planned := PlanFrom(OpenNode(d).0, requests, raw, [], []).1;
            var (after, outcome) := ExecuteRequests(d, requests, raw, fallback, batched, false);
            outcome.Undone? ==> planned.Some? && Retraced(d, after, planned.value, outcome.rollback)
  {
    if ExecuteRequests(d, requests, raw, fallback, batched, false).1.Undone? {
      UndoneWasPlanned(d, requests, raw, fallback, batched);
      RunsPlanned(d, requests, raw, fallback, batched);
      var (d1, planned) := PlanFrom(OpenNode(d).0, requests, raw, [], []);
      PlanFrame(OpenNode(d).0, requests, raw, [], []);
      PlanCanBeUndone(OpenNode(d).0, requests, raw);
      PlannedUndone(d, d1, planned.value, fallback, batched);
    }
  }

  /** Rollback order is right from the request list on: when moreover no control
    * that cannot be read is requested after a dependent of it, no restore of a
    * readable control fails and each holds its old value; when all planned controls
    * can be read, nothing fails at all. */
  lemma {:induction false} RequestsNeverMeetClosedGate(d: Device, requests: seq<Request>, raw: bool, fallback: bool,
          batched: bool)
    requires d.Valid() && Quiet(d.undo) && DistinctRequests(requests) && CanBeUndone(d, requests, raw)
    requires NoLateRequest(d, requests)
    ensures var planned := PlanFrom(OpenNode(d).0, requests, raw, [], []).1;
            var (after, outcome) := ExecuteRequests(d, requests, raw, fallback, batched, false);
            outcome.Undone? ==> planned.Some? && ReadableBack(d, after, planned.value, outcome.rollback)
  {
    RequestsReportTruly(d, requests, raw, fallback, batched);
    var (after, outcome) := ExecuteRequests(d, requests, raw, fallback, batched, false);
    if outcome.Undone? {
      var planned := PlanFrom(OpenNode(d).0, requests, raw, [], []).1;
      PlanCanBeUndone(OpenNode(d).0, requests, raw);
      RetracedIsBack(d, after, planned.value, outcome.rollback);
    }
  }

  lemma {:induction false} UndoneWasPlanned(d: Device, requests: seq<Request>, raw: bool, fallback: bool,
          batched: bool)
    requires d.Valid() && ExecuteRequests(d, requests, raw, fallback, batched, false).1.Undone?
    ensures OpenNode(d).1 && PlanFrom(OpenNode(d).0, requests, raw, [], []).1.Some?
  {
  }

  lemma {:induction false} RunsPlanned(d: Device, requests: seq<Request>, raw: bool, fallback: bool, batched: bool)
    requires d.Valid() && OpenNode(d).1 && PlanFrom(OpenNode(d).0, requests, raw, [], []).1.Some?
    ensures var (d1, planned) := PlanFrom(OpenNode(d).0, requests, raw, [], []);
            && d1.Valid() && (planned.value != [] ==> Requested(planned.value) != [])
            && ExecuteRequests(d, requests, raw, fallback, batched, false) ==
                ExecutePrepared(d1, planned.value, fallback, batched, false)
  {
    PlanFrame(OpenNode(d).0, requests, raw, [], []);
  }

  lemma {:induction false} PlannedUndone(start: Device, d: Device, prepared: seq<PreparedWrite>, fallback: bool,
          batched: bool)
    requires d.Valid() && SameStore(start, d) && Quiet(d.undo)
    requires Matching(start, prepared) && Distinct(InOrder(prepared))
    requires HoldsAcceptable(start, prepared) && Answers(d.forward, |prepared|)
    requires prepared != [] ==> Requested(prepared) != []
    ensures var (after, outcome) := ExecutePrepared(d, prepared, fallback, batched, false);
            EndsRetraced(start, after, prepared, outcome)
  {
    if prepared != [] {
      assert Undoables(d, d.values, prepared);
      RollbackReportsTruly(d, prepared, fallback, batched);
    }
  }

  // ------------------------------------------- a parent that cannot be read back

  const AutoFocus := Descriptor(FOCUS_AUTO, false, true, 0, 1, 1)
  const Focus := Descriptor(FOCUS_ABSOLUTE, true, true, 0, 100, 1)

  /** `n` answers without fault, then a failure. */
  function FineThenFails(n: nat): seq<Fault> {
    if n == 0 then [Fails] else [Fine] + FineThenFails(n - 1)
  }

  function FocusDevice(auto: int, focus: int, forward: seq<Fault>, log: seq<Command>): (d: Device)
    ensures d.Valid()
  {
    Device(map[FOCUS_AUTO := AutoFocus, FOCUS_ABSOLUTE := Focus], true,
        map[FOCUS_AUTO := auto, FOCUS_ABSOLUTE := focus],
           forward, [], [], log)
  }

  function FocusWrites(): seq<PreparedWrite> {
    [PreparedWrite(Focus, 20, false), PreparedWrite(AutoFocus, 1, false)]
  }

  lemma {:induction false} FocusSplits()
    ensures Prerequisites(FocusWrites()) == [] && Requested(FocusWrites()) == FocusWrites()
    ensures PrerequisiteIds(FocusWrites()) == {}
  {
    var one, two := FocusWrites()[0], FocusWrites()[1];
    assert FocusWrites()[1..] == [two] && [two][1..] == [];
    assert Requested([two]) == [two] && Prerequisites([two]) == [];
  }

  lemma {:induction false} FocusPlanned(n: nat)
    requires n >= 2
    ensures PlanFrom(FocusDevice(0, 10, FineThenFails(n), []),
            [Request(FOCUS_ABSOLUTE, Some(20)), Request(FOCUS_AUTO, Some(1))], true, [], []) ==
            (FocusDevice(0, 10, FineThenFails(n - 2), []), Some(FocusWrites()))
  {
    var requests := [Request(FOCUS_ABSOLUTE, Some(20)), Request(FOCUS_AUTO, Some(1))];
    var d, d1, d2 := FocusDevice(0, 10, FineThenFails(n), []), FocusDevice(0, 10, FineThenFails(n - 1), []),
        FocusDevice(0, 10, FineThenFails(n - 2), []);
    assert Query(d, Forward, FOCUS_ABSOLUTE).0 == d1 && Query(d1, Forward, FOCUS_AUTO).0 == d2;
    assert requests[1..] == [Request(FOCUS_AUTO, Some(1))] && requests[1..][1..] == [];
    assert [] + [FocusWrites()[0]] == [FocusWrites()[0]] && [FocusWrites()[0]] + [FocusWrites()[1]] == FocusWrites();
    assert PlanFrom(d2, [], true, [], FocusWrites()) == (d2, Some(FocusWrites()));
    assert PlanFrom(d1, requests[1..], true, [], [FocusWrites()[0]]) == (d2, Some(FocusWrites()));
  }

  lemma {:induction false} FocusSnapshot(n: nat)
    requires n >= 2
    ensures Snapshot(FocusDevice(0, 10, FineThenFails(n), []), FocusWrites()) ==
            (FocusDevice(0, 10, FineThenFails(n - 2), []), [Some(10), None])
  {
    var d, d1, d2 := FocusDevice(0, 10, FineThenFails(n), []), FocusDevice(0, 10, FineThenFails(n - 1), []),
        FocusDevice(0, 10, FineThenFails(n - 2), []);
    assert Get(d, Forward, FOCUS_ABSOLUTE) == (d1, Some(10)) && Get(d1, Forward, FOCUS_AUTO) == (d2, None);
    assert FocusWrites()[1..][1..] == [];
    assert Snapshot(d2, []) == (d2, []);
    assert Snapshot(d1, FocusWrites()[1..]) == (d2, [None] + []);
    assert [Some(10)] + ([None] + []) == [Some(10), None];
  }

  lemma {:induction false} FocusRequeried(n: nat)
    requires n >= 2
    ensures Requery(FocusDevice(0, 10, FineThenFails(n), []), FocusWrites()) ==
            (FocusDevice(0, 10, FineThenFails(n - 2), []), true)
  {
    var d, d1, d2 := FocusDevice(0, 10, FineThenFails(n), []), FocusDevice(0, 10, FineThenFails(n - 1), []),
        FocusDevice(0, 10, FineThenFails(n - 2), []);
    assert d.Open(FOCUS_ABSOLUTE) && d1.Open(FOCUS_AUTO);
    assert Query(d, Forward, FOCUS_ABSOLUTE).0 == d1 && Query(d1, Forward, FOCUS_AUTO).0 == d2;
    assert FocusWrites()[1..][1..] == [];
    assert Requery(d2, []) == (d2, true);
    assert Requery(d1, FocusWrites()[1..]) == (d2, true);
  }

  function FocusLog(): seq<Command> { [Command(FOCUS_ABSOLUTE, 20), Command(FOCUS_AUTO, 1)] }

  lemma {:induction false} FocusWritten(n: nat)
    requires n >= 2
    ensures SetBatch(FocusDevice(0, 10, FineThenFails(n), []), FocusWrites()) ==
            (FocusDevice(1, 20, FineThenFails(n - 2), FocusLog()), None)
  {
    var d := FocusDevice(0, 10, FineThenFails(n), []);
    var d1 := FocusDevice(0, 20, FineThenFails(n - 1), [Command(FOCUS_ABSOLUTE, 20)]);
    var d2 := FocusDevice(1, 20, FineThenFails(n - 2), FocusLog());
    assert d.Open(FOCUS_ABSOLUTE) && d1.Open(FOCUS_AUTO);
    assert d.values[FOCUS_ABSOLUTE := 20] == d1.values && d.log + [Command(FOCUS_ABSOLUTE, 20)] == d1.log;
    assert Set(d, Forward, Focus, 20) == (d1, true);
    assert d1.values[FOCUS_AUTO := 1] == d2.values && d1.log + [Command(FOCUS_AUTO, 1)] == d2.log;
    assert Set(d1, Forward, AutoFocus, 1) == (d2, true);
    assert FocusWrites()[1..][1..] == [];
    assert SetAll(d2, []) == (d2, None);
    assert SetAll(d1, FocusWrites()[1..]) == (d2, None);
  }

  lemma {:induction false} FocusMisread()
    ensures var d := FocusDevice(1, 20, FineThenFails(0), FocusLog());
            var (d1, changes) := Readback(d, FocusWrites(), [Some(10), None]);
            d1 == d.(forward := []) && !AllVerified(changes)
  {
    var d := FocusDevice(1, 20, FineThenFails(0), FocusLog());
    var d1 := d.(forward := []);
    assert Rest(FineThenFails(0)) == [];
    assert Get(d, Forward, FOCUS_ABSOLUTE) == (d1, None);
    assert Query(d1, Forward, FOCUS_ABSOLUTE).0 == d1;
    var changes := Readback(d, FocusWrites(), [Some(10), None]).1;
    assert changes[0] in changes && !changes[0].verified;
    ReadbackIdle(d1, FocusWrites()[1..], [Some(10), None][1..]);
  }

  lemma {:induction false} ReadbackIdle(d: Device, prepared: seq<PreparedWrite>, previous: seq<Option<int>>)
    requires d.Valid() && |prepared| == |previous| && d.forward == []
    ensures Readback(d, prepared, previous).0 == d
    decreases |prepared|
  {
    if prepared != [] { ReadbackIdle(d, prepared[1..], previous[1..]); }
  }

  lemma {:induction false} FocusStuck()
    ensures var d := FocusDevice(1, 20, [], FocusLog());
            var (d1, report) := Rollback(d, FocusWrites(), [Some(10), None]);
            report.failed == [FOCUS_AUTO, FOCUS_ABSOLUTE] && d1.values == d.values
  {
    FocusSplits();
    var d := FocusDevice(1, 20, [], FocusLog());
    var previous: seq<Option<int>> := [Some(10), None];
    var one, two := Restore(Focus, Some(10)), Restore(AutoFocus, None);
    var writes := FocusWrites();
    assert writes[1..][1..] == [] && previous[1..] == [None] && previous[1..][1..] == [];
    assert Newest(writes[1..], previous[1..], {}, false) == [two] && Newest(writes[1..], previous[1..], {}, true) == [];
    assert Newest(writes, previous, {}, false) == [two, one] && Newest(writes, previous, {}, true) == [];
    assert UndoOrder(writes, previous) == [two, one];
    assert !d.Open(FOCUS_ABSOLUTE) by { assert ManualDependencies(FOCUS_ABSOLUTE)[0] == Dependency(FOCUS_AUTO, 0); }
    assert RestoreOne(d, two) == (d, false);
    var (d1, ok) := RestoreOne(d, one);
    assert !ok && d1.values == d.values;
    assert [two, one][1..] == [one] && [one][1..] == [];
    var stuck := RollbackReport([], [FOCUS_AUTO]);
    assert [] + [FOCUS_AUTO] == [FOCUS_AUTO] && [FOCUS_AUTO] + [FOCUS_ABSOLUTE] == [FOCUS_AUTO, FOCUS_ABSOLUTE];
    assert RestoreFrom(d, [one], [FOCUS_AUTO], stuck) == (d1, RollbackReport([], [FOCUS_AUTO, FOCUS_ABSOLUTE]));
  }

  lemma {:induction false} FocusMisverified()
    ensures var d := FocusDevice(1, 20, FineThenFails(0), FocusLog());
            var (d1, outcome) := Verify(d, FocusWrites(), [Some(10), None], true, false, None);
            && outcome.Undone? && outcome.rollback.failed == [FOCUS_AUTO, FOCUS_ABSOLUTE] && d1.values == d.values
  {
    FocusMisread();
    FocusStuck();
  }

  lemma {:induction false} FocusSubmitted()
    ensures var d := FocusDevice(0, 10, FineThenFails(2), []);
            && Requested(FocusWrites()) != []
            && var (d1, outcome) := Submit(d, FocusWrites(), [Some(10), None], false, true);
            && outcome.Undone? && outcome.rollback.failed == [FOCUS_AUTO, FOCUS_ABSOLUTE]
            && d1.values == FocusDevice(1, 20, [], []).values
  {
    FocusSplits();
    FocusWritten(2);
    FocusMisverified();
  }

  lemma {:induction false} FocusWritesAll()
    ensures var d := FocusDevice(0, 10, FineThenFails(4), []);
            && Requested(FocusWrites()) != []
            && var (d1, outcome) := Write(d, FocusWrites(), [Some(10), None], false, true);
            && outcome.Undone? && outcome.rollback.failed == [FOCUS_AUTO, FOCUS_ABSOLUTE]
            && d1.values == FocusDevice(1, 20, [], []).values
  {
    FocusSplits();
    var d := FocusDevice(0, 10, FineThenFails(4), []);
    assert SetAll(d, []) == (d, None);
    FocusRequeried(4);
    FocusSubmitted();
  }

  /** Why no such control may be requested after its dependent: the focus, then an
    * automatic focus that cannot be read, both written in raw mode and then not
    * verified.  The automatic focus cannot be put back, so the focus stays behind
    * a closed gate with its new value, without a fault while rolling back. */
  lemma {:induction false} LateUnreadableBlocks()
    ensures var d := FocusDevice(0, 10, FineThenFails(8), []);
            var requests := [Request(FOCUS_ABSOLUTE, Some(20)), Request(FOCUS_AUTO, Some(1))];
            var (after, outcome) := ExecuteRequests(d, requests, true, false, true, false);
            && Quiet(d.undo) && DistinctRequests(requests) && !NoLateRequest(d, requests)
            && outcome.Undone? && outcome.rollback.failed == [FOCUS_AUTO, FOCUS_ABSOLUTE]
            && d.info[FOCUS_ABSOLUTE].readable && FOCUS_ABSOLUTE in after.values
            && after.values[FOCUS_ABSOLUTE] == 20 != d.values[FOCUS_ABSOLUTE]
  {
    var d := FocusDevice(0, 10, FineThenFails(8), []);
    var requests := [Request(FOCUS_ABSOLUTE, Some(20)), Request(FOCUS_AUTO, Some(1))];
    FocusRequestedLate(d, requests);
    FocusPlanned(8);
    assert OpenNode(d) == (d, true);
    RunsPlanned(d, requests, true, false, true);
    FocusRun(FocusDevice(0, 10, FineThenFails(6), []));
  }

  lemma {:induction false} FocusRequestedLate(d: Device, requests: seq<Request>)
    requires requests == [Request(FOCUS_ABSOLUTE, Some(20)), Request(FOCUS_AUTO, Some(1))]
    requires FOCUS_AUTO in d.info && !d.info[FOCUS_AUTO].readable
    ensures DistinctRequests(requests) && !NoLateRequest(d, requests)
  {
    assert IsParent(requests[1].id, requests[0].id) by {
      assert ManualDependencies(FOCUS_ABSOLUTE)[0].parent == FOCUS_AUTO;
    }
  }

  lemma {:induction false} FocusRun(d: Device)
    requires d == FocusDevice(0, 10, FineThenFails(6), [])
    ensures var (after, outcome) := ExecutePrepared(d, FocusWrites(), false, true, false);
            outcome.Undone? && outcome.rollback.failed == [FOCUS_AUTO, FOCUS_ABSOLUTE]
            && FOCUS_ABSOLUTE in after.values && after.values[FOCUS_ABSOLUTE] == 20
  {
    FocusSplits();
    FocusSnapshot(6);
    FocusWritesAll();
  }
}
