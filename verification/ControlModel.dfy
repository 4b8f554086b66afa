/** A V4L2 node with standard controls, seen through the operations the
  * transaction engine uses, and the engine itself as functions on that node's
  * state.  Faults come from scripts: `forward` answers the operations of a
  * transaction, `undo` those of a rollback, `opens` the opening of a node. */
module ControlModel {
  import opened Wrappers

  type Id = nat

  datatype Descriptor = Descriptor(id: Id, readable: bool, writable: bool, minimum: int, maximum: int, step: nat)
  {
    /** The check made before any value is sent to the driver. */
    predicate Accepts(value: int) {
      && writable
      && minimum <= value <= maximum
      && (step > 1 ==> (value - minimum) % step == 0)
    }
  }

  /** How the driver answers one operation.  `Skews` reports success but is off:
    * a write stores `stored` instead, a query reports the control unavailable
    * and without a current value. */
  datatype Fault = Fine | Fails | Skews(stored: int)

  datatype Phase = Forward | Undo

  datatype Command = Command(id: Id, value: int)

  datatype Device = Device(
    info: map<Id, Descriptor>,
    gated: bool,
    values: map<Id, int>,
    forward: seq<Fault>,
    undo: seq<Fault>,
    opens: seq<bool>,
    log: seq<Command>)
  {
    predicate Valid() {
      && values.Keys == info.Keys
      && forall id :: id in info ==> info[id].id == id
    }

    function Answer(phase: Phase): Fault {
      var script := if phase.Forward? then forward else undo;
      if script == [] then Fine else script[0]
    }

    function Advance(phase: Phase): Device {
      match phase
      case Forward => this.(forward := Rest(forward))
      case Undo => this.(undo := Rest(undo))
    }

    /** A gated driver refuses a manual control until each of its automatic
      * parents holds the value that selects manual operation. */
    predicate Open(id: Id) {
      gated ==> forall k :: 0 <= k < |ManualDependencies(id)| ==>
        var dependency := ManualDependencies(id)[k];
        dependency.parent in values ==> values[dependency.parent] == dependency.manual
    }
  }

  function Rest<T>(s: seq<T>): seq<T> { if s == [] then [] else s[1..] }

  // ---------------------------------------------------------------- driver

  datatype Dependency = Dependency(parent: Id, manual: int)

  const AUTO_WHITE_BALANCE: Id := 0x0098090c
  const AUTOGAIN: Id := 0x00980912
  const GAIN: Id := 0x00980913
  const WHITE_BALANCE_TEMPERATURE: Id := 0x0098091a
  const EXPOSURE_AUTO: Id := 0x009a0901
  const EXPOSURE_ABSOLUTE: Id := 0x009a0902
  const FOCUS_ABSOLUTE: Id := 0x009a090a
  const FOCUS_AUTO: Id := 0x009a090c
  const ISO_SENSITIVITY: Id := 0x009a0917
  const ISO_SENSITIVITY_AUTO: Id := 0x009a0918
  const EXPOSURE_MANUAL := 1
  const ISO_MANUAL := 0

  /** The automatic parents of a control and the values that make it manual. */
  function ManualDependencies(id: Id): seq<Dependency> {
    if id == WHITE_BALANCE_TEMPERATURE then [Dependency(AUTO_WHITE_BALANCE, 0)]
    else if id == FOCUS_ABSOLUTE then [Dependency(FOCUS_AUTO, 0)]
    else if id == EXPOSURE_ABSOLUTE then [Dependency(EXPOSURE_AUTO, EXPOSURE_MANUAL)]
    else if id == ISO_SENSITIVITY then
      [Dependency(EXPOSURE_AUTO, EXPOSURE_MANUAL), Dependency(ISO_SENSITIVITY_AUTO, ISO_MANUAL)]
    else if id == GAIN then [Dependency(AUTOGAIN, 0)]
    else []
  }

  datatype Status = Status(descriptor: Descriptor, available: bool, current: Option<int>)

  function OpenNode(d: Device): (Device, bool) {
    if d.opens == [] then (d, true) else (d.(opens := d.opens[1..]), d.opens[0])
  }

  function Get(d: Device, phase: Phase, id: Id): (Device, Option<int>)
    requires d.Valid()
  {
    (d.Advance(phase),
     if id in d.info && d.info[id].readable && !d.Answer(phase).Fails? then Some(d.values[id]) else None)
  }

  function Query(d: Device, phase: Phase, id: Id): (Device, Option<Status>)
    requires d.Valid()
  {
    var answer := d.Answer(phase);
    (d.Advance(phase),
     if id !in d.info || answer.Fails? then None
     else Some(Status(d.info[id], d.Open(id) && answer.Fine?,
                      if d.info[id].readable && answer.Fine? then Some(d.values[id]) else None)))
  }

  function Set(d: Device, phase: Phase, descriptor: Descriptor, value: int): (Device, bool) {
    if !descriptor.Accepts(value) then (d, false)
    else
      var id := descriptor.id;
      var sent := d.Advance(phase).(log := d.log + [Command(id, value)]);
      if id !in d.values || !d.Open(id) then (sent, false)
      else match d.Answer(phase)
        case Fails => (sent, false)
        case Skews(stored) => (sent.(values := d.values[id := stored]), true)
        case Fine => (sent.(values := d.values[id := value]), true)
  }

  // ------------------------------------------------------------ transaction

  datatype PreparedWrite = PreparedWrite(descriptor: Descriptor, value: int, prerequisite: bool)

  /** Writes in order up to the first failure, whose index is reported. */
  function SetAll(d: Device, writes: seq<PreparedWrite>): (Device, Option<nat>)
    decreases |writes|
  {
    if writes == [] then (d, None)
    else
      var (d1, ok) := Set(d, Forward, writes[0].descriptor, writes[0].value);
      if !ok then (d1, Some(0))
      else
        var (d2, failed) := SetAll(d1, writes[1..]);
        (d2, if failed.Some? then Some(failed.value + 1) else None)
  }

  function FirstRejected(writes: seq<PreparedWrite>): (r: Option<nat>)
    ensures r.None? <==> forall w :: w in writes ==> w.descriptor.Accepts(w.value)
    ensures r.Some? ==> r.value < |writes|
  {
    if writes == [] then None
    else if !writes[0].descriptor.Accepts(writes[0].value) then Some(0)
    else
      var rest := FirstRejected(writes[1..]);
      if rest.Some? then Some(rest.value + 1) else None
  }

  function PositionOf(writes: seq<PreparedWrite>, id: Id): nat {
    if writes == [] || writes[0].descriptor.id == id then 0 else 1 + PositionOf(writes[1..], id)
  }

  /** One extended-control submission: every value is checked before the driver
    * is reached, then the driver applies a prefix. */
  function SetBatch(d: Device, writes: seq<PreparedWrite>): (Device, Option<nat>) {
    var rejected := FirstRejected(writes);
    if rejected.Some? then (d, Some(PositionOf(writes, writes[rejected.value].descriptor.id)))
    else SetAll(d, writes)
  }

  function Prerequisites(prepared: seq<PreparedWrite>): seq<PreparedWrite> {
    if prepared == [] then []
    else if prepared[0].prerequisite then [prepared[0]] + Prerequisites(prepared[1..])
    else Prerequisites(prepared[1..])
  }

  function Requested(prepared: seq<PreparedWrite>): seq<PreparedWrite> {
    if prepared == [] then []
    else if prepared[0].prerequisite then Requested(prepared[1..])
    else [prepared[0]] + Requested(prepared[1..])
  }

  function Snapshot(d: Device, prepared: seq<PreparedWrite>): (r: (Device, seq<Option<int>>))
    requires d.Valid()
    ensures |r.1| == |prepared|
    decreases |prepared|
  {
    if prepared == [] then (d, [])
    else
      var (d1, value) := Get(d, Forward, prepared[0].descriptor.id);
      var (d2, values) := Snapshot(d1, prepared[1..]);
      (d2, [value] + values)
  }

  /** Queries every requested control again once its prerequisites are written. */
  function Requery(d: Device, requested: seq<PreparedWrite>): (Device, bool)
    requires d.Valid()
    decreases |requested|
  {
    if requested == [] then (d, true)
    else
      var (d1, status) := Query(d, Forward, requested[0].descriptor.id);
      if status.None? || !status.value.available then (d1, false) else Requery(d1, requested[1..])
  }

  datatype Restore = Restore(descriptor: Descriptor, previous: Option<int>)

  datatype RollbackReport = RollbackReport(restored: seq<Id>, failed: seq<Id>)

  function PrerequisiteIds(prepared: seq<PreparedWrite>): set<Id> {
    set w | w in prepared && w.prerequisite :: w.descriptor.id
  }

  /** The restores of the controls inside (or outside) `ids`, newest first. */
  function Newest(prepared: seq<PreparedWrite>, previous: seq<Option<int>>, ids: set<Id>, inside: bool): seq<Restore>
    requires |prepared| == |previous|
  {
    if prepared == [] then []
    else
      Newest(prepared[1..], previous[1..], ids, inside) +
      if (prepared[0].descriptor.id in ids) == inside
      then [Restore(prepared[0].descriptor, previous[0])] else []
  }

  /** Dependents before prerequisites, newest first within each group. */
  function UndoOrder(prepared: seq<PreparedWrite>, previous: seq<Option<int>>): seq<Restore>
    requires |prepared| == |previous|
  {
    var ids := PrerequisiteIds(prepared);
    Newest(prepared, previous, ids, false) + Newest(prepared, previous, ids, true)
  }

  function RestoreOne(d: Device, restore: Restore): (Device, bool)
    requires d.Valid()
  {
    if restore.previous.None? then (d, false)
    else
      var (d1, current) := Get(d, Undo, restore.descriptor.id);
      if current == restore.previous then (d1, true)
      else Set(d1, Undo, restore.descriptor, restore.previous.value)
  }

  function RestoreFrom(d: Device, order: seq<Restore>, seen: seq<Id>, report: RollbackReport): (Device, RollbackReport)
    requires d.Valid()
    decreases |order|
  {
    if order == [] then (d, report)
    else
      var id := order[0].descriptor.id;
      if id in seen then RestoreFrom(d, order[1..], seen, report)
      else
        var (d1, ok) := RestoreOne(d, order[0]);
        RestoreOneValid(d, order[0]);
        RestoreFrom(d1, order[1..], seen + [id],
                    if ok then report.(restored := report.restored + [id])
                    else report.(failed := report.failed + [id]))
  }

  function Rollback(d: Device, prepared: seq<PreparedWrite>, previous: seq<Option<int>>): (Device, RollbackReport)
    requires d.Valid() && |prepared| == |previous|
  {
    RestoreFrom(d, UndoOrder(prepared, previous), [], RollbackReport([], []))
  }

  datatype Change = Change(id: Id, previous: Option<int>, requested: int, observed: Option<int>, verified: bool,
    prerequisite: bool)

  datatype Outcome =
    | Applied(changes: seq<Change>, batched: bool, fallbackUsed: bool, errorIndex: Option<nat>)
    | Preview(changes: seq<Change>, batched: bool)
    | NothingPrepared
    | Rejected
    | OpenFailed
    | ReopenFailed
    | Undone(partial: bool, errorIndex: Option<nat>, rollback: RollbackReport)

  /** Rolls back and reports; the error is partial when the caller says so or
    * when a restore failed. */
  function Abort(d: Device, prepared: seq<PreparedWrite>, previous: seq<Option<int>>, index: Option<nat>,
          partial: bool): (Device, Outcome)
    requires d.Valid() && |prepared| == |previous|
  {
    var (d1, report) := Rollback(d, prepared, previous);
    (d1, Undone(partial || report.failed != [], index, report))
  }

  /** An unreadable control counts as verified. */
  function ChangeOf(w: PreparedWrite, previous: Option<int>, observed: Option<int>): Change {
    Change(w.descriptor.id, previous, w.value, observed, observed == Some(w.value)
        || !w.descriptor.readable, w.prerequisite)
  }

  function Readback(d: Device, prepared: seq<PreparedWrite>, previous: seq<Option<int>>): (Device, seq<Change>)
    requires d.Valid() && |prepared| == |previous|
    decreases |prepared|
  {
    if prepared == [] then (d, [])
    else
      var w := prepared[0];
      var (d1, observed) := Get(d, Forward, w.descriptor.id);
      var (d2, _) := Query(d1, Forward, w.descriptor.id);
      var (d3, changes) := Readback(d2, prepared[1..], previous[1..]);
      (d3, [ChangeOf(w, previous[0], observed)] + changes)
  }

  predicate AllVerified(changes: seq<Change>) {
    forall c :: c in changes ==> c.verified
  }

  function Verify(d: Device, prepared: seq<PreparedWrite>, previous: seq<Option<int>>, batched: bool,
          fallbackUsed: bool, index: Option<nat>): (Device, Outcome)
    requires d.Valid() && |prepared| == |previous|
  {
    var (d1, isOpen) := OpenNode(d);
    if !isOpen then (d1, ReopenFailed)
    else
      var (d2, changes) := Readback(d1, prepared, previous);
      ReadbackFrame(d1, prepared, previous);
      if AllVerified(changes) then (d2, Applied(changes, batched, fallbackUsed, index))
      else Abort(d2, prepared, previous, index, true)
  }

  /** Undoes a failed batch and writes everything again one by one. */
  function Fallback(d: Device, prepared: seq<PreparedWrite>, previous: seq<Option<int>>, index: nat): (Device, Outcome)
    requires d.Valid() && |prepared| == |previous|
  {
    var (d1, report) := Rollback(d, prepared, previous);
    RollbackFrame(d, prepared, previous);
    if report.failed != [] then (d1, Undone(true, Some(index), report))
    else
      var (d2, failed) := SetAll(d1, Prerequisites(prepared));
      SetAllFrame(d1, Prerequisites(prepared));
      if failed.Some? then Abort(d2, prepared, previous, Some(index), false)
      else
        var (d3, failed) := SetAll(d2, Requested(prepared));
        SetAllFrame(d2, Requested(prepared));
        if failed.Some? then Abort(d3, prepared, previous, Some(index), false)
        else Verify(d3, prepared, previous, true, true, Some(index))
  }

  function Submit(d: Device, prepared: seq<PreparedWrite>, previous: seq<Option<int>>, fallback: bool,
          batched: bool): (Device, Outcome)
    requires d.Valid() && |prepared| == |previous| && Requested(prepared) != []
  {
    var writes := Requested(prepared);
    SetAllFrame(d, writes);
    if batched || |writes| > 1 then
      var (d1, failed) := SetBatch(d, writes);
      if failed.None? then Verify(d1, prepared, previous, true, false, None)
      else if fallback then Fallback(d1, prepared, previous, failed.value)
      else Abort(d1, prepared, previous, failed, false)
    else
      SetAllFrame(d, writes[..1]);
      var (d1, ok) := Set(d, Forward, writes[0].descriptor, writes[0].value);
      if ok then Verify(d1, prepared, previous, false, false, None)
      else Abort(d1, prepared, previous, None, false)
  }

  function Write(d: Device, prepared: seq<PreparedWrite>, previous: seq<Option<int>>, fallback: bool,
          batched: bool): (Device, Outcome)
    requires d.Valid() && |prepared| == |previous| && Requested(prepared) != []
  {
    var (d1, failed) := SetAll(d, Prerequisites(prepared));
    SetAllFrame(d, Prerequisites(prepared));
    if failed.Some? then Abort(d1, prepared, previous, None, false)
    else
      var (d2, available) := Requery(d1, Requested(prepared));
      RequeryFrame(d1, Requested(prepared));
      if !available then Abort(d2, prepared, previous, None, false)
      else Submit(d2, prepared, previous, fallback, batched)
  }

  function Previews(prepared: seq<PreparedWrite>, previous: seq<Option<int>>): seq<Change>
    requires |prepared| == |previous|
  {
    seq(|prepared|, i requires 0 <= i < |prepared| =>
      Change(prepared[i].descriptor.id, previous[i], prepared[i].value, previous[i], false, prepared[i].prerequisite))
  }

  /** The part both copies of the engine share, once a reading node is open.
    * `previewBatched` is the flag a dry run reports. */
  function Transact(d: Device, prepared: seq<PreparedWrite>, fallback: bool, batched: bool, dryRun: bool,
          previewBatched: bool): (Device, Outcome)
    requires d.Valid() && Requested(prepared) != []
  {
    var (d1, previous) := Snapshot(d, prepared);
    SnapshotFrame(d, prepared);
    if dryRun then (d1, Preview(Previews(prepared, previous), previewBatched))
    else
      var (d2, isOpen) := OpenNode(d1);
      if !isOpen then (d2, OpenFailed) else Write(d2, prepared, previous, fallback, batched)
  }

  /** The command-line copy: it opens its own reading node. */
  function ExecutePrepared(d: Device, prepared: seq<PreparedWrite>, fallback: bool, batched: bool,
          dryRun: bool): (Device, Outcome)
    requires d.Valid() && (prepared != [] ==> Requested(prepared) != [])
  {
    if prepared == [] then (d, NothingPrepared)
    else
      var (d1, isOpen) := OpenNode(d);
      if !isOpen then (d1, OpenFailed)
      else Transact(d1, prepared, fallback, batched, dryRun, batched)
  }

  // -------------------------------------------------- what each step leaves

  /** `after` is `before` with scripts and log moved on and no value changed. */
  predicate SameStore(before: Device, after: Device) {
    && after.info == before.info && after.gated == before.gated
    && after.values == before.values
  }

  /** Only controls in `ids` may hold another value. */
  predicate Touches(before: Device, after: Device, ids: set<Id>) {
    && after.info == before.info && after.gated == before.gated
    && after.values.Keys == before.values.Keys
    && forall id :: id in before.values && id !in ids ==> after.values[id] == before.values[id]
  }

  predicate NoSkew(script: seq<Fault>) {
    forall f :: f in script ==> !f.Skews?
  }

  function Ids(writes: seq<PreparedWrite>): set<Id> { set w | w in writes :: w.descriptor.id }

  lemma {:induction false} UndoSetFrame(d: Device, descriptor: Descriptor, value: int)
    ensures var d1 := Set(d, Undo, descriptor, value).0;
            && (d.Valid() ==> d1.Valid()) && Touches(d, d1, {descriptor.id}) && d1.forward == d.forward
                && d1.opens == d.opens
            && (NoSkew(d.undo) ==> NoSkew(d1.undo))
  {
  }

  lemma {:induction false} RestoreOneValid(d: Device, restore: Restore)
    requires d.Valid()
    ensures var d1 := RestoreOne(d, restore).0;
            d1.Valid() && Touches(d, d1, {restore.descriptor.id}) && d1.forward == d.forward && d1.opens == d.opens
    ensures NoSkew(d.undo) ==> NoSkew(RestoreOne(d, restore).0.undo)
  {
    if restore.previous.Some? {
      UndoSetFrame(Get(d, Undo, restore.descriptor.id).0, restore.descriptor, restore.previous.value);
    }
  }

  lemma {:induction false} SetFrame(d: Device, descriptor: Descriptor, value: int)
    ensures var d1 := Set(d, Forward, descriptor, value).0;
            && (d.Valid() ==> d1.Valid()) && Touches(d, d1, {descriptor.id}) && d1.undo == d.undo && d1.opens == d.opens
            && (NoSkew(d.forward) ==> NoSkew(d1.forward))
  {
  }

  lemma {:induction false} SetAllFrame(d: Device, writes: seq<PreparedWrite>)
    ensures var d1 := SetAll(d, writes).0;
            (d.Valid() ==> d1.Valid()) && Touches(d, d1, Ids(writes)) && d1.undo == d.undo && d1.opens == d.opens
    ensures NoSkew(d.forward) ==> NoSkew(SetAll(d, writes).0.forward)
    decreases |writes|
  {
    if writes != [] {
      var (d1, ok) := Set(d, Forward, writes[0].descriptor, writes[0].value);
      SetFrame(d, writes[0].descriptor, writes[0].value);
      assert writes[0] in writes && forall w :: w in writes[1..] ==> w in writes;
      SetAllFrame(d1, writes[1..]);
    }
  }

  lemma {:induction false} SnapshotFrame(d: Device, prepared: seq<PreparedWrite>)
    requires d.Valid()
    ensures var d1 := Snapshot(d, prepared).0;
            SameStore(d, d1) && d1.undo == d.undo && d1.opens == d.opens && d1.log == d.log
    ensures NoSkew(d.forward) ==> NoSkew(Snapshot(d, prepared).0.forward)
    decreases |prepared|
  {
    if prepared != [] { SnapshotFrame(Get(d, Forward, prepared[0].descriptor.id).0, prepared[1..]); }
  }

  lemma {:induction false} RequeryFrame(d: Device, requested: seq<PreparedWrite>)
    requires d.Valid()
    ensures var d1 := Requery(d, requested).0; SameStore(d, d1) && d1.undo == d.undo && d1.opens == d.opens
    ensures NoSkew(d.forward) ==> NoSkew(Requery(d, requested).0.forward)
    decreases |requested|
  {
    if requested != [] { RequeryFrame(Query(d, Forward, requested[0].descriptor.id).0, requested[1..]); }
  }

  lemma {:induction false} ReadbackFrame(d: Device, prepared: seq<PreparedWrite>, previous: seq<Option<int>>)
    requires d.Valid() && |prepared| == |previous|
    ensures var d1 := Readback(d, prepared, previous).0; SameStore(d, d1) && d1.undo == d.undo
    ensures NoSkew(d.forward) ==> NoSkew(Readback(d, prepared, previous).0.forward)
    decreases |prepared|
  {
    if prepared != [] {
      var d1 := Get(d, Forward, prepared[0].descriptor.id).0;
      ReadbackFrame(Query(d1, Forward, prepared[0].descriptor.id).0, prepared[1..], previous[1..]);
    }
  }

  lemma {:induction false} RestoreFromFrame(d: Device, order: seq<Restore>, seen: seq<Id>, report: RollbackReport)
    requires d.Valid()
    ensures var d1 := RestoreFrom(d, order, seen, report).0;
            d1.Valid() && Touches(d, d1, set r | r in order :: r.descriptor.id) && d1.forward == d.forward
                && d1.opens == d.opens
    ensures NoSkew(d.undo) ==> NoSkew(RestoreFrom(d, order, seen, report).0.undo)
    decreases |order|
  {
    if order != [] {
      var id := order[0].descriptor.id;
      if id in seen {
        RestoreFromFrame(d, order[1..], seen, report);
      } else {
        RestoreOneValid(d, order[0]);
        var (d1, ok) := RestoreOne(d, order[0]);
        RestoreFromFrame(d1, order[1..], seen + [id],
                         if ok then report.(restored := report.restored + [id])
                         else report.(failed := report.failed + [id]));
      }
    }
  }

  lemma {:induction false} NewestMembers(prepared: seq<PreparedWrite>, previous: seq<Option<int>>, ids: set<Id>,
          inside: bool)
    requires |prepared| == |previous|
    ensures forall r :: r in Newest(prepared, previous, ids, inside) <==>
              exists i :: 0 <= i < |prepared| && r == Restore(prepared[i].descriptor, previous[i])
                          && (prepared[i].descriptor.id in ids) == inside
  {
    if prepared != [] {
      NewestMembers(prepared[1..], previous[1..], ids, inside);
      forall r ensures r in Newest(prepared, previous, ids, inside) <==>
              exists i :: 0 <= i < |prepared| && r == Restore(prepared[i].descriptor, previous[i])
                          && (prepared[i].descriptor.id in ids) == inside
      {
        if r in Newest(prepared[1..], previous[1..], ids, inside) {
          var i :| 0 <= i < |prepared| - 1 && r == Restore(prepared[1..][i].descriptor, previous[1..][i])
              && (prepared[1..][i].descriptor.id in ids) == inside;
          assert r == Restore(prepared[i + 1].descriptor, previous[i + 1]);
        }
        if i :| 0 < i < |prepared| && r == Restore(prepared[i].descriptor, previous[i])
                && (prepared[i].descriptor.id in ids) == inside
        {
          assert r == Restore(prepared[1..][i - 1].descriptor, previous[1..][i - 1]);
        }
      }
    }
  }

  /** The undo order lists every prepared write and nothing else. */
  lemma {:induction false} UndoOrderMembers(prepared: seq<PreparedWrite>, previous: seq<Option<int>>)
    requires |prepared| == |previous|
    ensures forall r :: r in UndoOrder(prepared, previous) <==>
              exists i :: 0 <= i < |prepared| && r == Restore(prepared[i].descriptor, previous[i])
  {
    NewestMembers(prepared, previous, PrerequisiteIds(prepared), false);
    NewestMembers(prepared, previous, PrerequisiteIds(prepared), true);
  }

  lemma {:induction false} RollbackFrame(d: Device, prepared: seq<PreparedWrite>, previous: seq<Option<int>>)
    requires d.Valid() && |prepared| == |previous|
    ensures var d1 := Rollback(d, prepared, previous).0;
            d1.Valid() && Touches(d, d1, Ids(prepared)) && d1.forward == d.forward && d1.opens == d.opens
    ensures NoSkew(d.undo) ==> NoSkew(Rollback(d, prepared, previous).0.undo)
  {
    var order := UndoOrder(prepared, previous);
    RestoreFromFrame(d, order, [], RollbackReport([], []));
    UndoOrderMembers(prepared, previous);
    forall r | r in order ensures r.descriptor.id in Ids(prepared) {
      var i :| 0 <= i < |prepared| && r == Restore(prepared[i].descriptor, previous[i]);
      assert prepared[i] in prepared;
    }
  }

  lemma {:induction false} PartsAreMembers(prepared: seq<PreparedWrite>)
    ensures forall w :: w in Prerequisites(prepared) <==> w in prepared && w.prerequisite
    ensures forall w :: w in Requested(prepared) <==> w in prepared && !w.prerequisite
  {
    if prepared != [] { PartsAreMembers(prepared[1..]); }
  }
}
