/** Rollback order on a gated driver: undoing dependents before prerequisites,
  * newest first, never meets a closed gate. */
module ControlOrder {
  import opened Wrappers
  import opened ControlModel
  import opened ControlSafety

  predicate Quiet(script: seq<Fault>) {
    forall f :: f in script ==> f.Fine?
  }

  predicate Distinct(writes: seq<PreparedWrite>) {
    forall i, j :: 0 <= i < j < |writes| ==> writes[i].descriptor.id != writes[j].descriptor.id
  }

  predicate Matching(d: Device, writes: seq<PreparedWrite>) {
    forall w :: w in writes ==> w.descriptor.id in d.info && d.info[w.descriptor.id] == w.descriptor
  }

  /** Every write is of a control of the device; the driver would accept again the
    * value in `before` of one that can be read and written. */
  predicate Undoables(d: Device, before: map<Id, int>, writes: seq<PreparedWrite>) {
    && Matching(d, writes)
    && forall w :: w in writes ==>
         && w.descriptor.id in before
         && (w.descriptor.readable && w.descriptor.writable ==> w.descriptor.Accepts(before[w.descriptor.id]))
  }

  predicate IsParent(parent: Id, id: Id) {
    exists k :: 0 <= k < |ManualDependencies(id)| && ManualDependencies(id)[k].parent == parent
  }

  /** No control that cannot be read is written after one of its dependents. */
  predicate NoLateUnreadable(writes: seq<PreparedWrite>) {
    forall i, j :: 0 <= i < j < |writes| && !writes[j].descriptor.readable ==>
      !IsParent(writes[j].descriptor.id, writes[i].descriptor.id)
  }

  predicate LaterIn(writes: seq<PreparedWrite>, i: int, id: Id) {
    exists j :: 0 <= j < |writes| && i < j && writes[j].descriptor.id == id
  }

  /** The parents of `writes[i]` that can be read will be manual when its turn to
    * be undone comes: one written later was manual at the start, any other is
    * manual now.  Of those that cannot be read only one written later may not be. */
  predicate ParentsReady(before: map<Id, int>, d: Device, writes: seq<PreparedWrite>, i: nat)
    requires i < |writes|
  {
    forall k :: 0 <= k < |ManualDependencies(writes[i].descriptor.id)| ==>
      var dependency := ManualDependencies(writes[i].descriptor.id)[k];
      dependency.parent in d.values && dependency.parent in before && dependency.parent in d.info ==>
        if !LaterIn(writes, i, dependency.parent) then d.values[dependency.parent] == dependency.manual
        else d.info[dependency.parent].readable ==> before[dependency.parent] == dependency.manual
  }

  predicate SameReadable(before: map<Id, int>, d: Device) {
    && d.values.Keys == before.Keys
    && forall id :: id in before && id in d.info && d.info[id].readable ==> d.values[id] == before[id]
  }

  /** The value of `w` changed, and an undo could put it back. */
  predicate ToUndo(before: map<Id, int>, d: Device, w: PreparedWrite) {
    && w.descriptor.readable && w.descriptor.id in before && w.descriptor.id in d.values
    && d.values[w.descriptor.id] != before[w.descriptor.id]
  }

  predicate OneOf(writes: seq<PreparedWrite>, n: nat, id: Id) {
    exists i :: 0 <= i < n <= |writes| && writes[i].descriptor.id == id
  }

  /** The gate of this control is closed by a parent that cannot be read. */
  predicate Stuck(d: Device, id: Id) {
    d.gated && exists k :: 0 <= k < |ManualDependencies(id)| && HeldShut(d, ManualDependencies(id)[k])
  }

  predicate HeldShut(d: Device, dependency: Dependency) {
    && dependency.parent in d.values && dependency.parent in d.info
    && !d.info[dependency.parent].readable && d.values[dependency.parent] != dependency.manual
  }

  lemma {:induction false} ParentsAreFree(d: Device, id: Id, parent: Id)
    requires IsParent(parent, id)
    ensures parent != id && ManualDependencies(parent) == [] && !Stuck(d, parent)
  {
  }

  /** Of the controls that can be read, at most the first `n` writes are in effect,
    * and each that is can be undone in turn. */
  predicate Retraceable(before: map<Id, int>, d: Device, writes: seq<PreparedWrite>, n: nat) {
    && n <= |writes|
    && d.Valid() && d.values.Keys == before.Keys
    && (forall id :: id in before && d.values[id] != before[id] ==>
          d.info[id].writable && (d.info[id].readable ==> OneOf(writes, n, id)))
    && (d.gated ==> forall i :: 0 <= i < n && ToUndo(before, d, writes[i]) ==> ParentsReady(before, d, writes, i))
  }

  lemma {:induction false} RetraceableWidens(before: map<Id, int>, d: Device, writes: seq<PreparedWrite>, n: nat,
          m: nat)
    requires Distinct(writes) && Matching(d, writes) && Retraceable(before, d, writes, n) && n <= m <= |writes|
    ensures Retraceable(before, d, writes, m)
  {
    forall id | OneOf(writes, n, id) ensures OneOf(writes, m, id) {
      var i :| 0 <= i < n && writes[i].descriptor.id == id;
      assert writes[i].descriptor.id == id;
    }
    forall i | n <= i < m ensures !ToUndo(before, d, writes[i]) {
      assert writes[i] in writes;
    }
  }

  /** A write that was let through can be undone in turn. */
  lemma {:induction false} WrittenReady(before: map<Id, int>, d: Device, d1: Device, writes: seq<PreparedWrite>, n: nat)
    requires Distinct(writes) && Matching(d, writes)
    requires n < |writes| && Retraceable(before, d, writes, n)
    requires d.gated && d.Open(writes[n].descriptor.id) && d1.info == d.info && d1.values.Keys == d.values.Keys
    requires forall x :: x in before && x != writes[n].descriptor.id ==> d1.values[x] == d.values[x]
    ensures ParentsReady(before, d1, writes, n)
  {
    var id := writes[n].descriptor.id;
    forall k | 0 <= k < |ManualDependencies(id)| && ManualDependencies(id)[k].parent in before
      ensures var dependency := ManualDependencies(id)[k];
              if !LaterIn(writes, n, dependency.parent) then d1.values[dependency.parent] == dependency.manual
              else d1.info[dependency.parent].readable ==> before[dependency.parent] == dependency.manual
    {
      var parent := ManualDependencies(id)[k].parent;
      ParentsAreFree(d, id, parent);
      if LaterIn(writes, n, parent) && d.info[parent].readable {
        RetraceableUnwinds(before, d, writes, n);
        LateIsUnchanged(before, d, writes, n, n, parent);
      }
    }
  }

  /** Halfway back: like `Retraceable`, but a control that is stuck may keep its
    * new value. */
  predicate Unwinding(before: map<Id, int>, d: Device, writes: seq<PreparedWrite>, n: nat) {
    && n <= |writes|
    && d.Valid() && d.values.Keys == before.Keys
    && (forall id :: id in before && d.values[id] != before[id] ==>
          d.info[id].writable && (d.info[id].readable ==> OneOf(writes, n, id) || Stuck(d, id)))
    && (d.gated ==> forall i :: 0 <= i < n && ToUndo(before, d, writes[i]) ==> ParentsReady(before, d, writes, i))
  }

  lemma {:induction false} RetraceableUnwinds(before: map<Id, int>, d: Device, writes: seq<PreparedWrite>, n: nat)
    requires Retraceable(before, d, writes, n)
    ensures Unwinding(before, d, writes, n)
  {
  }

  /** A readable parent written after the first `m` writes, of which `writes[i]` is
    * the last or a later one, still has its old value. */
  lemma {:induction false} LateIsUnchanged(before: map<Id, int>, d: Device, writes: seq<PreparedWrite>, i: nat, m: nat,
          parent: Id)
    requires Distinct(writes) && Unwinding(before, d, writes, m)
    requires i < |writes| && i >= m - 1 && LaterIn(writes, i, parent) && IsParent(parent, writes[i].descriptor.id)
    requires parent in before && d.info[parent].readable
    ensures d.values[parent] == before[parent]
  {
    var j :| 0 <= j < |writes| && i < j && writes[j].descriptor.id == parent;
    assert !OneOf(writes, m, parent);
    ParentsAreFree(d, writes[i].descriptor.id, parent);
  }

  lemma {:induction false} SetRetraceable(before: map<Id, int>, d: Device, writes: seq<PreparedWrite>, n: nat)
    requires Distinct(writes) && Matching(d, writes)
    requires n < |writes| && Retraceable(before, d, writes, n)
    ensures var (d1, ok) := Set(d, Forward, writes[n].descriptor, writes[n].value);
            Retraceable(before, d1, writes, if ok then n + 1 else n)
  {
    var (d1, ok) := Set(d, Forward, writes[n].descriptor, writes[n].value);
    var id := writes[n].descriptor.id;
    assert writes[n] in writes;
    if ok {
      assert forall x :: x in before && x != id ==> d1.values[x] == d.values[x];
      SetKeepsChanged(before, d, d1, writes, n);
      if d.gated {
        WrittenReady(before, d, d1, writes, n);
        forall i | 0 <= i < n + 1 && ToUndo(before, d1, writes[i]) ensures ParentsReady(before, d1, writes, i) {
          if i < n { EarlierReady(before, d, d1, writes, i, n); }
        }
      }
    } else {
      RetraceableStore(before, d, d1, writes, n);
    }
  }

  lemma {:induction false} SetKeepsChanged(before: map<Id, int>, d: Device, d1: Device, writes: seq<PreparedWrite>,
          n: nat)
    requires n < |writes| && Retraceable(before, d, writes, n) && d1.info == d.info && d1.values.Keys == d.values.Keys
    requires writes[n].descriptor.id in d.info && d.info[writes[n].descriptor.id].writable
    requires forall x :: x in before && x != writes[n].descriptor.id ==> d1.values[x] == d.values[x]
    ensures forall x :: x in before && d1.values[x] != before[x] ==>
              d1.info[x].writable && (d1.info[x].readable ==> OneOf(writes, n + 1, x))
  {
    forall x | x in before && d1.values[x] != before[x]
      ensures d1.info[x].writable && (d1.info[x].readable ==> OneOf(writes, n + 1, x))
    {
      if x == writes[n].descriptor.id {
        assert writes[n].descriptor.id == x;
      } else if d1.info[x].readable {
        assert OneOf(writes, n, x);
      }
    }
  }

  lemma {:induction false} EarlierReady(before: map<Id, int>, d: Device, d1: Device, writes: seq<PreparedWrite>, i: nat,
          n: nat)
    requires Distinct(writes) && i < n < |writes| && Retraceable(before, d, writes, n) && d.gated
    requires d1.info == d.info && d1.values.Keys == d.values.Keys && forall x ::
             x in before && x != writes[n].descriptor.id ==>
             d1.values[x] == d.values[x]
    requires ToUndo(before, d1, writes[i])
    ensures ParentsReady(before, d1, writes, i)
  {
    assert writes[i].descriptor.id != writes[n].descriptor.id;
    assert ToUndo(before, d, writes[i]) && ParentsReady(before, d, writes, i);
    assert LaterIn(writes, i, writes[n].descriptor.id);
  }

  lemma {:induction false} RetraceableStore(before: map<Id, int>, d: Device, d1: Device, writes: seq<PreparedWrite>,
          n: nat)
    requires Retraceable(before, d, writes, n) && SameStore(d, d1)
    ensures Retraceable(before, d1, writes, n)
  {
    if d.gated {
      forall i | 0 <= i < n && ToUndo(before, d1, writes[i]) ensures ParentsReady(before, d1, writes, i) {
        assert ToUndo(before, d, writes[i]) && ParentsReady(before, d, writes, i);
      }
    }
  }

  lemma {:induction false} SetAllRetraceable(before: map<Id, int>, d: Device, writes: seq<PreparedWrite>, n: nat,
          m: nat)
    requires Distinct(writes) && Matching(d, writes)
    requires n <= m <= |writes| && Retraceable(before, d, writes, n)
    ensures var (d1, failed) := SetAll(d, writes[n..m]);
            Retraceable(before, d1, writes, m)
    decreases m - n
  {
    if n < m {
      assert writes[n..m][0] == writes[n] && writes[n..m][1..] == writes[n + 1..m];
      SetRetraceable(before, d, writes, n);
      SetFrame(d, writes[n].descriptor, writes[n].value);
      var (d1, ok) := Set(d, Forward, writes[n].descriptor, writes[n].value);
      if ok {
        SetAllRetraceable(before, d1, writes, n + 1, m);
      } else {
        RetraceableWidens(before, d1, writes, n, m);
      }
    }
  }

  // ------------------------------------------------------------- going back

  /** What the snapshot keeps of a control it could read. */
  function Kept(w: PreparedWrite, before: map<Id, int>): Restore
    requires w.descriptor.id in before
  {
    Restore(w.descriptor, if w.descriptor.readable then Some(before[w.descriptor.id]) else None)
  }

  /** The restores of `writes` in exactly the reverse of their order. */
  function Backwards(writes: seq<PreparedWrite>, before: map<Id, int>): (r: seq<Restore>)
    requires forall w :: w in writes ==> w.descriptor.id in before
    ensures |r| == |writes|
  {
    if writes == [] then []
    else Backwards(writes[1..], before) + [Kept(writes[0], before)]
  }

  lemma {:induction false} BackwardsAppend(a: seq<PreparedWrite>, b: seq<PreparedWrite>, before: map<Id, int>)
    requires forall w :: w in a + b ==> w.descriptor.id in before
    requires forall w :: w in a ==> w.descriptor.id in before
    requires forall w :: w in b ==> w.descriptor.id in before
    ensures Backwards(a + b, before) == Backwards(b, before) + Backwards(a, before)
    decreases |a|
  {
    if a == [] {
      assert a + b == b;
    } else {
      assert (a + b)[1..] == a[1..] + b;
      BackwardsAppend(a[1..], b, before);
    }
  }

  lemma {:induction false} NewestIsBackwards(prepared: seq<PreparedWrite>, previous: seq<Option<int>>, ids: set<Id>,
          inside: bool, before: map<Id, int>)
    requires |prepared| == |previous|
    requires forall w :: w in prepared ==> w.descriptor.id in before && ((w.descriptor.id in ids) == w.prerequisite)
    requires forall i :: 0 <= i < |prepared| ==> previous[i] == Kept(prepared[i], before).previous
    ensures (forall w :: w in Prerequisites(prepared) ==> w.descriptor.id in before)
            && (forall w :: w in Requested(prepared) ==> w.descriptor.id in before)
    ensures Newest(prepared, previous, ids, inside) ==
            Backwards(if inside then Prerequisites(prepared) else Requested(prepared), before)
  {
    if prepared != [] {
      NewestIsBackwards(prepared[1..], previous[1..], ids, inside, before);
      assert prepared[0] in prepared;
      var part := if inside then Prerequisites(prepared) else Requested(prepared);
      var rest := if inside then Prerequisites(prepared[1..]) else Requested(prepared[1..]);
      if prepared[0].prerequisite == inside {
        assert part == [prepared[0]] + rest && part[1..] == rest && part[0] == prepared[0];
      } else {
        assert part == rest;
      }
    }
  }

  lemma {:induction false} DistinctAcross(a: seq<PreparedWrite>, b: seq<PreparedWrite>, v: PreparedWrite,
          w: PreparedWrite)
    requires Distinct(a + b) && v in a && w in b
    ensures v.descriptor.id != w.descriptor.id
  {
    var i :| 0 <= i < |a| && a[i] == v;
    var j :| 0 <= j < |b| && b[j] == w;
    assert (a + b)[i] == v && (a + b)[|a| + j] == w;
  }

  /** With distinct controls the undo order is the write order read backwards. */
  lemma {:induction false} UndoOrderIsBackwards(prepared: seq<PreparedWrite>, previous: seq<Option<int>>,
          before: map<Id, int>)
    requires |prepared| == |previous| && Distinct(InOrder(prepared))
    requires forall w :: w in prepared ==> w.descriptor.id in before
    requires forall i :: 0 <= i < |prepared| ==> previous[i] == Kept(prepared[i], before).previous
    ensures forall w :: w in InOrder(prepared) ==> w.descriptor.id in before
    ensures UndoOrder(prepared, previous) == Backwards(InOrder(prepared), before)
  {
    PartsAreMembers(prepared);
    var ids := PrerequisiteIds(prepared);
    forall w, p | w in prepared && !w.prerequisite && p in prepared && p.prerequisite
      ensures w.descriptor.id != p.descriptor.id
    {
      DistinctAcross(Prerequisites(prepared), Requested(prepared), p, w);
    }
    NewestIsBackwards(prepared, previous, ids, false, before);
    NewestIsBackwards(prepared, previous, ids, true, before);
    BackwardsAppend(Prerequisites(prepared), Requested(prepared), before);
  }

  /** The gate of the next write to undo is open unless it is stuck: a readable
    * parent written later is back. */
  lemma {:induction false} GateIsOpen(before: map<Id, int>, d: Device, writes: seq<PreparedWrite>, n: nat)
    requires Distinct(writes) && n < |writes| && Unwinding(before, d, writes, n + 1)
    requires ToUndo(before, d, writes[n])
    ensures d.Open(writes[n].descriptor.id) <==> !Stuck(d, writes[n].descriptor.id)
  {
    var id := writes[n].descriptor.id;
    if d.gated && !Stuck(d, id) {
      assert ParentsReady(before, d, writes, n);
      forall k | 0 <= k < |ManualDependencies(id)| && ManualDependencies(id)[k].parent in d.values
        ensures d.values[ManualDependencies(id)[k].parent] == ManualDependencies(id)[k].manual
      {
        var parent := ManualDependencies(id)[k].parent;
        if d.info[parent].readable && LaterIn(writes, n, parent) {
          LateIsUnchanged(before, d, writes, n, n + 1, parent);
        }
        assert !HeldShut(d, ManualDependencies(id)[k]);
      }
    }
    if Stuck(d, id) {
      var k :| 0 <= k < |ManualDependencies(id)| && HeldShut(d, ManualDependencies(id)[k]);
    }
  }

  /** The undo of this write fails: it was never read, or its gate is stuck over a
    * value that changed. */
  predicate Barred(before: map<Id, int>, d: Device, w: PreparedWrite) {
    !w.descriptor.readable || (ToUndo(before, d, w) && Stuck(d, w.descriptor.id))
  }

  /** What a quiet undo of this write leaves. */
  predicate Stepped(before: map<Id, int>, d: Device, d1: Device, w: PreparedWrite)
    requires w.descriptor.id in before
  {
    && d1.Valid() && d1.gated == d.gated && d1.info == d.info && Quiet(d1.undo)
    && d1.values == if Barred(before, d, w) then d.values else d.values[w.descriptor.id := before[w.descriptor.id]]
  }

  /** Undoing changes no control that cannot be read, so that what is stuck stays
    * stuck and nothing else becomes so. */
  lemma {:induction false} StuckStays(before: map<Id, int>, d: Device, d1: Device, w: PreparedWrite, id: Id)
    requires w.descriptor.id in before && Stepped(before, d, d1, w)
    requires w.descriptor.id in d.info && d.info[w.descriptor.id] == w.descriptor && d.values.Keys == before.Keys
    ensures Stuck(d1, id) == Stuck(d, id)
  {
    forall k | 0 <= k < |ManualDependencies(id)|
      ensures HeldShut(d1, ManualDependencies(id)[k]) == HeldShut(d, ManualDependencies(id)[k])
    {}
  }

  lemma {:induction false} BarredStays(before: map<Id, int>, d: Device, d1: Device, w: PreparedWrite, v: PreparedWrite)
    requires w.descriptor.id in before && Stepped(before, d, d1, w)
    requires w.descriptor.id in d.info && d.info[w.descriptor.id] == w.descriptor && d.values.Keys == before.Keys
    requires v.descriptor.id != w.descriptor.id
    ensures Barred(before, d1, v) == Barred(before, d, v)
  {
    StuckStays(before, d, d1, w, v.descriptor.id);
  }

  /** With the last write undone, or left where that fails, the earlier ones can
    * still be undone. */
  lemma {:induction false} UnwindingNarrows(before: map<Id, int>, d: Device, d1: Device, writes: seq<PreparedWrite>,
          n: nat)
    requires Distinct(writes) && Matching(d, writes) && n < |writes| && Unwinding(before, d, writes, n + 1)
    requires writes[n].descriptor.id in before && Stepped(before, d, d1, writes[n])
    ensures Unwinding(before, d1, writes, n)
  {
    var w := writes[n];
    assert w in writes;
    forall x | x in before && d1.values[x] != before[x]
      ensures d1.info[x].writable && (d1.info[x].readable ==> OneOf(writes, n, x) || Stuck(d1, x))
    {
      StuckStays(before, d, d1, w, x);
      if d1.info[x].readable && !Stuck(d, x) {
        assert OneOf(writes, n + 1, x);
        var i :| 0 <= i < n + 1 && writes[i].descriptor.id == x;
        assert i < n && writes[i].descriptor.id == x;
      }
    }
    if d.gated {
      forall i | 0 <= i < n && ToUndo(before, d1, writes[i]) ensures ParentsReady(before, d1, writes, i) {
        EarlierStillReady(before, d, d1, writes, i, n);
      }
    }
  }

  lemma {:induction false} EarlierStillReady(before: map<Id, int>, d: Device, d1: Device, writes: seq<PreparedWrite>,
          i: nat, n: nat)
    requires Distinct(writes) && i < n < |writes| && Unwinding(before, d, writes, n + 1) && d.gated
    requires writes[n].descriptor.id in before && Stepped(before, d, d1, writes[n]) && ToUndo(before, d1, writes[i])
    ensures ParentsReady(before, d1, writes, i)
  {
    assert writes[i].descriptor.id != writes[n].descriptor.id;
    assert ToUndo(before, d, writes[i]) && ParentsReady(before, d, writes, i);
    assert LaterIn(writes, i, writes[n].descriptor.id);
  }

  lemma {:induction false} QuietTail(script: seq<Fault>)
    requires Quiet(script)
    ensures script != [] ==> script[0].Fine? && Quiet(script[1..])
  {
    if script != [] {
      assert script[0] in script;
      assert forall f :: f in script[1..] ==> f in script;
    }
  }

  /** Without faults, restoring an open control brings its value back; one that
    * was never read or whose gate is closed is reported as failed and left alone. */
  lemma {:induction false} QuietRestore(d: Device, w: PreparedWrite, before: map<Id, int>)
    requires d.Valid() && Quiet(d.undo) && w.descriptor.id in d.info && d.info[w.descriptor.id] == w.descriptor
    requires w.descriptor.id in d.values && w.descriptor.id in before
    requires ToUndo(before, d, w) ==> w.descriptor.Accepts(before[w.descriptor.id])
    requires ToUndo(before, d, w) ==> (d.Open(w.descriptor.id) <==> !Stuck(d, w.descriptor.id))
    ensures var (d1, ok) := RestoreOne(d, Kept(w, before));
            ok == !Barred(before, d, w) && Stepped(before, d, d1, w)
  {
    QuietTail(d.undo);
    if w.descriptor.readable {
      var value := before[w.descriptor.id];
      var (d1, current) := Get(d, Undo, w.descriptor.id);
      QuietTail(d1.undo);
      if current != Some(value) {
        assert d1.Open(w.descriptor.id) == d.Open(w.descriptor.id);
        var (d2, stored) := Set(d1, Undo, w.descriptor, value);
        QuietTail(d2.undo);
      }
    }
  }

  lemma {:induction false} RestoreSteps(before: map<Id, int>, d: Device, writes: seq<PreparedWrite>, n: nat)
    requires Distinct(writes) && n < |writes| && Unwinding(before, d, writes, n + 1)
    requires Quiet(d.undo) && Undoables(d, before, writes)
    ensures writes[n].descriptor.id in before
    ensures var (d1, ok) := RestoreOne(d, Kept(writes[n], before));
            && ok == !Barred(before, d, writes[n]) && Stepped(before, d, d1, writes[n])
            && Unwinding(before, d1, writes, n) && Undoables(d1, before, writes)
  {
    var w := writes[n];
    assert w in writes;
    if ToUndo(before, d, w) { GateIsOpen(before, d, writes, n); }
    QuietRestore(d, w, before);
    UnwindingNarrows(before, d, RestoreOne(d, Kept(w, before)).0, writes, n);
  }

  predicate OnlyUnreadable(writes: seq<PreparedWrite>, ids: seq<Id>) {
    forall id :: id in ids ==> exists w :: w in writes && w.descriptor.id == id && !w.descriptor.readable
  }

  /** The first `n` writes undone: each barred one keeps its value, each other one
    * is back, and nothing else changed. */
  predicate RewoundValues(before: map<Id, int>, d: Device, d1: Device, writes: seq<PreparedWrite>, n: nat) {
    && n <= |writes| && d1.info == d.info && d1.gated == d.gated && d1.values.Keys == d.values.Keys == before.Keys
    && (forall id :: id in before && !OneOf(writes, n, id) ==> d1.values[id] == d.values[id])
    && (forall i :: 0 <= i < n ==> Settles(before, d, d1, writes[i]))
  }

  /** The control of `w` holds what undoing it leaves. */
  predicate Settles(before: map<Id, int>, d: Device, d1: Device, w: PreparedWrite) {
    w.descriptor.id in before && w.descriptor.id in d.values && w.descriptor.id in d1.values ==>
      d1.values[w.descriptor.id] == if Barred(before, d, w) then d.values[w.descriptor.id] else before[w.descriptor.id]
  }

  /** And exactly the barred ones are added to the report. */
  predicate RewoundReport(before: map<Id, int>, d: Device, writes: seq<PreparedWrite>, n: nat, failed: seq<Id>,
          after: seq<Id>) {
    && n <= |writes|
    && (forall i :: 0 <= i < n ==>
          (writes[i].descriptor.id in after <==> writes[i].descriptor.id in failed || Barred(before, d, writes[i])))
    && (forall id :: id in after ==> id in failed || OneOf(writes, n, id))
    && (forall id :: id in failed ==> id in after)
  }

  predicate Rewound(before: map<Id, int>, d: Device, d1: Device, writes: seq<PreparedWrite>, n: nat,
          failed: seq<Id>, after: seq<Id>) {
    RewoundValues(before, d, d1, writes, n) && RewoundReport(before, d, writes, n, failed, after)
  }

  lemma {:induction false} EarlierBarred(before: map<Id, int>, d: Device, d1: Device, writes: seq<PreparedWrite>,
      n: nat)
    requires Distinct(writes) && Matching(d, writes) && n < |writes| && writes[n].descriptor.id in before
    requires d.values.Keys == before.Keys && Stepped(before, d, d1, writes[n])
    ensures forall i :: 0 <= i < n ==>
              writes[i].descriptor.id != writes[n].descriptor.id
              && Barred(before, d1, writes[i]) == Barred(before, d, writes[i])
  {
    assert writes[n] in writes;
    forall i | 0 <= i < n
      ensures writes[i].descriptor.id != writes[n].descriptor.id
              && Barred(before, d1, writes[i]) == Barred(before, d, writes[i])
    {
      BarredStays(before, d, d1, writes[n], writes[i]);
    }
  }

  lemma {:induction false} RewoundMoreValues(before: map<Id, int>, d: Device, d1: Device, d2: Device,
          writes: seq<PreparedWrite>, n: nat)
    requires Distinct(writes) && Matching(d, writes) && n < |writes| && writes[n].descriptor.id in before
    requires d.values.Keys == before.Keys && Stepped(before, d, d1, writes[n])
    requires RewoundValues(before, d1, d2, writes, n)
    ensures RewoundValues(before, d, d2, writes, n + 1)
  {
    assert writes[n] in writes;
    forall id | id in before && !OneOf(writes, n + 1, id) ensures d2.values[id] == d.values[id] {
      NotOneOfFewer(writes, n, id);
    }
    forall i | 0 <= i < n + 1 ensures Settles(before, d, d2, writes[i]) {
      if i < n {
        assert Settles(before, d1, d2, writes[i]);
        SettlesEarlier(before, d, d1, d2, writes[n], writes[i]);
      } else {
        assert !OneOf(writes, n, writes[n].descriptor.id);
      }
    }
  }

  lemma {:induction false} SettlesEarlier(before: map<Id, int>, d: Device, d1: Device, d2: Device, w: PreparedWrite,
          v: PreparedWrite)
    requires w.descriptor.id in before && Stepped(before, d, d1, w) && d.values.Keys == before.Keys
    requires w.descriptor.id in d.info && d.info[w.descriptor.id] == w.descriptor
    requires v.descriptor.id != w.descriptor.id && Settles(before, d1, d2, v)
    ensures Settles(before, d, d2, v)
  {
    BarredStays(before, d, d1, w, v);
  }

  lemma {:induction false} RewoundMoreReport(before: map<Id, int>, d: Device, d1: Device,
          writes: seq<PreparedWrite>, n: nat, failed: seq<Id>, next: seq<Id>, after: seq<Id>)
    requires Distinct(writes) && Matching(d, writes) && n < |writes| && writes[n].descriptor.id in before
    requires d.values.Keys == before.Keys && Stepped(before, d, d1, writes[n])
    requires next == if Barred(before, d, writes[n]) then failed + [writes[n].descriptor.id] else failed
    requires forall i :: 0 <= i <= n ==> writes[i].descriptor.id !in failed
    requires RewoundReport(before, d1, writes, n, next, after)
    ensures RewoundReport(before, d, writes, n + 1, failed, after)
  {
    var id := writes[n].descriptor.id;
    EarlierBarred(before, d, d1, writes, n);
    assert !OneOf(writes, n, id);
    assert OneOf(writes, n + 1, id) by { assert writes[n].descriptor.id == id; }
    forall x | x in after ensures x in failed || OneOf(writes, n + 1, x) {
      if OneOf(writes, n, x) { OneOfMore(writes, n, x); }
    }
  }

  lemma {:induction false} OneOfMore(writes: seq<PreparedWrite>, n: nat, id: Id)
    requires OneOf(writes, n, id) && n < |writes|
    ensures OneOf(writes, n + 1, id)
  {
    var i :| 0 <= i < n && writes[i].descriptor.id == id;
    assert writes[i].descriptor.id == id;
  }

  lemma {:induction false} NotOneOfFewer(writes: seq<PreparedWrite>, n: nat, id: Id)
    requires !OneOf(writes, n + 1, id) && n < |writes|
    ensures !OneOf(writes, n, id) && writes[n].descriptor.id != id
  {
    if OneOf(writes, n, id) { OneOfMore(writes, n, id); }
  }

  lemma {:induction false} BackwardsSplit(writes: seq<PreparedWrite>, n: nat, before: map<Id, int>)
    requires 0 < n <= |writes| && forall w :: w in writes ==> w.descriptor.id in before
    ensures (forall w :: w in writes[..n] ==> w.descriptor.id in before)
            && (forall w :: w in writes[..n - 1] ==> w.descriptor.id in before)
    ensures Backwards(writes[..n], before) == [Kept(writes[n - 1], before)] + Backwards(writes[..n - 1], before)
  {
    var w := writes[n - 1];
    assert writes[..n] == writes[..n - 1] + [w];
    assert [w][1..] == [] && Backwards([], before) == [];
    BackwardsAppend(writes[..n - 1], [w], before);
    assert Backwards([w], before) == [Kept(w, before)];
  }

  lemma {:induction false} RestoreFromUnrolls(d: Device, restore: Restore, rest: seq<Restore>, seen: seq<Id>,
          report: RollbackReport)
    requires d.Valid() && restore.descriptor.id !in seen
    ensures var id := restore.descriptor.id;
            var (d1, ok) := RestoreOne(d, restore);
            var next := if ok then report.(restored := report.restored + [id])
                        else report.(failed := report.failed + [id]);
            d1.Valid() && RestoreFrom(d, [restore] + rest, seen, report) == RestoreFrom(d1, rest, seen + [id], next)
  {
    RestoreOneValid(d, restore);
    assert ([restore] + rest)[1..] == rest;
  }

  /** One more line of a rollback report. */
  function Noted(report: RollbackReport, id: Id, ok: bool): RollbackReport {
    if ok then report.(restored := report.restored + [id]) else report.(failed := report.failed + [id])
  }

  lemma {:induction false} RestoreLast(before: map<Id, int>, d: Device, writes: seq<PreparedWrite>, n: nat,
          seen: seq<Id>, report: RollbackReport)
    requires n < |writes| && d.Valid() && writes[n].descriptor.id !in seen
    requires forall w :: w in writes ==> w.descriptor.id in before
    ensures (forall w :: w in writes[..n + 1] ==> w.descriptor.id in before)
            && (forall w :: w in writes[..n] ==> w.descriptor.id in before)
    ensures var (d1, ok) := RestoreOne(d, Kept(writes[n], before));
            var id := writes[n].descriptor.id;
            d1.Valid() && RestoreFrom(d, Backwards(writes[..n + 1], before), seen, report) ==
            RestoreFrom(d1, Backwards(writes[..n], before), seen + [id], Noted(report, id, ok))
  {
    BackwardsSplit(writes, n + 1, before);
    RestoreFromUnrolls(d, Kept(writes[n], before), Backwards(writes[..n], before), seen, report);
  }

  lemma {:induction false} RestoreAllBack(before: map<Id, int>, d: Device, writes: seq<PreparedWrite>, n: nat,
          seen: seq<Id>, report: RollbackReport)
    requires Distinct(writes) && Unwinding(before, d, writes, n)
    requires Quiet(d.undo) && Undoables(d, before, writes)
    requires forall i :: 0 <= i < n ==> writes[i].descriptor.id !in seen && writes[i].descriptor.id !in report.failed
    requires forall w :: w in writes[..n] ==> w.descriptor.id in before
    ensures var (d1, after) := RestoreFrom(d, Backwards(writes[..n], before), seen, report);
            Rewound(before, d, d1, writes, n, report.failed, after.failed) && Quiet(d1.undo)
    decreases n
  {
    if n == 0 {
      assert writes[..0] == [] && Backwards(writes[..0], before) == [];
      assert forall id :: !OneOf(writes, 0, id);
    } else {
      var k := n - 1;
      var id := writes[k].descriptor.id;
      assert writes[k] in writes;
      RestoreSteps(before, d, writes, k);
      RestoreLast(before, d, writes, k, seen, report);
      var (d1, ok) := RestoreOne(d, Kept(writes[k], before));
      var next := Noted(report, id, ok);
      RestoreAllBack(before, d1, writes, k, seen + [id], next);
      var (d2, after) := RestoreFrom(d1, Backwards(writes[..k], before), seen + [id], next);
      RewoundMoreValues(before, d, d1, d2, writes, k);
      RewoundMoreReport(before, d, d1, writes, k, report.failed, next.failed, after.failed);
    }
  }

  // ------------------------------------------------------- whole transactions

  /** What holds whenever a transaction begun at `start` may roll back. */
  predicate Ready(start: Device, d: Device, prepared: seq<PreparedWrite>, previous: seq<Option<int>>) {
    && |prepared| == |previous|
    && (forall i :: 0 <= i < |prepared| ==>
          prepared[i].descriptor.id in start.values && previous[i] == Kept(prepared[i], start.values).previous)
    && d.info == start.info && Quiet(start.undo) && Quiet(d.undo)
    && Undoable(start, d, prepared, previous)
    && Distinct(InOrder(prepared))
    && Undoables(d, start.values, InOrder(prepared))
    && Retraceable(start.values, d, InOrder(prepared), |InOrder(prepared)|)
  }

  /** Some control that cannot be read was written after this one, its dependent. */
  predicate LateParent(writes: seq<PreparedWrite>, id: Id) {
    exists i, j :: 0 <= i < j < |writes| && writes[i].descriptor.id == id && !writes[j].descriptor.readable
      && IsParent(writes[j].descriptor.id, id)
  }

  /** What a rollback reports of one written control: it lists it exactly when it
    * cannot be read or did not come back, and a readable one did not come back
    * only where a late parent that cannot be read holds its gate shut. */
  predicate ReportsTruly(start: Device, after: Device, writes: seq<PreparedWrite>, failed: seq<Id>, w: PreparedWrite) {
    w.descriptor.id in start.values && w.descriptor.id in after.values
    && (w.descriptor.id in failed <==>
        !w.descriptor.readable || after.values[w.descriptor.id] != start.values[w.descriptor.id])
    && (w.descriptor.readable && after.values[w.descriptor.id] != start.values[w.descriptor.id] ==>
          Stuck(after, w.descriptor.id) && LateParent(writes, w.descriptor.id))
  }

  /** The rollback of this run reports truly of every prepared control, lists no
    * other, and if it lists none nothing changed. */
  predicate Retraced(start: Device, after: Device, prepared: seq<PreparedWrite>, report: RollbackReport) {
    && after.info == start.info && after.values.Keys == start.values.Keys
    && (forall w :: w in InOrder(prepared) ==> ReportsTruly(start, after, InOrder(prepared), report.failed, w))
    && (forall id :: id in report.failed ==> exists w :: w in InOrder(prepared) && w.descriptor.id == id)
    && (forall id :: id in start.values && id !in Ids(prepared) ==> after.values[id] == start.values[id])
    && (report.failed == [] ==> after.values == start.values)
  }

  /** An undone run ends retraced, and an applied one where it could still be. */
  predicate EndsRetraced(start: Device, after: Device, prepared: seq<PreparedWrite>, outcome: Outcome) {
    && (outcome.Undone? ==> Retraced(start, after, prepared, outcome.rollback))
    && (outcome.Applied? ==>
          after.info == start.info && Retraceable(start.values, after, InOrder(prepared), |InOrder(prepared)|))
  }

  lemma {:induction false} QuietIsExact(script: seq<Fault>)
    requires Quiet(script)
    ensures NoSkew(script)
  {
  }

  /** A quiet rollback, exactly: it fails on a written control if and only if that
    * control cannot be read, or its value changed and a parent that cannot be read
    * holds its gate shut; each other one is back. */
  lemma {:induction false} RollbackFailsExactly(start: Device, d: Device, prepared: seq<PreparedWrite>,
          previous: seq<Option<int>>)
    requires Ready(start, d, prepared, previous)
    ensures var (d1, report) := Rollback(d, prepared, previous);
            Rewound(start.values, d, d1, InOrder(prepared), |InOrder(prepared)|, [], report.failed) && Quiet(d1.undo)
  {
    var writes := InOrder(prepared);
    PartsAreMembers(prepared);
    assert writes[..|writes|] == writes;
    UndoOrderIsBackwards(prepared, previous, start.values);
    RetraceableUnwinds(start.values, d, writes, |writes|);
    RestoreAllBack(start.values, d, writes, |writes|, [], RollbackReport([], []));
  }

  /** A write whose gate is stuck over a changed value has a late parent. */
  lemma {:induction false} StuckHasLateParent(before: map<Id, int>, d: Device, writes: seq<PreparedWrite>, i: nat)
    requires Matching(d, writes) && Retraceable(before, d, writes, |writes|) && i < |writes|
    requires ToUndo(before, d, writes[i]) && Stuck(d, writes[i].descriptor.id)
    ensures LateParent(writes, writes[i].descriptor.id)
  {
    var id := writes[i].descriptor.id;
    assert ParentsReady(before, d, writes, i);
    var k :| 0 <= k < |ManualDependencies(id)| && HeldShut(d, ManualDependencies(id)[k]);
    var parent := ManualDependencies(id)[k].parent;
    assert LaterIn(writes, i, parent);
    var j :| 0 <= j < |writes| && i < j && writes[j].descriptor.id == parent;
    assert writes[j] in writes && IsParent(parent, id);
  }

  /** What is stuck before a rollback is stuck after it. */
  lemma {:induction false} StuckAfter(before: map<Id, int>, d: Device, d1: Device, writes: seq<PreparedWrite>,
          failed: seq<Id>, id: Id)
    requires Matching(d, writes) && Rewound(before, d, d1, writes, |writes|, [], failed) && Stuck(d, id)
    ensures Stuck(d1, id)
  {
    var k :| 0 <= k < |ManualDependencies(id)| && HeldShut(d, ManualDependencies(id)[k]);
    var parent := ManualDependencies(id)[k].parent;
    if OneOf(writes, |writes|, parent) {
      var j :| 0 <= j < |writes| && writes[j].descriptor.id == parent;
      assert writes[j] in writes && Barred(before, d, writes[j]);
    }
    assert HeldShut(d1, ManualDependencies(id)[k]);
  }

  lemma {:induction false} RewoundReports(start: Device, d: Device, d1: Device, writes: seq<PreparedWrite>,
          failed: seq<Id>, i: nat)
    requires Matching(d, writes) && Retraceable(start.values, d, writes, |writes|) && i < |writes|
    requires Rewound(start.values, d, d1, writes, |writes|, [], failed) && d.info == start.info
    requires writes[i].descriptor.id in start.values
    ensures ReportsTruly(start, d1, writes, failed, writes[i])
  {
    var w := writes[i];
    assert w in writes;
    if Barred(start.values, d, w) && w.descriptor.readable {
      StuckHasLateParent(start.values, d, writes, i);
      StuckAfter(start.values, d, d1, writes, failed, w.descriptor.id);
    }
  }

  lemma {:induction false} RollbackComplete(start: Device, d: Device, prepared: seq<PreparedWrite>,
          previous: seq<Option<int>>)
    requires Ready(start, d, prepared, previous)
    ensures var (d1, report) := Rollback(d, prepared, previous);
            Retraced(start, d1, prepared, report) && Quiet(d1.undo)
            && (report.failed == [] ==> Ready(start, d1, prepared, previous))
  {
    var writes := InOrder(prepared);
    var (d1, report) := Rollback(d, prepared, previous);
    RollbackFailsExactly(start, d, prepared, previous);
    RollbackFrame(d, prepared, previous);
    QuietIsExact(start.undo);
    RollbackRestores(start, d, prepared, previous);
    forall w | w in writes ensures ReportsTruly(start, d1, writes, report.failed, w) {
      var i :| 0 <= i < |writes| && writes[i] == w;
      RewoundReports(start, d, d1, writes, report.failed, i);
    }
    forall id | id in report.failed ensures exists w :: w in writes && w.descriptor.id == id {
      var i :| 0 <= i < |writes| && writes[i].descriptor.id == id;
      assert writes[i] in writes;
    }
  }

  /** What of `Ready` a write can change. */
  lemma {:induction false} StillReady(start: Device, d: Device, d1: Device, prepared: seq<PreparedWrite>,
          previous: seq<Option<int>>)
    requires Ready(start, d, prepared, previous) && d1.info == d.info && d1.undo == d.undo
    requires Undoable(start, d1, prepared, previous)
    requires Retraceable(start.values, d1, InOrder(prepared), |InOrder(prepared)|)
    ensures Ready(start, d1, prepared, previous)
  {
  }

  lemma {:induction false} PartsInOrder(prepared: seq<PreparedWrite>)
    ensures var k := |Prerequisites(prepared)|;
            && InOrder(prepared)[0..k] == Prerequisites(prepared)
            && InOrder(prepared)[k..|InOrder(prepared)|] == Requested(prepared)
  {
  }

  lemma {:induction false} PrerequisitesReady(start: Device, d: Device, prepared: seq<PreparedWrite>,
          previous: seq<Option<int>>)
    requires Ready(start, d, prepared, previous) && d.values == start.values
    ensures var d1 := SetAll(d, Prerequisites(prepared)).0;
            Ready(start, d1, prepared, previous)
                && Retraceable(start.values, d1, InOrder(prepared), |Prerequisites(prepared)|)
  {
    var writes := InOrder(prepared);
    var k := |Prerequisites(prepared)|;
    PartsInOrder(prepared);
    PartsAreMembers(prepared);
    SetAllFrame(d, Prerequisites(prepared));
    var d1 := SetAll(d, Prerequisites(prepared)).0;
    assert Retraceable(start.values, d, writes, 0);
    SetAllRetraceable(start.values, d, writes, 0, k);
    RetraceableWidens(start.values, d1, writes, k, |writes|);
    SetAllUndoable(start, d, prepared, previous, Prerequisites(prepared));
    StillReady(start, d, d1, prepared, previous);
  }

  lemma {:induction false} RequestedReady(start: Device, d: Device, prepared: seq<PreparedWrite>,
          previous: seq<Option<int>>)
    requires Ready(start, d, prepared, previous)
    requires Retraceable(start.values, d, InOrder(prepared), |Prerequisites(prepared)|)
    ensures Ready(start, SetAll(d, Requested(prepared)).0, prepared, previous)
  {
    var writes := InOrder(prepared);
    PartsInOrder(prepared);
    PartsAreMembers(prepared);
    SetAllFrame(d, Requested(prepared));
    SetAllRetraceable(start.values, d, writes, |Prerequisites(prepared)|, |writes|);
    SetAllUndoable(start, d, prepared, previous, Requested(prepared));
    StillReady(start, d, SetAll(d, Requested(prepared)).0, prepared, previous);
  }

  lemma {:induction false} StoreReady(start: Device, d: Device, d1: Device, prepared: seq<PreparedWrite>,
          previous: seq<Option<int>>)
    requires Ready(start, d, prepared, previous) && SameStore(d, d1) && d1.undo == d.undo
    ensures Ready(start, d1, prepared, previous)
  {
    RetraceableStore(start.values, d, d1, InOrder(prepared), |InOrder(prepared)|);
  }

  /** Verifying ends at the failed opening, applied, or with a rollback. */
  lemma {:induction false} VerifyUnrolls(d: Device, prepared: seq<PreparedWrite>, previous: seq<Option<int>>,
          batched: bool, fallbackUsed: bool, index: Option<nat>)
    requires d.Valid() && |prepared| == |previous|
    ensures var d1 := OpenNode(d).0;
            d1.Valid() && var (d2, changes) := Readback(d1, prepared, previous);
            var result := Verify(d, prepared, previous, batched, fallbackUsed, index);
            && d2.Valid() && SameStore(d, d2) && d2.undo == d.undo
            && (|| result == (d1, ReopenFailed)
                || result == (d2, Applied(changes, batched, fallbackUsed, index))
                || result == Abort(d2, prepared, previous, index, true))
  {
    ReadbackFrame(OpenNode(d).0, prepared, previous);
  }

  lemma {:induction false} VerifyComplete(start: Device, d: Device, prepared: seq<PreparedWrite>,
          previous: seq<Option<int>>, batched: bool, fallbackUsed: bool, index: Option<nat>)
    requires Ready(start, d, prepared, previous)
    ensures var (d1, outcome) := Verify(d, prepared, previous, batched, fallbackUsed, index);
            EndsRetraced(start, d1, prepared, outcome)
  {
    VerifyUnrolls(d, prepared, previous, batched, fallbackUsed, index);
    var d2 := Readback(OpenNode(d).0, prepared, previous).0;
    StoreReady(start, d, d2, prepared, previous);
    RollbackComplete(start, d2, prepared, previous);
  }

  lemma {:induction false} FallbackComplete(start: Device, d: Device, prepared: seq<PreparedWrite>,
          previous: seq<Option<int>>, index: nat)
    requires Ready(start, d, prepared, previous)
    ensures var (d1, outcome) := Fallback(d, prepared, previous, index);
            EndsRetraced(start, d1, prepared, outcome)
  {
    RollbackComplete(start, d, prepared, previous);
    var (d1, report) := Rollback(d, prepared, previous);
    FallbackUnrolls(d, prepared, previous, index);
    if report.failed == [] { AgainComplete(start, d1, prepared, previous, index); }
  }

  /** A fallback ends with its own rollback, or as one of the three ends of
    * writing again. */
  lemma {:induction false} FallbackUnrolls(d: Device, prepared: seq<PreparedWrite>, previous: seq<Option<int>>,
          index: nat)
    requires d.Valid() && |prepared| == |previous|
    ensures var (d1, report) := Rollback(d, prepared, previous);
            var d2 := SetAll(d1, Prerequisites(prepared)).0;
            var d3 := SetAll(d2, Requested(prepared)).0;
            && d1.Valid() && d2.Valid() && d3.Valid()
            && var result := Fallback(d, prepared, previous, index);
               if report.failed != [] then result == (d1, Undone(true, Some(index), report))
               else
                 || result == Abort(d2, prepared, previous, Some(index), false)
                 || result == Abort(d3, prepared, previous, Some(index), false)
                 || result == Verify(d3, prepared, previous, true, true, Some(index))
  {
    RollbackFrame(d, prepared, previous);
    var d1 := Rollback(d, prepared, previous).0;
    SetAllFrame(d1, Prerequisites(prepared));
    SetAllFrame(SetAll(d1, Prerequisites(prepared)).0, Requested(prepared));
  }

  /** Everything written again, one by one, on a device that is as it was. */
  lemma {:induction false} AgainComplete(start: Device, d: Device, prepared: seq<PreparedWrite>,
          previous: seq<Option<int>>, index: nat)
    requires Ready(start, d, prepared, previous) && d.values == start.values
    ensures var (d1, failed) := SetAll(d, Prerequisites(prepared));
            var (d2, again) := SetAll(d1, Requested(prepared));
            && Ready(start, d1, prepared, previous) && Ready(start, d2, prepared, previous)
            && (var (d3, outcome) := Abort(d1, prepared, previous, Some(index), false);
                EndsRetraced(start, d3, prepared, outcome))
            && (var (d3, outcome) := Abort(d2, prepared, previous, Some(index), false);
                EndsRetraced(start, d3, prepared, outcome))
            && (var (d3, outcome) := Verify(d2, prepared, previous, true, true, Some(index));
                EndsRetraced(start, d3, prepared, outcome))
  {
    PrerequisitesReady(start, d, prepared, previous);
    var d1 := SetAll(d, Prerequisites(prepared)).0;
    RollbackComplete(start, d1, prepared, previous);
    RewriteComplete(start, d1, prepared, previous, index);
  }

  lemma {:induction false} RewriteComplete(start: Device, d: Device, prepared: seq<PreparedWrite>,
          previous: seq<Option<int>>, index: nat)
    requires Ready(start, d, prepared, previous)
    requires Retraceable(start.values, d, InOrder(prepared), |Prerequisites(prepared)|)
    ensures var (d1, failed) := SetAll(d, Requested(prepared));
            && Ready(start, d1, prepared, previous)
            && (var (d2, outcome) := Abort(d1, prepared, previous, Some(index), false);
                EndsRetraced(start, d2, prepared, outcome))
            && (var (d2, outcome) := Verify(d1, prepared, previous, true, true, Some(index));
                EndsRetraced(start, d2, prepared, outcome))
  {
    RequestedReady(start, d, prepared, previous);
    var (d1, failed) := SetAll(d, Requested(prepared));
    RollbackComplete(start, d1, prepared, previous);
    VerifyComplete(start, d1, prepared, previous, true, true, Some(index));
  }

  lemma {:induction false} BatchComplete(start: Device, d: Device, prepared: seq<PreparedWrite>,
          previous: seq<Option<int>>, fallback: bool)
    requires Ready(start, d, prepared, previous) && Requested(prepared) != []
    requires Ready(start, SetAll(d, Requested(prepared)).0, prepared, previous)
    ensures var (d1, failed) := SetBatch(d, Requested(prepared));
            && Ready(start, d1, prepared, previous)
            && (var (d2, outcome) := Verify(d1, prepared, previous, true, false, None);
                EndsRetraced(start, d2, prepared, outcome))
            && (failed.Some? ==>
                  && (var (d2, outcome) := Fallback(d1, prepared, previous, failed.value);
                      EndsRetraced(start, d2, prepared, outcome))
                  && (var (d2, outcome) := Abort(d1, prepared, previous, failed, false);
                      EndsRetraced(start, d2, prepared, outcome)))
  {
    var (d1, failed) := SetBatch(d, Requested(prepared));
    VerifyComplete(start, d1, prepared, previous, true, false, None);
    RollbackComplete(start, d1, prepared, previous);
    if failed.Some? { FallbackComplete(start, d1, prepared, previous, failed.value); }
  }

  lemma {:induction false} SubmitComplete(start: Device, d: Device, prepared: seq<PreparedWrite>,
          previous: seq<Option<int>>, fallback: bool, batched: bool)
    requires Ready(start, d, prepared, previous) && Requested(prepared) != []
    requires Retraceable(start.values, d, InOrder(prepared), |Prerequisites(prepared)|)
    ensures var (d1, outcome) := Submit(d, prepared, previous, fallback, batched);
            EndsRetraced(start, d1, prepared, outcome)
  {
    var writes := Requested(prepared);
    RequestedReady(start, d, prepared, previous);
    if batched || |writes| > 1 {
      BatchComplete(start, d, prepared, previous, fallback);
    } else {
      var d1 := SetAll(d, writes).0;
      SingleWrite(d, writes);
      RollbackComplete(start, d1, prepared, previous);
      VerifyComplete(start, d1, prepared, previous, false, false, None);
    }
  }

  /** None of the first `n` answers is a failure. */
  predicate Answers(script: seq<Fault>, n: nat) {
    n == 0 || script == [] || (!script[0].Fails? && Answers(script[1..], n - 1))
  }

  lemma {:induction false} SnapshotComplete(d: Device, prepared: seq<PreparedWrite>)
    requires d.Valid() && Undoables(d, d.values, prepared)
    requires Answers(d.forward, |prepared|)
    ensures var previous := Snapshot(d, prepared).1;
            forall i :: 0 <= i < |prepared| ==>
              prepared[i].descriptor.id in d.values && previous[i] == Kept(prepared[i], d.values).previous
    decreases |prepared|
  {
    if prepared != [] {
      var d1 := Get(d, Forward, prepared[0].descriptor.id).0;
      assert prepared[0] in prepared;
      SnapshotComplete(d1, prepared[1..]);
    }
  }

  lemma {:induction false} RequeriedComplete(start: Device, d: Device, prepared: seq<PreparedWrite>,
          previous: seq<Option<int>>, fallback: bool, batched: bool)
    requires Ready(start, d, prepared, previous) && Requested(prepared) != []
    requires Retraceable(start.values, d, InOrder(prepared), |Prerequisites(prepared)|)
    ensures var d1 := Requery(d, Requested(prepared)).0;
            && Ready(start, d1, prepared, previous)
            && (var (d2, outcome) := Abort(d1, prepared, previous, None, false);
                EndsRetraced(start, d2, prepared, outcome))
            && (var (d2, outcome) := Submit(d1, prepared, previous, fallback, batched);
                EndsRetraced(start, d2, prepared, outcome))
  {
    RequeryFrame(d, Requested(prepared));
    var d1 := Requery(d, Requested(prepared)).0;
    StoreReady(start, d, d1, prepared, previous);
    RetraceableStore(start.values, d, d1, InOrder(prepared), |Prerequisites(prepared)|);
    RollbackComplete(start, d1, prepared, previous);
    SubmitComplete(start, d1, prepared, previous, fallback, batched);
  }

  lemma {:induction false} WriteComplete(start: Device, d: Device, prepared: seq<PreparedWrite>,
          previous: seq<Option<int>>, fallback: bool, batched: bool)
    requires Ready(start, d, prepared, previous) && d.values == start.values && Requested(prepared) != []
    ensures var (d1, outcome) := Write(d, prepared, previous, fallback, batched);
            EndsRetraced(start, d1, prepared, outcome)
  {
    PrerequisitesReady(start, d, prepared, previous);
    var d1 := SetAll(d, Prerequisites(prepared)).0;
    RollbackComplete(start, d1, prepared, previous);
    RequeriedComplete(start, d1, prepared, previous, fallback, batched);
  }

  lemma {:induction false} UndoablesInOrder(d: Device, before: map<Id, int>, prepared: seq<PreparedWrite>)
    requires Undoables(d, before, prepared)
    ensures Undoables(d, before, InOrder(prepared))
  {
    PartsAreMembers(prepared);
  }

  /** Nothing written yet, and the snapshot taken. */
  lemma {:induction false} UnwrittenReady(start: Device, d: Device, prepared: seq<PreparedWrite>,
          previous: seq<Option<int>>)
    requires start.Valid() && SameStore(start, d) && d.undo == start.undo && Quiet(start.undo)
    requires Recorded(start.values, prepared, previous)
    requires forall i :: 0 <= i < |prepared| ==>
               prepared[i].descriptor.id in start.values && previous[i] == Kept(prepared[i], start.values).previous
    requires Distinct(InOrder(prepared)) && Undoables(start, start.values, InOrder(prepared))
    ensures Ready(start, d, prepared, previous)
  {
    assert Retraceable(start.values, d, InOrder(prepared), |InOrder(prepared)|);
  }

  lemma {:induction false} SnapshotReady(d: Device, prepared: seq<PreparedWrite>)
    requires d.Valid() && Distinct(InOrder(prepared))
    requires Undoables(d, d.values, prepared) && Answers(d.forward, |prepared|) && Quiet(d.undo)
    ensures var (d1, previous) := Snapshot(OpenNode(d).0, prepared);
            var d2 := OpenNode(d1).0;
            d2.values == d.values && Ready(d, d2, prepared, previous)
  {
    var d0 := OpenNode(d).0;
    SnapshotFrame(d0, prepared);
    SnapshotRecords(d0, prepared);
    SnapshotComplete(d0, prepared);
    UndoablesInOrder(d, d.values, prepared);
    var (d1, previous) := Snapshot(d0, prepared);
    UnwrittenReady(d, OpenNode(d1).0, prepared, previous);
  }

  /** The report of a rollback is true on a gated driver.  With distinct controls,
    * none of them also an inserted prerequisite, holding acceptable values that the
    * snapshot could read where they can be read at all, and no fault while rolling
    * back: from every point at which the forward operations may fail, and whatever
    * they stored, the report lists a control exactly when it cannot be read or did
    * not come back; one that can be read did not come back only where a parent of
    * it that cannot be read was written after it and holds its gate shut. */
  lemma {:induction false} RollbackReportsTruly(d: Device, prepared: seq<PreparedWrite>, fallback: bool, batched: bool)
    requires d.Valid() && Requested(prepared) != []
    requires Distinct(InOrder(prepared)) && Undoables(d, d.values, prepared)
    requires Answers(d.forward, |prepared|) && Quiet(d.undo)
    ensures var (after, outcome) := ExecutePrepared(d, prepared, fallback, batched, false);
            EndsRetraced(d, after, prepared, outcome)
  {
    var (d0, isOpen) := OpenNode(d);
    if prepared != [] && isOpen {
      SnapshotReady(d, prepared);
      var (d1, previous) := Snapshot(d0, prepared);
      SnapshotFrame(d0, prepared);
      var (d2, writable) := OpenNode(d1);
      if writable {
        WriteComplete(d, d2, prepared, previous, fallback, batched);
        assert ExecutePrepared(d, prepared, fallback, batched, false) ==
               Write(d2, prepared, previous, fallback, batched);
      }
    }
  }

  /** No control that can be read is listed as failed and each holds its old
    * value; when all prepared controls can be read, nothing is listed and nothing
    * changed. */
  predicate ReadableBack(start: Device, after: Device, prepared: seq<PreparedWrite>, report: RollbackReport) {
    && OnlyUnreadable(prepared, report.failed) && SameReadable(start.values, after)
    && ((forall w :: w in prepared ==> w.descriptor.readable) ==> report.failed == [] && after.values == start.values)
  }

  lemma {:induction false} RetracedIsBack(start: Device, after: Device, prepared: seq<PreparedWrite>,
          report: RollbackReport)
    requires Retraced(start, after, prepared, report) && NoLateUnreadable(InOrder(prepared))
             && Matching(start, prepared)
    ensures ReadableBack(start, after, prepared, report)
  {
    var writes := InOrder(prepared);
    PartsAreMembers(prepared);
    forall w | w in writes && w.descriptor.readable
      ensures w.descriptor.id in after.values && after.values[w.descriptor.id] == start.values[w.descriptor.id]
    {
      assert ReportsTruly(start, after, writes, report.failed, w);
      NoLateParent(writes, w.descriptor.id);
    }
    forall id | id in report.failed
      ensures exists w :: w in prepared && w.descriptor.id == id && !w.descriptor.readable
    {
      var w :| w in writes && w.descriptor.id == id;
      assert ReportsTruly(start, after, writes, report.failed, w);
    }
    forall id | id in start.values && id in after.info && after.info[id].readable
      ensures after.values[id] == start.values[id]
    {
      if id in Ids(prepared) {
        var w :| w in prepared && w.descriptor.id == id;
        assert w in writes;
      }
    }
    if report.failed != [] { assert report.failed[0] in report.failed; }
  }

  lemma {:induction false} NoLateParent(writes: seq<PreparedWrite>, id: Id)
    requires NoLateUnreadable(writes)
    ensures !LateParent(writes, id)
  {
  }

  /** Rollback order is right on a gated driver: when moreover no control that
    * cannot be read is written after a dependent of it, no restore of a readable
    * control fails and each holds its old value.  When all can be read nothing
    * fails and the device is as it was. */
  lemma {:induction false} RollbackNeverMeetsClosedGate(d: Device, prepared: seq<PreparedWrite>, fallback: bool,
          batched: bool)
    requires d.Valid() && Requested(prepared) != []
    requires Distinct(InOrder(prepared)) && NoLateUnreadable(InOrder(prepared)) && Undoables(d, d.values, prepared)
    requires Answers(d.forward, |prepared|)
    requires Quiet(d.undo)
    ensures var (after, outcome) := ExecutePrepared(d, prepared, fallback, batched, false);
            outcome.Undone? ==> ReadableBack(d, after, prepared, outcome.rollback)
  {
    RollbackReportsTruly(d, prepared, fallback, batched);
    var (after, outcome) := ExecutePrepared(d, prepared, fallback, batched, false);
    if outcome.Undone? { RetracedIsBack(d, after, prepared, outcome.rollback); }
  }
}
