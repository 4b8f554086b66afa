/** What a vendor transaction reports is so: a transaction that says it is done
  * left every selector reading as asked, and an undo that says it restored left
  * it reading as before. */
module VendorReport {
  import opened Wrappers
  import opened Codec
  import opened Vendor
  import opened VendorGroup

  /** The same value, or two numbers at most the tolerance of the field apart. */
  predicate Close(field: Field, want: Value, got: Value) {
    || got == want
    || (want.Number? && got.Number? && want.number - field.tolerance <= got.number <= want.number + field.tolerance)
  }

  /** The selector of the field reads as wanted. */
  predicate InPlace(selectors: Selectors, field: Field, want: Value) {
    && Validated(field.control) && field.key in selectors
    && Decode(field.control, selectors[field.key]).Some?
    && Close(field, want, Decode(field.control, selectors[field.key]).value)
  }

  lemma {:induction false} MatchesIsClose(field: Field, want: Value, got: Value)
    ensures Matches(field, want, got) <==> Close(field, want, got)
  {
  }

  lemma {:induction false} ReadBackIsThere(selectors: Selectors, field: Field, answer: Answer, want: Value)
    requires Validated(field.control)
    requires ReadBack(selectors, field, answer).Some? && Matches(field, want, ReadBack(selectors, field, answer).value)
    ensures InPlace(selectors, field, want)
  {
    MatchesIsClose(field, want, ReadBack(selectors, field, answer).value);
  }

  /** A transfer leaves the other selectors alone. */
  lemma {:induction false} StoredElsewhere(selectors: Selectors, key: Key, answer: Answer, payload: seq<Byte>,
          field: Field, want: Value)
    requires field.key != key && InPlace(selectors, field, want)
    ensures InPlace(Stored(selectors, key, answer, payload), field, want)
  {
  }

  // ------------------------------------------------------------------- being done

  /** No write between `i` and `n` goes to the selector of write `i`. */
  predicate LastTo(prepared: seq<Prepared>, i: nat, n: nat)
    requires i < n <= |prepared|
  {
    forall k :: i < k < n ==> prepared[k].field.key != prepared[i].field.key
  }

  /** Of the first `n` writes, the last to each selector is in place. */
  predicate LastInPlace(selectors: Selectors, prepared: seq<Prepared>, n: nat) {
    n <= |prepared|
    && forall i :: 0 <= i < n && LastTo(prepared, i, n) ==> InPlace(selectors, prepared[i].field, prepared[i].requested)
  }

  lemma {:induction false} OneMoreInPlace(camera: Camera, prepared: seq<Prepared>, n: nat)
    requires Checked(prepared) && n < |prepared| && LastInPlace(camera.selectors, prepared, n)
    requires var (camera1, observed) := ApplyOne(camera, prepared[n].field, prepared[n].payload);
             observed.Some? && Matches(prepared[n].field, prepared[n].requested, observed.value)
    ensures LastInPlace(ApplyOne(camera, prepared[n].field, prepared[n].payload).0.selectors, prepared, n + 1)
  {
    var p := prepared[n];
    var answer := First(camera.forward);
    var now := Stored(camera.selectors, p.field.key, answer, p.payload);
    forall i | 0 <= i < n + 1 && LastTo(prepared, i, n + 1)
      ensures InPlace(now, prepared[i].field, prepared[i].requested)
    {
      if i == n {
        ReadBackIsThere(now, p.field, answer, p.requested);
      } else {
        assert LastTo(prepared, i, n) && prepared[n].field.key != prepared[i].field.key;
        StoredElsewhere(camera.selectors, p.field.key, answer, p.payload, prepared[i].field, prepared[i].requested);
      }
    }
  }

  lemma {:induction false} RunInPlace(camera: Camera, prepared: seq<Prepared>, index: nat)
    requires Checked(prepared) && index <= |prepared| && LastInPlace(camera.selectors, prepared, index)
    ensures var (after, outcome) := RunFrom(camera, prepared, index);
            && !outcome.Refused?
            && (outcome.Done? ==> LastInPlace(after.selectors, prepared, |prepared|))
            && (outcome.Failed? ==> index <= outcome.index < |prepared| && |outcome.rollback| == outcome.index + 1)
    decreases |prepared| - index
  {
    if index < |prepared| {
      var p := prepared[index];
      var (camera1, observed) := ApplyOne(camera, p.field, p.payload);
      if observed.Some? && Matches(p.field, p.requested, observed.value) {
        OneMoreInPlace(camera, prepared, index);
        RunInPlace(camera1, prepared, index + 1);
      } else {
        RollbackLength(camera1, prepared[..index + 1]);
      }
    }
  }

  lemma {:induction false} RollbackLength(camera: Camera, prepared: seq<Prepared>)
    requires Checked(prepared)
    ensures |RollbackWrites(camera, prepared).1| == |prepared|
    decreases |prepared|
  {
    if prepared != [] {
      RollbackLength(RollbackOne(camera, prepared[|prepared| - 1]).0, prepared[..|prepared| - 1]);
    }
  }

  /** The value a write asks for, as the control reads it. */
  function Wanted(w: FieldWrite): Option<Value> {
    var raw := Parse(w.field.control, w.input);
    if raw.None? then None else Some(Meaning(w.field.control, raw.value))
  }

  lemma {:induction false} PreparedWants(w: FieldWrite, baseline: seq<Byte>)
    requires Validated(w.field.control) && PrepareOne(w, baseline).Some?
    ensures Wanted(w) == Some(PrepareOne(w, baseline).value.requested)
  {
    DecodableFits(w.field.control, w.input, baseline);
    ReadAfterWrite(w.field.control, w.input, baseline);
  }

  predicate NoLater(writes: seq<FieldWrite>, i: nat)
    requires i < |writes|
  {
    forall k :: i < k < |writes| ==> writes[k].field.key != writes[i].field.key
  }

  /** Reported success is true on every camera, whatever its transfers leave and
    * say: when a semantic transaction is done, the last write to every selector
    * reads there as it was asked for, within the tolerance of its field.  When it
    * is not, it was refused before any transfer, or it stopped at one of its writes
    * and undid that write and those before it, each once. */
  lemma {:induction false} DoneIsTrue(camera: Camera, writes: seq<FieldWrite>)
    requires forall w :: w in writes ==> Validated(w.field.control)
    ensures var (after, outcome) := RunWrites(camera, writes);
            && (outcome.Done? ==>
                  forall i :: 0 <= i < |writes| && NoLater(writes, i) ==>
                    Wanted(writes[i]).Some? && InPlace(after.selectors, writes[i].field, Wanted(writes[i]).value))
            && (outcome.Refused? ==> after == camera)
            && (outcome.Failed? ==> outcome.index < |writes| && |outcome.rollback| == outcome.index + 1)
  {
    var planned := Plan(camera.selectors, writes);
    if planned.Some? {
      var prepared := planned.value;
      RunInPlace(camera, prepared, 0);
      var (after, outcome) := RunFrom(camera, prepared, 0);
      if outcome.Done? {
        forall i | 0 <= i < |writes| && NoLater(writes, i)
          ensures Wanted(writes[i]).Some? && InPlace(after.selectors, writes[i].field, Wanted(writes[i]).value)
        {
          PlannedWants(camera.selectors, prepared, i);
          LastOfWrites(writes, prepared, i);
        }
      }
    }
  }

  lemma {:induction false} PlannedWants(selectors: Selectors, prepared: seq<Prepared>, i: nat)
    requires Chained(selectors, prepared) && i < |prepared|
    ensures Wanted(FieldWrite(prepared[i].field, prepared[i].input)) == Some(prepared[i].requested)
  {
    ChainedAt(selectors, prepared, i);
    PreparedWants(FieldWrite(prepared[i].field, prepared[i].input), prepared[i].baseline);
  }

  lemma {:induction false} LastOfWrites(writes: seq<FieldWrite>, prepared: seq<Prepared>, i: nat)
    requires Describes(writes, prepared) && i < |writes| && NoLater(writes, i)
    ensures LastTo(prepared, i, |prepared|)
  {
    forall k | i < k < |prepared| ensures prepared[k].field.key != prepared[i].field.key {
      assert FieldWrite(prepared[k].field, prepared[k].input) == writes[k];
      assert FieldWrite(prepared[i].field, prepared[i].input) == writes[i];
    }
  }

  // -------------------------------------------------------------------- the group

  /** A write the group really makes: its value was not there at preparation. */
  predicate Real(p: Prepared) { !Close(p.field, p.requested, p.previous) }

  /** The last real write to its selector among `group[i..]`. */
  predicate LastReal(group: seq<Prepared>, i: nat)
    requires i < |group|
  {
    Real(group[i]) && forall k :: i < k < |group| && Real(group[k]) ==> group[k].field.key != group[i].field.key
  }

  predicate Leaves(group: seq<Prepared>, key: Key) {
    forall p :: p in group && Real(p) ==> p.field.key != key
  }

  /** A group that completes leaves alone what none of its real writes goes to. */
  lemma {:induction false} GroupElsewhere(camera: Camera, group: seq<Prepared>, applied: seq<Applied>, video: bool,
          field: Field, want: Value)
    requires Checked(group) && AllValidated(applied) && Leaves(group, field.key)
    requires InPlace(camera.selectors, field, want)
    ensures var (after, outcome) := ApplyGroup(camera, group, applied, video);
            outcome.Completed? ==> InPlace(after.selectors, field, want)
    decreases |group|
  {
    if group != [] {
      var p := group[0];
      assert p in group;
      MatchesIsClose(p.field, p.requested, p.previous);
      assert forall q :: q in group[1..] ==> q in group;
      if NoOp(p) {
        GroupElsewhere(camera, group[1..], applied, video, field, want);
      } else {
        var live := PrepareLive(camera, p);
        if live.Some? {
          var (camera1, observed) := ApplyOne(AfterReading(camera), p.field, live.value.payload);
          if observed.Some? && Matches(p.field, live.value.requested, observed.value) {
            StoredElsewhere(camera.selectors, p.field.key, First(camera.forward), live.value.payload, field, want);
            GroupElsewhere(camera1, group[1..], applied + [Applied(p.field, live.value.previous)], video, field, want);
          }
        }
      }
    }
  }

  /** A group that completes left, for each of its real writes that is the last to
    * its selector, the value it asked for, within the tolerance of the field. */
  lemma {:induction false} CompletedIsTrue(camera: Camera, group: seq<Prepared>, applied: seq<Applied>, video: bool,
          i: nat)
    requires Checked(group) && AllValidated(applied) && i < |group| && LastReal(group, i)
    ensures var (after, outcome) := ApplyGroup(camera, group, applied, video);
            var wanted := Wanted(FieldWrite(group[i].field, group[i].input));
            outcome.Completed? ==> video && wanted.Some? && InPlace(after.selectors, group[i].field, wanted.value)
    decreases |group|
  {
    var p := group[0];
    MatchesIsClose(p.field, p.requested, p.previous);
    if NoOp(p) {
      LastRealLater(group, i);
      CompletedIsTrue(camera, group[1..], applied, video, i - 1);
      CompletedNeedsVideo(camera, group, applied, video);
    } else {
      var live := PrepareLive(camera, p);
      if live.Some? {
        var (camera1, observed) := ApplyOne(AfterReading(camera), p.field, live.value.payload);
        var next := applied + [Applied(p.field, live.value.previous)];
        if observed.Some? && Matches(p.field, live.value.requested, observed.value) {
          if i > 0 {
            LastRealLater(group, i);
            CompletedIsTrue(camera1, group[1..], next, video, i - 1);
          } else {
            PreparedWants(FieldWrite(p.field, p.input), camera.selectors[p.field.key]);
            ReadBackIsThere(camera1.selectors, p.field, First(camera.forward), live.value.requested);
            LeftAlone(group);
            GroupElsewhere(camera1, group[1..], next, video, p.field, live.value.requested);
          }
          CompletedNeedsVideo(camera1, group[1..], next, video);
        }
      }
    }
  }

  lemma {:induction false} LeftAlone(group: seq<Prepared>)
    requires group != [] && LastReal(group, 0)
    ensures Leaves(group[1..], group[0].field.key)
  {
    forall p | p in group[1..] && Real(p) ensures p.field.key != group[0].field.key {
      var k :| 0 <= k < |group| - 1 && group[1..][k] == p;
      assert group[k + 1] == p;
    }
  }

  lemma {:induction false} LastRealLater(group: seq<Prepared>, i: nat)
    requires i < |group| && LastReal(group, i) && (i == 0 ==> !Real(group[0]))
    ensures 0 < i && LastReal(group[1..], i - 1)
  {
    if i > 0 {
      forall k | i - 1 < k < |group| - 1 && Real(group[1..][k])
        ensures group[1..][k].field.key != group[1..][i - 1].field.key
      {
        assert group[1..][k] == group[k + 1];
      }
    }
  }

  lemma {:induction false} CompletedNeedsVideo(camera: Camera, group: seq<Prepared>, applied: seq<Applied>, video: bool)
    requires Checked(group) && AllValidated(applied)
    ensures ApplyGroup(camera, group, applied, video).1.Completed? ==> video
    decreases |group|
  {
    if group != [] {
      var p := group[0];
      if NoOp(p) {
        CompletedNeedsVideo(camera, group[1..], applied, video);
      } else {
        var live := PrepareLive(camera, p);
        if live.Some? {
          CompletedNeedsVideo(ApplyOne(AfterReading(camera), p.field, live.value.payload).0, group[1..],
                              applied + [Applied(p.field, live.value.previous)], video);
        }
      }
    }
  }

  // ------------------------------------------------------------------ being undone

  lemma {:induction false} UndoOneIsTrue(camera: Camera, field: Field, previous: Value, baseline: seq<Byte>)
    requires Validated(field.control)
    ensures var (camera1, result) := UndoOne(camera, field, previous, baseline);
            && result.Attempted? && (result.restored ==> InPlace(camera1.selectors, field, previous))
            && forall other: Field, want: Value :: other.key != field.key && InPlace(camera.selectors, other, want) ==>
                 InPlace(camera1.selectors, other, want)
  {
    var payload := Encode(field.control, previous, baseline);
    if payload.Some? {
      var answer := First(camera.undo);
      var now := Stored(camera.selectors, field.key, answer, payload.value);
      if ReadBack(now, field, answer).Some? && Matches(field, previous, ReadBack(now, field, answer).value) {
        ReadBackIsThere(now, field, answer, previous);
      }
    }
  }

  /** No older write that can be undone goes to the selector of write `i`. */
  predicate OldestTo(prepared: seq<Prepared>, i: nat)
    requires i < |prepared|
  {
    forall k :: 0 <= k < i && prepared[k].field.policy.ByReadback? ==> prepared[k].field.key != prepared[i].field.key
  }

  predicate NoneTo(prepared: seq<Prepared>, key: Key) {
    forall p :: p in prepared && p.field.policy.ByReadback? ==> p.field.key != key
  }

  lemma {:induction false} RollbackElsewhere(camera: Camera, prepared: seq<Prepared>, field: Field, want: Value)
    requires Checked(prepared) && NoneTo(prepared, field.key) && InPlace(camera.selectors, field, want)
    ensures InPlace(RollbackWrites(camera, prepared).0.selectors, field, want)
    decreases |prepared|
  {
    if prepared != [] {
      var p := prepared[|prepared| - 1];
      assert p in prepared;
      UndoOneIsTrue(camera, p.field, p.previous, p.baseline);
      RollbackElsewhere(RollbackOne(camera, p).0, prepared[..|prepared| - 1], field, want);
    }
  }

  /** What one result of a rollback says of write `i`: it is passed over exactly
    * when its profile forbids rollback, and where the oldest undo of a selector
    * says it restored, the selector reads as before that write. */
  predicate ResultIsTrue(selectors: Selectors, prepared: seq<Prepared>, i: nat, result: Restoring)
    requires i < |prepared| && Checked(prepared)
  {
    && (result.NotAttempted? <==> prepared[i].field.policy.NoRollback?)
    && (result == Attempted(true) && OldestTo(prepared, i) ==>
          InPlace(selectors, prepared[i].field, prepared[i].previous))
  }

  lemma {:induction false} RollbackUnrolls(camera: Camera, prepared: seq<Prepared>)
    requires Checked(prepared) && prepared != []
    ensures var last, rest := prepared[|prepared| - 1], prepared[..|prepared| - 1];
            var (camera1, result) := RollbackOne(camera, last);
            var (camera2, results) := RollbackWrites(camera1, rest);
            RollbackWrites(camera, prepared) == (camera2, [result] + results) && |results| == |rest|
  {
    RollbackLength(RollbackOne(camera, prepared[|prepared| - 1]).0, prepared[..|prepared| - 1]);
  }

  lemma {:induction false} NewestIsTrue(camera: Camera, prepared: seq<Prepared>)
    requires Checked(prepared) && prepared != []
    ensures var last := |prepared| - 1;
            var (camera1, result) := RollbackOne(camera, prepared[last]);
            ResultIsTrue(RollbackWrites(camera1, prepared[..last]).0.selectors, prepared, last, result)
  {
    var last := |prepared| - 1;
    var p := prepared[last];
    assert p in prepared;
    UndoOneIsTrue(camera, p.field, p.previous, p.baseline);
    if RollbackOne(camera, p).1 == Attempted(true) && OldestTo(prepared, last) {
      OldestIsAlone(prepared);
      RollbackElsewhere(RollbackOne(camera, p).0, prepared[..last], p.field, p.previous);
    }
  }

  lemma {:induction false} OlderIsTrue(selectors: Selectors, prepared: seq<Prepared>, i: nat, result: Restoring)
    requires Checked(prepared) && i < |prepared| - 1
    requires ResultIsTrue(selectors, prepared[..|prepared| - 1], i, result)
    ensures ResultIsTrue(selectors, prepared, i, result)
  {
    var rest := prepared[..|prepared| - 1];
    assert rest[i] == prepared[i];
    if OldestTo(prepared, i) {
      assert forall k :: 0 <= k < i ==> rest[k] == prepared[k];
    }
  }

  /** The results of a rollback, newest first, are all true. */
  lemma {:induction false} RollbackIsTrue(camera: Camera, prepared: seq<Prepared>, i: nat)
    requires Checked(prepared) && i < |prepared|
    ensures var (after, results) := RollbackWrites(camera, prepared);
            && |results| == |prepared|
            && ResultIsTrue(after.selectors, prepared, i, results[|prepared| - 1 - i])
    decreases |prepared|
  {
    var n := |prepared| - 1;
    RollbackUnrolls(camera, prepared);
    if i == n {
      NewestIsTrue(camera, prepared);
    } else {
      var camera1 := RollbackOne(camera, prepared[n]).0;
      RollbackIsTrue(camera1, prepared[..n], i);
      var (after, results) := RollbackWrites(camera1, prepared[..n]);
      OlderIsTrue(after.selectors, prepared, i, results[n - 1 - i]);
    }
  }

  lemma {:induction false} OldestIsAlone(prepared: seq<Prepared>)
    requires prepared != [] && OldestTo(prepared, |prepared| - 1)
    ensures NoneTo(prepared[..|prepared| - 1], prepared[|prepared| - 1].field.key)
  {
  }

  predicate Alone(applied: seq<Applied>, key: Key) { forall a :: a in applied ==> a.field.key != key }

  lemma {:induction false} RestoreLiveIsTrue(camera: Camera, a: Applied)
    requires Validated(a.field.control)
    ensures var (camera1, result) := RestoreLive(camera, a);
            && result.Attempted? && (result.restored ==> InPlace(camera1.selectors, a.field, a.previous))
            && forall other: Field, want: Value ::
                other.key != a.field.key && InPlace(camera.selectors, other, want) ==>
                 InPlace(camera1.selectors, other, want)
  {
    if a.field.key in camera.selectors {
      UndoOneIsTrue(AfterReading(camera), a.field, a.previous, camera.selectors[a.field.key]);
    }
  }

  lemma {:induction false} RestoreElsewhere(camera: Camera, applied: seq<Applied>, field: Field, want: Value)
    requires AllValidated(applied) && Alone(applied, field.key) && InPlace(camera.selectors, field, want)
    ensures InPlace(RestoreGroup(camera, applied).0.selectors, field, want)
    decreases |applied|
  {
    if applied != [] {
      var a := applied[|applied| - 1];
      assert a in applied;
      RestoreLiveIsTrue(camera, a);
      RestoreElsewhere(RestoreLive(camera, a).0, applied[..|applied| - 1], field, want);
    }
  }

  lemma {:induction false} RestoreLength(camera: Camera, applied: seq<Applied>)
    requires AllValidated(applied)
    ensures |RestoreGroup(camera, applied).1| == |applied|
    decreases |applied|
  {
    if applied != [] {
      RestoreLength(RestoreLive(camera, applied[|applied| - 1]).0, applied[..|applied| - 1]);
    }
  }

  /** The same of the group's undo over live baselines: every applied write has a
    * result, and where the oldest of a selector says it restored, the selector
    * reads as before that write. */
  lemma {:induction false} RestoreIsTrue(camera: Camera, applied: seq<Applied>, i: nat)
    requires AllValidated(applied) && i < |applied|
    ensures var (after, results) := RestoreGroup(camera, applied);
            && |results| == |applied| && results[|applied| - 1 - i].Attempted?
            && (results[|applied| - 1 - i].restored && Alone(applied[..i], applied[i].field.key) ==>
                  InPlace(after.selectors, applied[i].field, applied[i].previous))
    decreases |applied|
  {
    var n := |applied| - 1;
    var a, rest := applied[n], applied[..n];
    var (camera1, result) := RestoreLive(camera, a);
    RestoreLiveIsTrue(camera, a);
    RestoreLength(camera1, rest);
    if i == n {
      if result.restored && Alone(rest, a.field.key) { RestoreElsewhere(camera1, rest, a.field, a.previous); }
    } else {
      assert applied[..i] == rest[..i];
      RestoreIsTrue(camera1, rest, i);
    }
  }

  lemma {:induction false} ObedientTail(script: seq<Answer>)
    requires Obedient(script)
    ensures First(script) == Exact && Obedient(Vendor.Tail(script))
  {
    if script != [] {
      assert script[0] in script;
      assert forall a :: a in script[1..] ==> a in script;
    }
  }

  /** On a camera that obeys, the undo of a write that started from faithful bytes
    * reports that it restored. */
  lemma {:induction false} ObedientUndo(camera: Camera, p: Prepared)
    requires Validated(p.field.control) && Obedient(camera.undo) && p.field.policy.ByReadback?
    requires Faithful(p.field.control, p.baseline) && Decode(p.field.control, p.baseline) == Some(p.previous)
    ensures var (camera1, result) := RollbackOne(camera, p);
            result == Attempted(true) && camera1.selectors == camera.selectors[p.field.key := p.baseline]
            && Obedient(camera1.undo)
  {
    ObedientTail(camera.undo);
    PutBackExact(p.field.control, p.baseline);
    var now := camera.selectors[p.field.key := p.baseline];
    assert UndoOne(camera, p.field, p.previous, p.baseline) ==
           (camera.(selectors := now, undo := Vendor.Tail(camera.undo)),
            Attempted(ReadBack(now, p.field, Exact).Some? &&
                      Matches(p.field, p.previous, ReadBack(now, p.field, Exact).value)));
  }

  lemma {:induction false} ObedientRollback(camera: Camera, prepared: seq<Prepared>)
    requires Checked(prepared) && Obedient(camera.undo)
    requires forall p :: p in prepared ==>
               && p.field.policy.ByReadback? && Faithful(p.field.control, p.baseline)
               && Decode(p.field.control, p.baseline) == Some(p.previous)
    ensures forall r :: r in RollbackWrites(camera, prepared).1 ==> r == Attempted(true)
    decreases |prepared|
  {
    if prepared != [] {
      var p := prepared[|prepared| - 1];
      assert p in prepared;
      ObedientUndo(camera, p);
      ObedientRollback(RollbackOne(camera, p).0, prepared[..|prepared| - 1]);
    }
  }
}
