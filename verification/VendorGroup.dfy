/** The preset's vendor group: prepared against a simulated selector map, then
  * applied over live baselines with the no-op writes left out, and undone over
  * live baselines. */
module VendorGroup {
  import opened Wrappers
  import opened Codec
  import opened Vendor

  /** What a later undo knows about a write. */
  datatype Applied = Applied(field: Field, previous: Value)

  /** `Abandoned` is an error returned with the earlier writes left in place. */
  datatype GroupOutcome = Completed(applied: seq<Applied>) | Abandoned(kept: seq<Applied>)
    | Undone(rollback: seq<Restoring>)

  predicate NoOp(p: Prepared) { Matches(p.field, p.requested, p.previous) }

  function Readable(baselines: seq<bool>): bool { baselines == [] || baselines[0] }

  function AfterReading(camera: Camera): Camera {
    camera.(baselines := if camera.baselines == [] then [] else camera.baselines[1..])
  }

  predicate AllValidated(applied: seq<Applied>) {
    forall a :: a in applied ==> Validated(a.field.control)
  }

  /** One undo over the bytes found in the selector now. */
  function RestoreLive(camera: Camera, a: Applied): (Camera, Restoring)
    requires Validated(a.field.control)
  {
    var camera1 := AfterReading(camera);
    if !Readable(camera.baselines) || a.field.key !in camera.selectors then (camera1, Attempted(false))
    else UndoOne(camera1, a.field, a.previous, camera.selectors[a.field.key])
  }

  function RestoreGroup(camera: Camera, applied: seq<Applied>): (Camera, seq<Restoring>)
    requires AllValidated(applied)
    decreases |applied|
  {
    if applied == [] then (camera, [])
    else
      var (camera1, result) := RestoreLive(camera, applied[|applied| - 1]);
      var (camera2, results) := RestoreGroup(camera1, applied[..|applied| - 1]);
      (camera2, [result] + results)
  }

  /** A write prepared again over the bytes found in the selector now. */
  function PrepareLive(camera: Camera, p: Prepared): Option<Prepared>
    requires Validated(p.field.control)
  {
    if !Readable(camera.baselines) || p.field.key !in camera.selectors then None
    else PrepareOne(FieldWrite(p.field, p.input), camera.selectors[p.field.key])
  }

  /** `video` tells whether the video format can be put back at the end. */
  function ApplyGroup(camera: Camera, group: seq<Prepared>, applied: seq<Applied>, video: bool): (Camera, GroupOutcome)
    requires Checked(group) && AllValidated(applied)
    decreases |group|
  {
    if group == [] then (camera, if video then Completed(applied) else Abandoned(applied))
    else
      var p := group[0];
      if NoOp(p) then ApplyGroup(camera, group[1..], applied, video)
      else
        var live := PrepareLive(camera, p);
        if live.None? then (AfterReading(camera), Abandoned(applied))
        else
          var (camera1, observed) := ApplyOne(AfterReading(camera), p.field, live.value.payload);
          var attempted := applied + [Applied(p.field, live.value.previous)];
          if observed.Some? && Matches(p.field, live.value.requested, observed.value) then
              ApplyGroup(camera1, group[1..], attempted, video)
          else
            var (camera2, results) := RestoreGroup(camera1, attempted);
            (camera2, Undone(results))
  }

  // ------------------------------------------------ the preview and the real run

  /** The bytes every selector holds once exactly `prepared` is in place. */
  function Simulated(selectors: Selectors, prepared: seq<Prepared>): Selectors {
    map key | key in selectors :: Latest(selectors, prepared, key)
  }

  /** A zero-tolerance write that may be skipped: it starts from bytes the codec
    * can put back. */
  predicate Previewable(p: Prepared)
    requires Validated(p.field.control)
  {
    p.field.tolerance == 0 && (NoOp(p) ==> Faithful(p.field.control, p.baseline))
  }

  predicate Obedient(script: seq<Answer>) {
    forall a :: a in script ==> a == Exact
  }

  lemma {:induction false} SimulatedGrows(selectors: Selectors, before: seq<Prepared>, p: Prepared)
    requires p.field.key in selectors
    ensures Simulated(selectors, before + [p]) == Simulated(selectors, before)[p.field.key := p.payload]
  {
    assert (before + [p])[..|before|] == before;
  }

  lemma {:induction false} ZeroToleranceIsEquality(field: Field, a: Value, b: Value)
    requires field.tolerance == 0
    ensures Matches(field, a, b) <==> a == b
  {
  }

  /** A no-op write changes no simulated byte exactly when its bytes are faithful. */
  lemma {:induction false} NoOpKeepsBytesExactly(selectors: Selectors, before: seq<Prepared>, p: Prepared)
    requires Linked(selectors, before, p) && p.field.tolerance == 0 && NoOp(p)
    ensures Simulated(selectors, before + [p]) == Simulated(selectors, before) <==>
            Faithful(p.field.control, p.baseline)
  {
    ZeroToleranceIsEquality(p.field, p.requested, p.previous);
    SkippableExact(p.field.control, p.input, p.baseline);
    SimulatedGrows(selectors, before, p);
    assert Simulated(selectors, before)[p.field.key] == p.baseline;
    if Simulated(selectors, before + [p]) == Simulated(selectors, before) {
      assert Simulated(selectors, before + [p])[p.field.key] == p.payload;
    } else {
      assert p.payload != p.baseline;
    }
  }

  /** Where the run stops: the first write whose live baseline cannot be read. */
  function StopAt(group: seq<Prepared>, baselines: seq<bool>): (n: nat)
    ensures n <= |group|
    decreases |group|
  {
    if group == [] then 0
    else if NoOp(group[0]) then 1 + StopAt(group[1..], baselines)
    else if !Readable(baselines) then 0
    else 1 + StopAt(group[1..], if baselines == [] then [] else baselines[1..])
  }

  function MadeOne(p: Prepared): (r: seq<Applied>)
    requires Validated(p.field.control)
    ensures AllValidated(r)
  {
    if NoOp(p) then [] else [Applied(p.field, p.previous)]
  }

  /** What the preview leaves the undo: the writes really made, with the values
    * the preview read. */
  function Made(group: seq<Prepared>): (r: seq<Applied>)
    requires Checked(group)
    ensures AllValidated(r)
    decreases |group|
  {
    if group == [] then []
    else MadeOne(group[0]) + Made(group[1..])
  }

  predicate Following(selectors: Selectors, camera: Camera, before: seq<Prepared>) {
    camera.selectors == Simulated(selectors, before) && Obedient(camera.forward)
  }

  lemma {:induction false} LivePreparation(selectors: Selectors, camera: Camera, before: seq<Prepared>, p: Prepared)
    requires Linked(selectors, before, p) && Following(selectors, camera, before)
    ensures PrepareLive(camera, p) == if Readable(camera.baselines) then Some(p) else None
  {
  }

  lemma {:induction false} ObedientTransfer(camera: Camera, field: Field, payload: seq<Byte>)
    requires Validated(field.control) && Obedient(camera.forward)
    ensures var (camera1, observed) := ApplyOne(camera, field, payload);
            && camera1 ==
                camera.(selectors := camera.selectors[field.key := payload], forward := Vendor.Tail(camera.forward))
            && observed == Decode(field.control, payload) && Obedient(camera1.forward)
  {
    if camera.forward != [] {
      assert camera.forward[0] in camera.forward;
      assert forall a :: a in camera.forward[1..] ==> a in camera.forward;
    }
  }

  lemma {:induction false} ObedientStep(selectors: Selectors, camera: Camera, before: seq<Prepared>, p: Prepared)
    requires Linked(selectors, before, p) && Following(selectors, camera, before)
    ensures var (camera1, observed) := ApplyOne(AfterReading(camera), p.field, p.payload);
            && Following(selectors, camera1, before + [p]) && observed == Some(p.requested)
            && camera1.undo == camera.undo && camera1.baselines == AfterReading(camera).baselines
  {
    SimulatedGrows(selectors, before, p);
    ObedientTransfer(AfterReading(camera), p.field, p.payload);
  }

  lemma {:induction false} SplitFirst(before: seq<Prepared>, group: seq<Prepared>, stop: nat, applied: seq<Applied>)
    requires 0 < stop <= |group| && Checked(group)
    ensures (before + [group[0]]) + group[1..][..stop - 1] == before + group[..stop]
    ensures NoOp(group[0]) ==> Made(group[..stop]) == Made(group[1..][..stop - 1])
    ensures !NoOp(group[0]) ==>
              applied + Made(group[..stop]) ==
                  (applied + [Applied(group[0].field, group[0].previous)]) + Made(group[1..][..stop - 1])
  {
    assert group[..stop][1..] == group[1..][..stop - 1];
    assert group[..stop][0] == group[0];
  }

  /** The outcome of a run that follows the preview up to where it stops. */
  predicate Follows(selectors: Selectors, camera: Camera, before: seq<Prepared>, group: seq<Prepared>,
          applied: seq<Applied>, video: bool)
    requires Checked(group) && AllValidated(applied)
  {
    var stop := StopAt(group, camera.baselines);
    var (after, outcome) := ApplyGroup(camera, group, applied, video);
    && after.selectors == Simulated(selectors, before + group[..stop])
    && outcome ==
        (if stop == |group| && video then Completed(applied + Made(group[..stop]))
        else Abandoned(applied + Made(group[..stop])))
    && after.undo == camera.undo
  }

  lemma {:induction false} FollowsNoOp(selectors: Selectors, camera: Camera, before: seq<Prepared>,
          group: seq<Prepared>, applied: seq<Applied>, video: bool)
    requires group != [] && Checked(group) && AllValidated(applied) && NoOp(group[0])
    requires Follows(selectors, camera, before + [group[0]], group[1..], applied, video)
    ensures Follows(selectors, camera, before, group, applied, video)
  {
    SplitFirst(before, group, StopAt(group, camera.baselines), applied);
  }

  lemma {:induction false} FollowsWrite(selectors: Selectors, camera: Camera, before: seq<Prepared>,
          group: seq<Prepared>, applied: seq<Applied>, video: bool)
    requires group != [] && Checked(group) && AllValidated(applied) && !NoOp(group[0]) && Readable(camera.baselines)
    requires PrepareLive(camera, group[0]) == Some(group[0])
    requires var p := group[0];
             var (camera1, observed) := ApplyOne(AfterReading(camera), p.field, p.payload);
             && observed == Some(p.requested)
             && camera1.undo == camera.undo && camera1.baselines == AfterReading(camera).baselines
             && Follows(selectors, camera1, before + [p], group[1..], applied + [Applied(p.field, p.previous)], video)
    ensures Follows(selectors, camera, before, group, applied, video)
  {
    SplitFirst(before, group, StopAt(group, camera.baselines), applied);
  }

  lemma {:induction false} HeadLinks(selectors: Selectors, before: seq<Prepared>, group: seq<Prepared>)
    requires group != [] && Chained(selectors, before + group)
    ensures Linked(selectors, before, group[0]) && Chained(selectors, (before + [group[0]]) + group[1..])
  {
    Regroup(before, group[0], group[1..]);
    assert [group[0]] + group[1..] == group;
    ChainedAt(selectors, before + group, |before|);
    Prefixes(before, group);
  }

  lemma {:induction false} Prefixes(before: seq<Prepared>, group: seq<Prepared>)
    requires group != []
    ensures (before + group)[..|before|] == before && (before + group)[|before|] == group[0]
  {
  }

  lemma {:induction false} ChainedAt(selectors: Selectors, group: seq<Prepared>, i: nat)
    requires Chained(selectors, group) && i < |group|
    ensures Linked(selectors, group[..i], group[i])
  {
  }

  lemma {:induction false} FollowsFrom(selectors: Selectors, camera: Camera, before: seq<Prepared>,
          group: seq<Prepared>, applied: seq<Applied>, video: bool)
    requires Chained(selectors, before + group) && Following(selectors, camera, before)
    requires Checked(group) && AllValidated(applied) && forall p :: p in group ==> Previewable(p)
    ensures Follows(selectors, camera, before, group, applied, video)
    decreases |group|
  {
    if group == [] {
      assert before + group[..0] == before;
      assert applied + [] == applied;
    } else {
      var p := group[0];
      assert p in group;
      HeadLinks(selectors, before, group);
      LivePreparation(selectors, camera, before, p);
      if NoOp(p) {
        NoOpKeepsBytesExactly(selectors, before, p);
        FollowsFrom(selectors, camera, before + [p], group[1..], applied, video);
        FollowsNoOp(selectors, camera, before, group, applied, video);
      } else if Readable(camera.baselines) {
        ObedientStep(selectors, camera, before, p);
        FollowsFrom(selectors, ApplyOne(AfterReading(camera), p.field, p.payload).0, before + [p], group[1..],
                    applied + [Applied(p.field, p.previous)], video);
        FollowsWrite(selectors, camera, before, group, applied, video);
      } else {
        FollowsNothing(selectors, camera, before, group, applied, video);
      }
    }
  }

  lemma {:induction false} FollowsNothing(selectors: Selectors, camera: Camera, before: seq<Prepared>,
          group: seq<Prepared>, applied: seq<Applied>, video: bool)
    requires group != [] && Checked(group) && AllValidated(applied) && !NoOp(group[0]) && !Readable(camera.baselines)
    requires Following(selectors, camera, before)
    ensures Follows(selectors, camera, before, group, applied, video)
  {
    assert before + group[..0] == before;
    assert applied + Made(group[..0]) == applied;
  }

  /** The preview matches the real run.  On a camera that obeys, with zero
    * tolerance and no-op writes that start from faithful bytes, applying only the
    * other writes over live bytes reads, before every write, the bytes the
    * preview simulated, and ends with the bytes of performing every write; the
    * run stops early only where a live baseline cannot be read. */
  lemma {:induction false} PreviewMatches(camera: Camera, group: seq<Prepared>, video: bool)
    requires Chained(camera.selectors, group) && Checked(group) && Obedient(camera.forward)
    requires forall p :: p in group ==> Previewable(p)
    ensures Follows(camera.selectors, camera, [], group, [], video)
    ensures var stop := StopAt(group, camera.baselines);
            var (after, outcome) := ApplyGroup(camera, group, [], video);
            && after.selectors == Simulated(camera.selectors, group[..stop])
            && outcome == (if stop == |group| && video then Completed(Made(group)) else Abandoned(Made(group[..stop])))
    ensures forall i :: 0 <= i < |group| ==>
              Simulated(camera.selectors, group[..i])[group[i].field.key] == group[i].baseline
  {
    SimulatedAtStart(camera.selectors);
    assert [] + group == group;
    FollowsFrom(camera.selectors, camera, [], group, [], video);
    FollowedFromStart(camera, group, video);
    forall i | 0 <= i < |group|
      ensures Simulated(camera.selectors, group[..i])[group[i].field.key] == group[i].baseline
    {
      ChainedAt(camera.selectors, group, i);
    }
  }

  lemma {:induction false} FollowedFromStart(camera: Camera, group: seq<Prepared>, video: bool)
    requires Checked(group) && Follows(camera.selectors, camera, [], group, [], video)
    ensures var stop := StopAt(group, camera.baselines);
            var (after, outcome) := ApplyGroup(camera, group, [], video);
            && after.selectors == Simulated(camera.selectors, group[..stop])
            && outcome == (if stop == |group| && video then Completed(Made(group)) else Abandoned(Made(group[..stop])))
  {
    var stop := StopAt(group, camera.baselines);
    assert [] + group[..stop] == group[..stop] && group[..|group|] == group;
    assert [] + Made(group[..stop]) == Made(group[..stop]);
  }

  lemma {:induction false} SimulatedAtStart(selectors: Selectors)
    ensures Simulated(selectors, []) == selectors
  {
  }

  /** One obedient write of a semantic transaction. */
  lemma {:induction false} WriteLands(selectors: Selectors, camera: Camera, prepared: seq<Prepared>, index: nat)
    requires Chained(selectors, prepared) && Checked(prepared) && index < |prepared|
    requires camera.selectors == Simulated(selectors, prepared[..index]) && Obedient(camera.forward)
    ensures var (camera1, observed) := ApplyOne(camera, prepared[index].field, prepared[index].payload);
            && camera1.selectors == Simulated(selectors, prepared[..index + 1]) && Obedient(camera1.forward)
                && camera1.undo == camera.undo
            && observed == Some(prepared[index].requested)
  {
    var p := prepared[index];
    LinkedDecodes(selectors, prepared, index);
    SimulatedGrows(selectors, prepared[..index], p);
    Extended(prepared, index);
    ObedientTransfer(camera, p.field, p.payload);
  }

  lemma {:induction false} Extended(prepared: seq<Prepared>, index: nat)
    requires index < |prepared|
    ensures prepared[..index + 1] == prepared[..index] + [prepared[index]]
  {
  }

  lemma {:induction false} LinkedDecodes(selectors: Selectors, prepared: seq<Prepared>, index: nat)
    requires Chained(selectors, prepared) && index < |prepared|
    ensures var p := prepared[index];
            Validated(p.field.control) && p.field.key in selectors
                && Decode(p.field.control, p.payload) == Some(p.requested)
  {
    ChainedAt(selectors, prepared, index);
  }

  lemma {:induction false} RunUnrolls(camera: Camera, prepared: seq<Prepared>, index: nat)
    requires index < |prepared| && Checked(prepared)
    ensures var p := prepared[index];
            var (camera1, observed) := ApplyOne(camera, p.field, p.payload);
            observed == Some(p.requested) ==> RunFrom(camera, prepared, index) == RunFrom(camera1, prepared, index + 1)
  {
  }

  lemma {:induction false} RunLands(selectors: Selectors, camera: Camera, prepared: seq<Prepared>, index: nat)
    requires Chained(selectors, prepared) && Checked(prepared) && index <= |prepared|
    requires camera.selectors == Simulated(selectors, prepared[..index]) && Obedient(camera.forward)
    ensures RunFrom(camera, prepared, index).1.Done?
    ensures RunFrom(camera, prepared, index).0.selectors == Simulated(selectors, prepared)
    decreases |prepared| - index
  {
    if index == |prepared| {
      assert prepared[..index] == prepared;
    } else {
      WriteLands(selectors, camera, prepared, index);
      RunUnrolls(camera, prepared, index);
      RunLands(selectors, ApplyOne(camera, prepared[index].field, prepared[index].payload).0, prepared, index + 1);
    }
  }

  /** On a camera that obeys, a prepared semantic transaction completes, and every
    * selector holds the bytes its last write was prepared with. */
  lemma {:induction false} SemanticWritesLand(camera: Camera, writes: seq<FieldWrite>)
    requires forall w :: w in writes ==> Validated(w.field.control)
    requires Obedient(camera.forward) && Plan(camera.selectors, writes).Some?
    ensures var (after, outcome) := RunWrites(camera, writes);
            outcome.Done? && after.selectors == Simulated(camera.selectors, Plan(camera.selectors, writes).value)
  {
    var prepared := Plan(camera.selectors, writes).value;
    SimulatedAtStart(camera.selectors);
    assert prepared[..0] == [];
    RunLands(camera.selectors, camera, prepared, 0);
  }

  // -------------------------------------------------------- undoing the group

  predicate AllReadable(baselines: seq<bool>) { forall b :: b in baselines ==> b }

  predicate AllFaithful(group: seq<Prepared>)
    requires Checked(group)
  {
    forall p :: p in group ==> p.field.tolerance == 0 && Faithful(p.field.control, p.baseline)
  }

  lemma {:induction false} MadeGrows(group: seq<Prepared>, p: Prepared)
    requires Checked(group) && Validated(p.field.control)
    ensures Checked(group + [p])
    ensures Made(group + [p]) == Made(group) + MadeOne(p)
    ensures NoOp(p) ==> Made(group + [p]) == Made(group)
    decreases |group|
  {
    if group == [] {
      assert group + [p] == [p] && [p][1..] == [];
    } else {
      assert (group + [p])[1..] == group[1..] + [p] && (group + [p])[0] == group[0];
      MadeGrows(group[1..], p);
      MadeRegroup(group, p);
    }
  }

  lemma {:induction false} MadeRegroup(group: seq<Prepared>, p: Prepared)
    requires group != [] && Checked(group) && Validated(p.field.control)
    ensures MadeOne(group[0]) + (Made(group[1..]) + MadeOne(p)) == Made(group) + MadeOne(p)
  {
  }

  lemma {:induction false} PutBackOver(p: Prepared)
    requires Validated(p.field.control) && Faithful(p.field.control, p.baseline)
    requires PrepareOne(FieldWrite(p.field, p.input), p.baseline) == Some(p)
    ensures Encode(p.field.control, p.previous, p.payload) == Some(p.baseline)
    ensures Encode(p.field.control, p.previous, p.baseline) == Some(p.baseline)
  {
    LastWriteWins(p.field.control, p.input, p.previous, p.baseline);
    PutBackExact(p.field.control, p.baseline);
  }

  lemma {:induction false} CleanUndo(camera: Camera, field: Field, previous: Value, baseline: seq<Byte>,
          payload: seq<Byte>)
    requires Validated(field.control) && Clean(camera.undo)
             && Encode(field.control, previous, baseline) == Some(payload)
    ensures var camera1 := UndoOne(camera, field, previous, baseline).0;
            camera1 == camera.(selectors := camera.selectors[field.key := payload], undo := Vendor.Tail(camera.undo))
                && Clean(camera1.undo)
  {
    if camera.undo != [] {
      assert camera.undo[0] in camera.undo;
      assert forall a :: a in camera.undo[1..] ==> a in camera.undo;
    }
  }

  lemma {:induction false} LiveRestore(camera: Camera, p: Prepared)
    requires Validated(p.field.control) && p.field.key in camera.selectors
    requires Encode(p.field.control, p.previous, camera.selectors[p.field.key]) == Some(p.baseline)
    requires Clean(camera.undo) && AllReadable(camera.baselines)
    ensures var camera1 := RestoreLive(camera, Applied(p.field, p.previous)).0;
            && camera1.selectors == camera.selectors[p.field.key := p.baseline]
            && Clean(camera1.undo) && AllReadable(camera1.baselines)
  {
    if camera.baselines != [] {
      assert camera.baselines[0] in camera.baselines;
      assert forall b :: b in camera.baselines[1..] ==> b in camera.baselines;
    }
    CleanUndo(AfterReading(camera), p.field, p.previous, camera.selectors[p.field.key], p.baseline);
  }

  lemma {:induction false} SimulatedBaseline(selectors: Selectors, before: seq<Prepared>, p: Prepared)
    requires Linked(selectors, before, p)
    ensures var s := Simulated(selectors, before);
            && p.field.key in s && s[p.field.key] == p.baseline
            && s[p.field.key := p.payload][p.field.key := p.baseline] == s && s[p.field.key := p.baseline] == s
  {
  }

  /** Undoing one write whose payload, or nothing, is in place. */
  lemma {:induction false} LiveUndo(selectors: Selectors, camera: Camera, before: seq<Prepared>, p: Prepared)
    requires Linked(selectors, before, p) && Faithful(p.field.control, p.baseline)
    requires camera.selectors == Simulated(selectors, before + [p]) || camera.selectors == Simulated(selectors, before)
    requires Clean(camera.undo) && AllReadable(camera.baselines)
    ensures var camera1 := RestoreLive(camera, Applied(p.field, p.previous)).0;
            camera1.selectors == Simulated(selectors, before) && Clean(camera1.undo) && AllReadable(camera1.baselines)
  {
    SimulatedGrows(selectors, before, p);
    PutBackOver(p);
    SimulatedBaseline(selectors, before, p);
    LiveRestore(camera, p);
  }

  lemma {:induction false} RestoreSplits(camera: Camera, applied: seq<Applied>, a: Applied)
    requires AllValidated(applied) && Validated(a.field.control)
    ensures RestoreGroup(camera, applied + [a]).0 == RestoreGroup(RestoreLive(camera, a).0, applied).0
  {
    assert (applied + [a])[..|applied|] == applied;
  }

  lemma {:induction false} LastSplits(group: seq<Prepared>)
    requires group != [] && Checked(group) && AllFaithful(group)
    ensures var n := |group| - 1;
            group == group[..n] + [group[n]] && Checked(group[..n]) && AllFaithful(group[..n])
                && AllFaithful([group[n]])
  {
  }

  /** Writes that landed whole are undone byte for byte, over live bytes. */
  lemma {:induction false} GroupUndoExact(selectors: Selectors, camera: Camera, group: seq<Prepared>)
    requires Chained(selectors, group) && Checked(group) && AllFaithful(group)
    requires camera.selectors == Simulated(selectors, group)
    requires Clean(camera.undo) && AllReadable(camera.baselines)
    ensures RestoreGroup(camera, Made(group)).0.selectors == selectors
    decreases |group|
  {
    if group == [] {
      SimulatedAtStart(selectors);
    } else {
      var n := |group| - 1;
      var p := group[n];
      ChainedAt(selectors, group, n);
      ChainPrefix(selectors, group, n);
      LastSplits(group);
      MadeGrows(group[..n], p);
      if NoOp(p) {
        NoOpKeepsBytesExactly(selectors, group[..n], p);
        GroupUndoExact(selectors, camera, group[..n]);
      } else {
        LiveUndo(selectors, camera, group[..n], p);
        RestoreSplits(camera, Made(group[..n]), Applied(p.field, p.previous));
        GroupUndoExact(selectors, RestoreLive(camera, Applied(p.field, p.previous)).0, group[..n]);
      }
    }
  }

  /** Transfers land whole or not at all, whatever they report. */
  predicate Whole(script: seq<Answer>) {
    forall a :: a in script ==> !a.landing.Garbage?
  }

  lemma {:induction false} WholeTransfer(camera: Camera, field: Field, payload: seq<Byte>)
    requires Validated(field.control) && Whole(camera.forward) && field.key in camera.selectors
    ensures var (camera1, observed) := ApplyOne(camera, field, payload);
            && (camera1.selectors == camera.selectors[field.key := payload] || camera1.selectors == camera.selectors)
            && (observed.Some? ==> observed == Decode(field.control, camera1.selectors[field.key]))
            && camera1.undo == camera.undo && camera1.baselines == camera.baselines && Whole(camera1.forward)
  {
    if camera.forward != [] {
      assert camera.forward[0] in camera.forward;
      assert forall a :: a in camera.forward[1..] ==> a in camera.forward;
    }
  }

  lemma {:induction false} ReadableTail(camera: Camera)
    requires AllReadable(camera.baselines)
    ensures AllReadable(AfterReading(camera).baselines) && Readable(camera.baselines)
  {
    if camera.baselines != [] {
      assert camera.baselines[0] in camera.baselines;
      assert forall b :: b in camera.baselines[1..] ==> b in camera.baselines;
    }
  }

  /** A write seen as done has its payload in place. */
  lemma {:induction false} WholeStep(selectors: Selectors, camera: Camera, before: seq<Prepared>, p: Prepared)
    requires Linked(selectors, before, p) && p.field.tolerance == 0 && !NoOp(p)
    requires camera.selectors == Simulated(selectors, before) && Whole(camera.forward)
    ensures var (camera1, observed) := ApplyOne(AfterReading(camera), p.field, p.payload);
            && (camera1.selectors == Simulated(selectors, before + [p])
                || camera1.selectors == Simulated(selectors, before))
            && (observed.Some? && Matches(p.field, p.requested, observed.value) ==>
                camera1.selectors == Simulated(selectors, before + [p]))
            && camera1.undo == camera.undo && camera1.baselines == AfterReading(camera).baselines
                && Whole(camera1.forward)
  {
    SimulatedGrows(selectors, before, p);
    WholeTransfer(AfterReading(camera), p.field, p.payload);
    assert Simulated(selectors, before)[p.field.key] == p.baseline;
    var observed := ApplyOne(AfterReading(camera), p.field, p.payload).1;
    if observed.Some? {
      ZeroToleranceIsEquality(p.field, p.requested, observed.value);
      ZeroToleranceIsEquality(p.field, p.requested, p.previous);
    }
  }

  /** Undoing a run that stopped at `p`, with the payload of `p` in place or not. */
  lemma {:induction false} StoppedRunUndone(selectors: Selectors, camera: Camera, before: seq<Prepared>, p: Prepared)
    requires Chained(selectors, before) && Checked(before) && AllFaithful(before)
    requires Linked(selectors, before, p) && Faithful(p.field.control, p.baseline)
    requires camera.selectors == Simulated(selectors, before + [p]) || camera.selectors == Simulated(selectors, before)
    requires Clean(camera.undo) && AllReadable(camera.baselines)
    ensures AllValidated(Made(before) + [Applied(p.field, p.previous)])
    ensures RestoreGroup(camera, Made(before) + [Applied(p.field, p.previous)]).0.selectors == selectors
  {
    LiveUndo(selectors, camera, before, p);
    RestoreSplits(camera, Made(before), Applied(p.field, p.previous));
    GroupUndoExact(selectors, RestoreLive(camera, Applied(p.field, p.previous)).0, before);
  }

  /** Nothing is left half done: the group ends with all of it in place or with
    * the original bytes. */
  predicate AllOrNone(selectors: Selectors, camera: Camera, before: seq<Prepared>, group: seq<Prepared>, video: bool)
    requires Checked(before) && Checked(group)
  {
    var (after, outcome) := ApplyGroup(camera, group, Made(before), video);
    && after.selectors == (if outcome.Undone? then selectors else Simulated(selectors, before + group))
    && (outcome.Completed? ==> video) && (outcome.Abandoned? ==> !video)
  }

  lemma {:induction false} AllOrNoneNoOp(selectors: Selectors, camera: Camera, before: seq<Prepared>,
          group: seq<Prepared>, video: bool)
    requires Checked(before) && Checked(group) && group != [] && NoOp(group[0])
    requires Checked(before + [group[0]]) && AllOrNone(selectors, camera, before + [group[0]], group[1..], video)
    ensures AllOrNone(selectors, camera, before, group, video)
  {
    MadeGrows(before, group[0]);
    Regroup(before, group[0], group[1..]);
    assert [group[0]] + group[1..] == group;
  }

  lemma {:induction false} AllOrNoneDone(selectors: Selectors, camera: Camera, before: seq<Prepared>,
          group: seq<Prepared>, video: bool)
    requires Checked(before) && Checked(group) && group != [] && !NoOp(group[0])
    requires PrepareLive(camera, group[0]) == Some(group[0]) && Checked(before + [group[0]])
    requires var p := group[0];
             var (camera1, observed) := ApplyOne(AfterReading(camera), p.field, p.payload);
             && observed.Some? && Matches(p.field, p.requested, observed.value)
             && AllOrNone(selectors, camera1, before + [p], group[1..], video)
    ensures AllOrNone(selectors, camera, before, group, video)
  {
    MadeGrows(before, group[0]);
    Regroup(before, group[0], group[1..]);
    assert [group[0]] + group[1..] == group;
  }

  lemma {:induction false} AllOrNoneStopped(selectors: Selectors, camera: Camera, before: seq<Prepared>,
          group: seq<Prepared>, video: bool)
    requires Checked(before) && Checked(group) && group != [] && !NoOp(group[0])
    requires PrepareLive(camera, group[0]) == Some(group[0])
    requires var p := group[0];
             var (camera1, observed) := ApplyOne(AfterReading(camera), p.field, p.payload);
             && !(observed.Some? && Matches(p.field, p.requested, observed.value))
             && AllValidated(Made(before) + [Applied(p.field, p.previous)])
             && RestoreGroup(camera1, Made(before) + [Applied(p.field, p.previous)]).0.selectors == selectors
    ensures AllOrNone(selectors, camera, before, group, video)
  {
  }

  lemma {:induction false} WholeRun(selectors: Selectors, camera: Camera, before: seq<Prepared>, group: seq<Prepared>,
          video: bool)
    requires Checked(before) && Checked(group) && AllFaithful(before) && AllFaithful(group)
    requires Chained(selectors, before) && Chained(selectors, before + group)
    requires camera.selectors == Simulated(selectors, before)
    requires Whole(camera.forward) && Clean(camera.undo) && AllReadable(camera.baselines)
    ensures AllOrNone(selectors, camera, before, group, video)
    decreases |group|
  {
    if group == [] {
      assert before + group == before;
    } else {
      var p := group[0];
      HeadLinks(selectors, before, group);
      ChainGrows(selectors, before, p);
      FirstFaithful(before, group);
      if NoOp(p) {
        NoOpKeepsBytesExactly(selectors, before, p);
        WholeRun(selectors, camera, before + [p], group[1..], video);
        AllOrNoneNoOp(selectors, camera, before, group, video);
      } else {
        ReadableTail(camera);
        WholeLive(selectors, camera, before, p);
        WholeStep(selectors, camera, before, p);
        var (camera1, observed) := ApplyOne(AfterReading(camera), p.field, p.payload);
        if observed.Some? && Matches(p.field, p.requested, observed.value) {
          WholeRun(selectors, camera1, before + [p], group[1..], video);
          AllOrNoneDone(selectors, camera, before, group, video);
        } else {
          StoppedRunUndone(selectors, camera1, before, p);
          AllOrNoneStopped(selectors, camera, before, group, video);
        }
      }
    }
  }

  lemma {:induction false} WholeLive(selectors: Selectors, camera: Camera, before: seq<Prepared>, p: Prepared)
    requires Linked(selectors, before, p) && camera.selectors == Simulated(selectors, before)
             && Readable(camera.baselines)
    ensures PrepareLive(camera, p) == Some(p)
  {
  }

  lemma {:induction false} FirstFaithful(before: seq<Prepared>, group: seq<Prepared>)
    requires Checked(before) && Checked(group) && AllFaithful(before) && AllFaithful(group) && group != []
    ensures Checked(before + [group[0]]) && AllFaithful(before + [group[0]])
    ensures Checked(group[1..]) && AllFaithful(group[1..])
    ensures group[0].field.tolerance == 0 && Faithful(group[0].field.control, group[0].baseline)
  {
    assert group[0] in group;
  }

  /** Transfers that land whole or not at all, zero tolerance, baselines that can
    * be read and start faithful: the group is undone byte for byte, or all of it
    * is in place, even where only the video format could not be put back. */
  lemma {:induction false} WholeGroup(camera: Camera, group: seq<Prepared>, video: bool)
    requires Chained(camera.selectors, group) && Checked(group) && AllFaithful(group)
    requires Whole(camera.forward) && Clean(camera.undo) && AllReadable(camera.baselines)
    ensures var (after, outcome) := ApplyGroup(camera, group, [], video);
            && after.selectors == (if outcome.Undone? then camera.selectors else Simulated(camera.selectors, group))
            && (outcome.Completed? ==> video) && (outcome.Abandoned? ==> !video)
  {
    SimulatedAtStart(camera.selectors);
    assert [] + group == group;
    WholeRun(camera.selectors, camera, [], group, video);
  }

  lemma {:induction false} SameAsStart(selectors: Selectors, done: seq<Prepared>)
    ensures Simulated(selectors, done) == selectors <==>
            forall key :: key in selectors ==> Latest(selectors, done, key) == selectors[key]
  {
    var now := Simulated(selectors, done);
    assert now.Keys == selectors.Keys;
    if now == selectors {
      forall key | key in selectors ensures Latest(selectors, done, key) == selectors[key] {
        assert now[key] == Latest(selectors, done, key);
      }
    }
  }

  /** On a camera that obeys, an ordinary error comes back over writes left in
    * place exactly when a live baseline could not be read or the video format not
    * put back, and it left no trace exactly when the latest payload of every
    * selector, up to where the run stopped, is what the selector held. */
  lemma {:induction false} AbandonedExact(camera: Camera, group: seq<Prepared>, video: bool)
    requires Chained(camera.selectors, group) && Checked(group) && Obedient(camera.forward)
    requires forall p :: p in group ==> Previewable(p)
    ensures var stop := StopAt(group, camera.baselines);
            var (after, outcome) := ApplyGroup(camera, group, [], video);
            && (outcome.Abandoned? <==> stop < |group| || !video) && !outcome.Undone?
            && (after.selectors == camera.selectors <==>
                forall key :: key in camera.selectors ==>
                  Latest(camera.selectors, group[..stop], key) == camera.selectors[key])
  {
    PreviewMatches(camera, group, video);
    SameAsStart(camera.selectors, group[..StopAt(group, camera.baselines)]);
  }

  // ------------------------------------------------- where the group falls short

  /** A plain unsigned byte at the head of a two-byte selector. */
  function HeadByte(): (c: Control)
    ensures Validated(c)
  {
    Control("head", 2, 0, 1, Little, Unsigned, [], None, None, Preserve)
  }

  function HeadField(selector: nat): (f: Field)
    ensures Validated(f.control)
  {
    Field(HeadByte(), Key(1, selector), ByReadback, 0)
  }

  lemma {:induction false} HeadCodec(a: Byte, b: Byte, n: Byte)
    ensures Decode(HeadByte(), [a, b]) == Some(Number(a))
    ensures Encode(HeadByte(), Number(n), [a, b]) == Some([n, b])
  {
    var c := HeadByte();
    assert FieldOf(c, [a, b]) == [a];
    assert Power(1) == 256;
    assert FromLittle([a]) == a by { assert [a][1..] == []; }
    assert ReadInteger([a], Little, false) == Some(a);
    assert ToLittle(n, 1) == [n];
    assert WriteInteger(n, 1, Little, false) == Some([n]);
    assert WithField(c, [a, b], [n]) == [n, b];
  }

  /** The live-baseline undo reports success and keeps garbage that landed
    * outside the field, where the recorded-baseline undo restores the bytes. */
  lemma {:induction false} LiveUndoKeepsGarbage(a: Byte, b: Byte, garbage: Byte)
    requires garbage != b
    ensures var f := HeadField(1);
            var camera := Camera(map[f.key := [a, garbage]], [], [], []);
            var (after, result) := RestoreLive(camera, Applied(f, Number(a)));
            && result == Attempted(true) && after.selectors[f.key] == [a, garbage]
            && UndoOne(camera, f, Number(a), [a, b]).0.selectors[f.key] == [a, b]
  {
    HeadCodec(a, garbage, a);
    HeadCodec(a, b, a);
  }

  function TwoSelectors(a: Byte): Selectors {
    map[Key(1, 1) := [a, 0], Key(1, 2) := [a, 0]]
  }

  function HeadWrite(selector: nat, a: Byte, n: Byte): Prepared {
    Prepared(HeadField(selector), Number(n), [a, 0], Number(a), [n, 0], Number(n))
  }

  lemma {:induction false} HeadPrepared(selector: nat, a: Byte, n: Byte)
    ensures PrepareOne(FieldWrite(HeadField(selector), Number(n)), [a, 0]) == Some(HeadWrite(selector, a, n))
  {
    HeadCodec(a, 0, n);
    HeadCodec(n, 0, n);
  }

  /** An early return that leaves a completed write in place: two writes to two
    * selectors, prepared as usual, then the second live baseline is unreadable. */
  lemma {:induction false} EarlyReturnLeavesWrite(a: Byte, n: Byte)
    requires a != n
    ensures var group := [HeadWrite(1, a, n), HeadWrite(2, a, n)];
            var (after, outcome) := ApplyGroup(Camera(TwoSelectors(a), [true, false], [], []), group, [], true);
            && Chained(TwoSelectors(a), group)
            && outcome == Abandoned([Applied(HeadField(1), Number(a))])
            && after.selectors != TwoSelectors(a)
  {
    var group := [HeadWrite(1, a, n), HeadWrite(2, a, n)];
    HeadsChained(a, n);
    PreviewMatches(Camera(TwoSelectors(a), [true, false], [], []), group, true);
    StopsSecond(a, n);
    HeadsSimulated(a, n);
  }

  /** The same error once every write is in place and only the video format
    * could not be put back. */
  lemma {:induction false} LostVideoLeavesWrites(a: Byte, n: Byte)
    requires a != n
    ensures var (after, outcome) := ApplyGroup(Camera(TwoSelectors(a), [], [], []), [HeadWrite(1, a, n)], [], false);
            outcome == Abandoned([Applied(HeadField(1), Number(a))]) && after.selectors != TwoSelectors(a)
  {
    var p := HeadWrite(1, a, n);
    var camera := Camera(TwoSelectors(a), [], [], []);
    HeadPrepared(1, a, n);
    HeadPreviewable(1, a, n);
    HeadCodec(n, 0, n);
    assert PrepareLive(camera, p) == Some(p);
    var (camera1, observed) := ApplyOne(camera, p.field, p.payload);
    assert camera1.selectors[Key(1, 1)] == [n, 0] && TwoSelectors(a)[Key(1, 1)] == [a, 0];
    assert [p][1..] == [] && [] + [Applied(p.field, p.previous)] == [Applied(p.field, p.previous)];
    assert ApplyGroup(camera1, [], [Applied(p.field, p.previous)], false).1.Abandoned?;
  }

  /** A failed in-session undo keeps the ordinary error: the transfer of the one
    * write reports a failure although its payload landed, and the baseline of its
    * undo cannot be read. */
  lemma {:induction false} FailedUndoLeavesWrite(a: Byte, n: Byte)
    requires a != n
    ensures var camera := Camera(TwoSelectors(a), [true, false], [Answer(Payload, false, true)], []);
            var (after, outcome) := ApplyGroup(camera, [HeadWrite(1, a, n)], [], true);
            outcome == Undone([Attempted(false)]) && after.selectors != TwoSelectors(a)
  {
    var p := HeadWrite(1, a, n);
    var camera := Camera(TwoSelectors(a), [true, false], [Answer(Payload, false, true)], []);
    HeadPrepared(1, a, n);
    HeadPreviewable(1, a, n);
    assert PrepareLive(camera, p) == Some(p);
    var (camera1, observed) := ApplyOne(AfterReading(camera), p.field, p.payload);
    assert camera1.selectors[Key(1, 1)] == [n, 0] && TwoSelectors(a)[Key(1, 1)] == [a, 0];
    var all := [Applied(p.field, p.previous)];
    assert [true, false][1..] == [false] && [] + all == all && all[..0] == [];
    assert RestoreGroup(camera1, all).1 == [Attempted(false)];
  }

  lemma {:induction false} HeadsSimulated(a: Byte, n: Byte)
    requires a != n
    ensures Simulated(TwoSelectors(a), [HeadWrite(1, a, n), HeadWrite(2, a, n)][..1]) != TwoSelectors(a)
  {
    var one := HeadWrite(1, a, n);
    assert [one, HeadWrite(2, a, n)][..1] == [] + [one];
    SimulatedGrows(TwoSelectors(a), [], one);
    assert Simulated(TwoSelectors(a), [] + [one])[Key(1, 1)] == [n, 0];
    assert TwoSelectors(a)[Key(1, 1)] == [a, 0];
  }

  lemma {:induction false} HeadLinked(before: seq<Prepared>, selector: nat, a: Byte, n: Byte)
    requires selector in {1, 2} && !Touches(before, Key(1, selector))
    ensures Linked(TwoSelectors(a), before, HeadWrite(selector, a, n))
  {
    HeadPrepared(selector, a, n);
    LatestUntouched(TwoSelectors(a), before, Key(1, selector));
  }

  lemma {:induction false} HeadPreviewable(selector: nat, a: Byte, n: Byte)
    requires a != n
    ensures Validated(HeadWrite(selector, a, n).field.control) && Previewable(HeadWrite(selector, a, n))
  {
    ZeroToleranceIsEquality(HeadField(selector), Number(n), Number(a));
    assert !NoOp(HeadWrite(selector, a, n));
  }

  lemma {:induction false} HeadsLinked(a: Byte, n: Byte)
    ensures Chained(TwoSelectors(a), [HeadWrite(1, a, n), HeadWrite(2, a, n)])
  {
    var one, two := HeadWrite(1, a, n), HeadWrite(2, a, n);
    HeadLinked([], 1, a, n);
    HeadLinked([one], 2, a, n);
    ChainGrows(TwoSelectors(a), [], one);
    assert [] + [one] == [one] && [one] + [two] == [one, two];
    ChainGrows(TwoSelectors(a), [one], two);
  }

  lemma {:induction false} HeadsChained(a: Byte, n: Byte)
    requires a != n
    ensures var group := [HeadWrite(1, a, n), HeadWrite(2, a, n)];
            Chained(TwoSelectors(a), group) && Checked(group) && forall p :: p in group ==> Previewable(p)
  {
    HeadsLinked(a, n);
    HeadPreviewable(1, a, n);
    HeadPreviewable(2, a, n);
  }

  lemma {:induction false} StopsSecond(a: Byte, n: Byte)
    requires a != n
    ensures var group := [HeadWrite(1, a, n), HeadWrite(2, a, n)];
            StopAt(group, [true, false]) == 1 && Made(group[..1]) == [Applied(HeadField(1), Number(a))]
  {
    var group := [HeadWrite(1, a, n), HeadWrite(2, a, n)];
    assert group[1..] == [HeadWrite(2, a, n)];
    assert [true, false][1..] == [false];
    assert StopAt(group[1..], [false]) == 0;
    assert group[..1] == [HeadWrite(1, a, n)] && group[..1][1..] == [];
    assert Made(group[..1][1..]) == [];
  }
}
