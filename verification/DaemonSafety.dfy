/** What the daemon keeps over every sequence of requests, polls and failures. */
module DaemonSafety {
  import opened Wrappers
  import opened RecordingPath
  import opened Daemon

  // ----------------------------------------------------------------- back-off

  function TwoTo(k: nat): nat { if k == 0 then 1 else 2 * TwoTo(k - 1) }

  function Backoff(k: nat): nat {
    if FirstDelay * TwoTo(k) < LongestDelay then FirstDelay * TwoTo(k) else LongestDelay
  }

  lemma {:induction false} BackoffDoubles(k: nat)
    ensures Backoff(k + 1) == if 2 * Backoff(k) < LongestDelay then 2 * Backoff(k) else LongestDelay
    ensures Backoff(k) <= Backoff(k + 1)
  {
    assert TwoTo(k + 1) == 2 * TwoTo(k);
  }

  // ------------------------------------------------------------- the invariant

  /** The recording in progress is the original file or a numbered successor. */
  predicate RecordingPlaced(a: Actor) {
    && a.recording.Some? == a.root.Some?
    && (a.recording.None? ==> a.segment == 0)
    && a.segment <= MaxSegment
    && (a.recording.Some? && a.segment == 0 ==> a.recording.value.output == a.root.value)
    && (a.recording.Some? && a.segment > 0 ==>
          Some(a.recording.value.output) == RecoveryPath(a.root.value, a.segment) && !a.recording.value.overwrite)
  }

  predicate Invariant(a: Actor) {
    && (a.pipeline.Some? ==> HasConsumers(a) && a.pipeline.value == Branches(a))
    && RecordingPlaced(a)
    && a.retryDelay == Backoff(a.failures)
  }

  lemma {:induction false} AdvanceFacts(a: Actor, files: set<Path>)
    requires RecordingPlaced(a)
    ensures var after := Advance(a, files);
            after.Some? ==>
              && RecordingPlaced(after.value)
              && after.value == a.(recording := after.value.recording, segment := after.value.segment)
              && after.value.recording.Some? == a.recording.Some?
              && a.segment <= after.value.segment
              && (after.value.segment == a.segment && a.segment < MaxSegment ==> after.value.recording == a.recording)
              && (a.recording.Some? ==> after.value.recording.value.output !in files)
  {
    if a.recording.Some? && a.recording.value.output in files {
      SearchIsLeast(a.root.value, if a.segment < MaxSegment then a.segment + 1 else MaxSegment, files);
    }
  }

  lemma {:induction false} ConnectedKeeps(w: World, recovery: bool)
    requires RecordingPlaced(w.actor) && HasConsumers(w.actor)
    ensures Invariant(Connected(w, recovery).actor)
  {
    assert Backoff(0) == FirstDelay;
  }

  lemma {:induction false} WaitingKeeps(a: Actor)
    requires RecordingPlaced(a) && a.retryDelay == Backoff(a.failures) && a.pipeline.None?
    ensures Invariant(a) && Invariant(a.(troubled := true))
  {
  }

  lemma {:induction false} IdleKeeps(a: Actor)
    requires RecordingPlaced(a) && a.pipeline.None?
    ensures Invariant(Recovered(a))
  {
    assert Backoff(0) == FirstDelay;
  }

  /** A rebuild resets an idle actor, leaves it waiting, or connects it. */
  lemma {:induction false} RebuildCases(w: World, recovery: bool, attempt: Attempt)
    ensures var a := w.actor.(pipeline := None);
            var advanced := if recovery || ContinuingRecording(w.actor) then Advance(a, w.files) else Some(a);
            var b := if advanced.None? then a else advanced.value;
            var c := if attempt.source.None? then b
                else b.(source := Some(SourceForRebuild(attempt.source.value, a.source, recovery)));
            Rebuild(w, recovery, attempt) ==
              if !HasConsumers(a) then (w.(actor := Recovered(a)), true)
              else if attempt.source.None? then (w.(actor := a), false)
              else if advanced.None? || !attempt.converts then (w.(actor := b), false)
              else if attempt.starts && !Blocked(c.recording, w.files) then (Connected(w.(actor := c), recovery), true)
              else (w.(actor := c.(troubled := true)), false)
  {
  }

  lemma {:induction false} RebuildKeeps(w: World, recovery: bool, attempt: Attempt)
    requires RecordingPlaced(w.actor) && w.actor.retryDelay == Backoff(w.actor.failures)
    ensures Invariant(Rebuild(w, recovery, attempt).0.actor)
  {
    var a := w.actor.(pipeline := None);
    RebuildCases(w, recovery, attempt);
    var advanced := if recovery || ContinuingRecording(w.actor) then Advance(a, w.files) else Some(a);
    WaitingKeeps(a);
    IdleKeeps(a);
    if HasConsumers(a) && advanced.Some? {
      if recovery || ContinuingRecording(w.actor) { AdvanceFacts(a, w.files); }
      WaitingKeeps(advanced.value);
      if attempt.source.Some? {
        var c := advanced.value.(source := Some(SourceForRebuild(attempt.source.value, a.source, recovery)));
        WaitingKeeps(c);
        ConnectedKeeps(w.(actor := c), recovery);
      }
    }
  }

  lemma {:induction false} PollKeeps(w: World, now: nat, failed: bool, attempt: Attempt)
    requires Invariant(w.actor)
    ensures Invariant(Poll(w, now, failed, attempt).actor)
  {
    var a := Noticed(w.actor, now, failed);
    RebuildKeeps(w.(actor := a), true, attempt);
    FailedRebuildHasNone(w.(actor := a), true, attempt);
    BackoffDoubles(Rebuild(w.(actor := a), true, attempt).0.actor.failures);
  }

  lemma {:induction false} FailedRebuildHasNone(w: World, recovery: bool, attempt: Attempt)
    ensures var (w1, ok) := Rebuild(w, recovery, attempt);
            && (!ok ==> w1.actor.pipeline.None? && w1.files == w.files)
            && w1.actor.outputs == w.actor.outputs && w1.actor.root == w.actor.root
            && w1.actor.recording.Some? == w.actor.recording.Some?
  {
  }

  lemma {:induction false} DropKeeps(a: Actor, names: seq<string>, stuck: Option<nat>)
    requires RecordingPlaced(a) && (a.pipeline.Some? ==> a.pipeline.value == Branches(a))
    ensures var b := DropOutputs(a, names, stuck).0;
            && RecordingPlaced(b) && (b.pipeline.Some? ==> b.pipeline.value == Branches(b))
            && b == a.(outputs := b.outputs, pipeline := b.pipeline) && b.pipeline.Some? == a.pipeline.Some?
            && forall name :: name in b.outputs ==> name in a.outputs && b.outputs[name] == a.outputs[name]
    decreases |names|
  {
    if names != [] && stuck != Some(0) {
      var b := WithoutOutput(a, names[0]);
      var c := if b.pipeline.Some? then
          b.(pipeline := Some(b.pipeline.value.(outputs := b.pipeline.value.outputs - {names[0]}))) else b;
      DropKeeps(c, names[1..], if stuck.Some? then Some(stuck.value - 1) else None);
    }
  }

  /** A removal that fails leaves its own output in place. */
  lemma {:induction false} StuckKeepsConsumers(a: Actor, names: seq<string>, stuck: Option<nat>)
    requires (forall name :: name in names ==> name in a.outputs)
             && (forall i, j :: 0 <= i < j < |names| ==> names[i] != names[j])
    ensures var (b, ok) := DropOutputs(a, names, stuck); !ok ==> HasConsumers(b)
    decreases |names|
  {
    if names != [] && stuck != Some(0) {
      var b := WithoutOutput(a, names[0]);
      var c := if b.pipeline.Some? then
          b.(pipeline := Some(b.pipeline.value.(outputs := b.pipeline.value.outputs - {names[0]}))) else b;
      assert forall name :: name in names[1..] ==> name != names[0];
      StuckKeepsConsumers(c, names[1..], if stuck.Some? then Some(stuck.value - 1) else None);
    } else if names != [] {
      assert names[0] in a.outputs;
    }
  }

  /** The names of a stop request are distinct: one name, or the keys of a map. */
  predicate Sensible(op: Operation) {
    op.VcamStop? ==> forall i, j :: 0 <= i < j < |op.names| ==> op.names[i] != op.names[j]
  }

  lemma {:induction false} StartOutputKeeps(w: World, op: Operation)
    requires Invariant(w.actor) && op.VcamStart?
    ensures Invariant(StartOutput(w, op).0.actor)
  {
    var a := w.actor;
    if op.name !in a.outputs && op.valid && a.pipeline.None? {
      var w0 := w.(actor := a.(outputs := a.outputs[op.name := op.specification]));
      RebuildKeeps(w0, false, op.first);
      FailedRebuildHasNone(w0, false, op.first);
      var w1 := Rebuild(w0, false, op.first).0;
      RebuildKeeps(w1.(actor := WithoutOutput(w1.actor, op.name)), false, op.second);
    } else if op.name !in a.outputs && op.valid {
      assert op.name in a.outputs[op.name := op.specification];
    }
  }

  lemma {:induction false} StopOutputsKeeps(w: World, op: Operation)
    requires Invariant(w.actor) && op.VcamStop? && Sensible(op)
    ensures Invariant(StopOutputs(w, op).0.actor)
  {
    var a := w.actor;
    if forall name :: name in op.names ==> name in a.outputs {
      DropKeeps(a, op.names, op.stuck);
      StuckKeepsConsumers(a, op.names, op.stuck);
      DropKeeps(a, op.names, None);
      RebuildKeeps(w.(actor := DropOutputs(a, op.names, op.stuck).0), false, op.first);
      RebuildKeeps(w.(actor := DropOutputs(a, op.names, None).0), false, op.first);
    }
  }

  lemma {:induction false} StartRecordingKeeps(w: World, op: Operation)
    requires Invariant(w.actor) && op.RecordingStart?
    ensures Invariant(StartRecording(w, op).0.actor)
  {
    var a := w.actor;
    if a.recording.None? && a.pipeline.None? {
      var w0 := w.(actor := a.(recording := Some(Recording(op.output, op.overwrite)), root := Some(op.output),
          segment := 0));
      RebuildKeeps(w0, false, op.first);
      var w1 := Rebuild(w0, false, op.first).0;
      RebuildKeeps(w1.(actor := Unrecorded(w1.actor)), false, op.second);
    }
  }

  lemma {:induction false} StopRecordingKeeps(w: World, op: Operation)
    requires Invariant(w.actor) && op.RecordingStop?
    ensures Invariant(StopRecording(w, op).0.actor)
  {
    var a := w.actor;
    var b := Unrecorded(a).(pipeline := if a.pipeline.Some? then Some(a.pipeline.value.(recording := None)) else None);
    RebuildKeeps(w.(actor := b), false, op.first);
  }

  lemma {:induction false} DispatchKeeps(w: World, op: Operation)
    requires Invariant(w.actor) && Sensible(op)
    ensures Invariant(Dispatch(w, op).0.actor)
  {
    match op
    case Inspect(_) =>
    case Reload(first) => RebuildKeeps(w, false, first);
    case Shutdown =>
    case VcamStart(_, _, _, _, _, _) => StartOutputKeeps(w, op);
    case VcamStop(_, _, _) => StopOutputsKeeps(w, op);
    case RecordingStart(_, _, _, _, _) => StartRecordingKeeps(w, op);
    case RecordingStop(_, _) => StopRecordingKeeps(w, op);
  }

  lemma {:induction false} HandleKeeps(w: World, event: Event)
    requires Invariant(w.actor) && (event.Request? ==> Sensible(event.operation))
    ensures Invariant(Handle(w, event).actor)
  {
    match event
    case Timeout(now, failed, attempt) => PollKeeps(w, now, failed, attempt);
    case Request(operation) => DispatchKeeps(w, operation);
    case Files(_) =>
  }

  lemma {:induction false} RunKeeps(w: World, events: seq<Event>)
    requires Invariant(w.actor) && forall e :: e in events && e.Request? ==> Sensible(e.operation)
    ensures Invariant(Run(w, events).actor)
    decreases |events|
  {
    if events != [] && !w.actor.stopping {
      assert events[0] in events;
      HandleKeeps(w, events[0]);
      RunKeeps(Handle(w, events[0]), events[1..]);
    }
  }

  /** From start-up, over every sequence of requests, polls, pipeline failures and
    * changes of the file system: a live pipeline implies consumers and has exactly
    * their branches, the recording and its root are present together, the delay is
    * that of the failures since the last reset, and the actor blocks without a
    * timeout only when no pipeline is live. */
  lemma {:induction false} DaemonInvariant(now: nat, files: set<Path>, events: seq<Event>)
    requires forall e :: e in events && e.Request? ==> Sensible(e.operation)
    ensures var a := Run(World(Fresh(now), files), events).actor;
            && Invariant(a) && (Waiting(a).Untimed? ==> a.pipeline.None?)
            && (Waiting(a).Timed? <==> a.outputs != map[] || a.recording.Some?)
            && a.retryDelay == if FirstDelay * TwoTo(a.failures) < LongestDelay then FirstDelay * TwoTo(a.failures)
                else LongestDelay
  {
    assert Backoff(0) == FirstDelay;
    RunKeeps(World(Fresh(now), files), events);
  }

  // ------------------------------------------------- recovery never overwrites

  /** Every rebuild in recovery, or out of a pipeline that was recording, starts on
    * a path that does not exist. */
  lemma {:induction false} RecoveryNeverOverwrites(w: World, recovery: bool, attempt: Attempt)
    requires Invariant(w.actor) && (recovery || ContinuingRecording(w.actor))
    ensures var (w1, ok) := Rebuild(w, recovery, attempt);
            ok && w1.actor.recording.Some? ==>
              && w1.actor.pipeline.Some? && w1.actor.pipeline.value.recording == w1.actor.recording
              && w1.actor.recording.value.output !in w.files && w1.files == w.files + {w1.actor.recording.value.output}
  {
    AdvanceFacts(w.actor.(pipeline := None), w.files);
  }

  /** A poll opens only paths that do not exist. */
  lemma {:induction false} PollNeverOverwrites(w: World, now: nat, failed: bool, attempt: Attempt)
    requires Invariant(w.actor)
    ensures var w1 := Poll(w, now, failed, attempt);
            w1.files == w.files || (w1.actor.recording.Some? && w1.actor.recording.value.output !in w.files
                                    && w1.files == w.files + {w1.actor.recording.value.output})
  {
    var a := Noticed(w.actor, now, failed);
    RecoveryNeverOverwrites(w.(actor := a), true, attempt);
    FailedRebuildHasNone(w.(actor := a), true, attempt);
    StartedFiles(w.(actor := a), true, attempt);
  }

  lemma {:induction false} StartedFiles(w: World, recovery: bool, attempt: Attempt)
    ensures var w1 := Rebuild(w, recovery, attempt).0;
            w1.files == w.files || (w1.actor.recording.Some? && w1.files == w.files + {w1.actor.recording.value.output})
  {
  }

  /** The chosen number is the least free one after the current. */
  lemma {:induction false} AdvanceChoosesLeast(a: Actor, files: set<Path>)
    requires RecordingPlaced(a) && a.recording.Some? && a.recording.value.output in files && a.segment < MaxSegment
    ensures match Advance(a, files)
            case None =>
              Stem(a.root.value.name).None? ||
              AllTaken(a.root.value, files, a.segment + 1, MaxSegment + 1)
            case Some(b) =>
              && a.segment < b.segment && RecoveryPath(a.root.value, b.segment) == Some(b.recording.value.output)
              && b.recording.value.output !in files
              && AllTaken(a.root.value, files, a.segment + 1, b.segment)
  {
    SearchIsLeast(a.root.value, a.segment + 1, files);
  }

  /** The segments of one recording: the number never falls, and a different
    * number is a different path. */
  predicate Succeeds(before: Actor, after: Actor) {
    && before.recording.Some? && before.root.Some? && after.recording.Some? && after.root == before.root
        && before.segment <= after.segment
    && (before.segment == after.segment < MaxSegment ==> after.recording == before.recording)
    && (before.segment < after.segment ==>
          after.recording.value.output != before.recording.value.output
              && after.recording.value.output != before.root.value)
  }

  lemma {:induction false} PlacesDiffer(before: Actor, after: Actor)
    requires RecordingPlaced(before) && RecordingPlaced(after) && before.recording.Some? && after.recording.Some?
    requires after.root == before.root && before.segment < after.segment
    ensures after.recording.value.output != before.recording.value.output
            && after.recording.value.output != before.root.value
  {
    RecoveryIsNotRoot(before.root.value, after.segment);
    NamingInjective(before.root.value, before.segment, after.segment);
  }

  lemma {:induction false} RebuildSucceeds(w: World, recovery: bool, attempt: Attempt)
    requires RecordingPlaced(w.actor) && w.actor.recording.Some?
    ensures var b := Rebuild(w, recovery, attempt).0.actor;
            && RecordingPlaced(b) && b.recording.Some? && b.root == w.actor.root && w.actor.segment <= b.segment
            && (w.actor.segment == b.segment < MaxSegment ==> b.recording == w.actor.recording)
  {
    var a := w.actor.(pipeline := None);
    AdvanceFacts(a, w.files);
    RebuildRecording(w, recovery, attempt);
  }

  /** A rebuild leaves the recording alone or moves it on once. */
  lemma {:induction false} RebuildRecording(w: World, recovery: bool, attempt: Attempt)
    ensures var b := Rebuild(w, recovery, attempt).0.actor;
            var advanced := Advance(w.actor.(pipeline := None), w.files);
            && b.root == w.actor.root
            && ((b.recording == w.actor.recording && b.segment == w.actor.segment)
                || (advanced.Some? && b.recording == advanced.value.recording && b.segment == advanced.value.segment))
  {
  }

  /** An event that neither stops the recording nor shuts the daemon down. */
  predicate Continues(e: Event) {
    e.Request? ==> !e.operation.RecordingStop? && !e.operation.Shutdown? && Sensible(e.operation)
  }

  lemma {:induction false} StepSucceeds(w: World, e: Event)
    requires Invariant(w.actor) && w.actor.recording.Some? && Continues(e)
    ensures Succeeds(w.actor, Handle(w, e).actor)
  {
    var after := Handle(w, e).actor;
    HandleKeeps(w, e);
    StepMonotone(w, e);
    if w.actor.segment < after.segment { PlacesDiffer(w.actor, after); }
  }

  predicate Monotone(before: Actor, after: Actor) {
    && after.recording.Some? && after.root == before.root && before.segment <= after.segment
    && (before.segment == after.segment < MaxSegment ==> after.recording == before.recording)
  }

  lemma {:induction false} StepMonotone(w: World, e: Event)
    requires Invariant(w.actor) && w.actor.recording.Some? && Continues(e)
    ensures Monotone(w.actor, Handle(w, e).actor)
  {
    match e
    case Files(_) =>
    case Timeout(now, failed, attempt) =>
      var a := Noticed(w.actor, now, failed);
      RebuildSucceeds(w.(actor := a), true, attempt);
    case Request(op) =>
      match op {
        case Inspect(_) =>
        case Reload(first) => RebuildSucceeds(w, false, first);
        case Shutdown =>
        case VcamStart(_, _, _, _, _, _) => StartMonotone(w, op);
        case VcamStop(_, _, _) => StopMonotone(w, op);
        case RecordingStart(_, _, _, _, _) =>
        case RecordingStop(_, _) =>
      }
  }

  lemma {:induction false} StartMonotone(w: World, op: Operation)
    requires Invariant(w.actor) && w.actor.recording.Some? && op.VcamStart?
    ensures Monotone(w.actor, StartOutput(w, op).0.actor)
  {
    var a := w.actor;
    var w0 := w.(actor := a.(outputs := a.outputs[op.name := op.specification]));
    RebuildSucceeds(w0, false, op.first);
    var w1 := Rebuild(w0, false, op.first).0;
    RebuildSucceeds(w1.(actor := WithoutOutput(w1.actor, op.name)), false, op.second);
  }

  lemma {:induction false} DroppedMonotone(w: World, a: Actor, op: Operation)
    requires Invariant(w.actor) && w.actor.recording.Some? && op.VcamStop? && RecordingPlaced(a)
    requires a == w.actor.(outputs := a.outputs, pipeline := a.pipeline)
    ensures Monotone(w.actor, a) && Monotone(w.actor, Rebuild(w.(actor := a), false, op.first).0.actor)
  {
    RebuildSucceeds(w.(actor := a), false, op.first);
  }

  lemma {:induction false} StopMonotone(w: World, op: Operation)
    requires Invariant(w.actor) && w.actor.recording.Some? && op.VcamStop?
    ensures Monotone(w.actor, StopOutputs(w, op).0.actor)
  {
    DropKeeps(w.actor, op.names, op.stuck);
    DropKeeps(w.actor, op.names, None);
    DroppedMonotone(w, DropOutputs(w.actor, op.names, op.stuck).0, op);
    DroppedMonotone(w, DropOutputs(w.actor, op.names, None).0, op);
  }

  /** Segments of one recording never share a path, over any run that does not
    * stop it. */
  lemma {:induction false} SegmentsNeverShare(w: World, events: seq<Event>)
    requires Invariant(w.actor) && w.actor.recording.Some? && forall e :: e in events ==> Continues(e)
    ensures Succeeds(w.actor, Run(w, events).actor)
    decreases |events|
  {
    if events != [] && !w.actor.stopping {
      assert events[0] in events;
      StepSucceeds(w, events[0]);
      HandleKeeps(w, events[0]);
      var w1 := Handle(w, events[0]);
      SegmentsNeverShare(w1, events[1..]);
      var after := Run(w1, events[1..]).actor;
      RunKeeps(w1, events[1..]);
      if w.actor.segment < after.segment { PlacesDiffer(w.actor, after); }
    }
  }

  /** The rebuild brings up a recording on a file that exists already. */
  predicate OpensExisting(w: World, recovery: bool, attempt: Attempt) {
    var (w1, ok) := Rebuild(w, recovery, attempt);
    ok && w1.actor.pipeline.Some? && w1.actor.pipeline.value.recording.Some?
    && w1.actor.pipeline.value.recording.value.output in w.files
  }

  /** A rebuild opens an existing file, exactly, when it is a plain one without a
    * live recording pipeline, over a recording that may be overwritten and whose
    * file exists, and the source, the outputs and the pipeline allow it.  It is
    * then the original file of the recording, never a recovery segment. */
  lemma {:induction false} OpensExistingExact(w: World, recovery: bool, attempt: Attempt)
    requires Invariant(w.actor)
    ensures OpensExisting(w, recovery, attempt) <==>
            && !recovery && !ContinuingRecording(w.actor)
            && w.actor.recording.Some? && w.actor.recording.value.output in w.files && w.actor.recording.value.overwrite
            && attempt.source.Some? && attempt.converts && attempt.starts
    ensures OpensExisting(w, recovery, attempt) ==>
              w.actor.segment == 0 && Rebuild(w, recovery, attempt).0.actor.pipeline.value.recording.value.output ==
                  w.actor.root.value
  {
    var a := w.actor.(pipeline := None);
    AdvanceFacts(a, w.files);
    RebuildCases(w, recovery, attempt);
  }

  /** From start-up to such a reload: a recording starts, its pipeline fails and
    * the camera is lost, and a reload that finds it again opens the file recorded
    * so far, where it may be overwritten; where it may not, the reload fails. */
  lemma {:induction false} ReloadReusesPath(now: nat, path: Path, overwrite: bool, good: Attempt, lost: Attempt)
    requires good.source.Some? && good.converts && good.starts && lost.source.None?
    ensures var events := [Request(RecordingStart(path, overwrite, true, good, good)), Timeout(now, true, lost)];
            var w := Run(World(Fresh(now), {}), events);
            var (w1, ok) := Dispatch(w, Reload(good));
            && w.files == {path} && w.actor.recording == Some(Recording(path, overwrite)) && w.actor.pipeline.None?
            && (OpensExisting(w, false, good) <==> overwrite) && ok == overwrite
            && (ok ==> w1.actor.pipeline == Some(Pipeline(map[], Some(Recording(path, true)))))
  {
    var start := RecordingStart(path, overwrite, true, good, good);
    var w0 := World(Fresh(now), {});
    var w1 := Handle(w0, Request(start));
    var w2 := Handle(w1, Timeout(now, true, lost));
    StartedFresh(now, path, overwrite, good);
    assert w1.files == {path};
    LostCamera(w1, now, lost);
    RunTwo(w0, Request(start), Timeout(now, true, lost));
    assert Invariant(w2.actor) by {
      assert Backoff(0) == FirstDelay;
      HandleKeeps(w0, Request(start));
      HandleKeeps(w1, Timeout(now, true, lost));
    }
    OpensExistingExact(w2, false, good);
    RebuildCases(w2, false, good);
  }

  lemma {:induction false} StartedFresh(now: nat, path: Path, overwrite: bool, good: Attempt)
    requires good.source.Some? && good.converts && good.starts
    ensures var recording := Some(Recording(path, overwrite));
            Handle(World(Fresh(now), {}), Request(RecordingStart(path, overwrite, true, good, good))) ==
            World(Fresh(now).(source := good.source, pipeline := Some(Pipeline(map[], recording)),
                recording := recording, root := Some(path)),
                  {} + {path})
  {
  }

  /** A recording that may not overwrite keeps cameras from joining its pipeline:
    * adding a branch checks the file, which exists because it is being recorded. */
  lemma {:induction false} RecordingBlocksCameras(now: nat, path: Path, good: Attempt, op: Operation)
    requires good.source.Some? && good.converts && good.starts && op.VcamStart?
    ensures var w := Handle(World(Fresh(now), {}), Request(RecordingStart(path, false, true, good, good)));
            w.actor.pipeline.Some? && Dispatch(w, op) == (w, false)
  {
    StartedFresh(now, path, false, good);
  }

  lemma {:induction false} LostCamera(w: World, now: nat, lost: Attempt)
    requires w.actor.pipeline.Some? && HasConsumers(w.actor) && lost.source.None?
    ensures var w1 := Handle(w, Timeout(now, true, lost));
            && w1.files == w.files && w1.actor.pipeline.None? && w1.actor.outputs == w.actor.outputs
            && w1.actor.recording == w.actor.recording && w1.actor.root == w.actor.root
            && w1.actor.stopping == w.actor.stopping
  {
  }

  lemma {:induction false} RunTwo(w: World, first: Event, second: Event)
    requires !w.actor.stopping && !Handle(w, first).actor.stopping
    ensures Run(w, [first, second]) == Handle(Handle(w, first), second)
  {
    assert [first, second][1..] == [second] && [second][1..] == [];
    assert Run(Handle(w, first), [second]) == Run(Handle(Handle(w, first), second), []);
  }

  /** A request that touches a live pipeline never opens an existing file either,
    * but for a recording that may overwrite it. */
  lemma {:induction false} StartRecordingLive(w: World, op: Operation)
    requires Invariant(w.actor) && op.RecordingStart? && w.actor.pipeline.Some?
    ensures var (w1, ok) := StartRecording(w, op);
            && (ok <==> w.actor.recording.None? && op.accepted && (op.output in w.files ==> op.overwrite))
            && (ok ==> w1.actor.pipeline.value.recording == Some(Recording(op.output, op.overwrite)))
  {
  }

  // ------------------------------------------- failed starts change nothing owned

  predicate SameOwned(a: Actor, b: Actor) {
    a.outputs == b.outputs && a.recording == b.recording && a.root == b.root && a.segment == b.segment
  }

  /** Without a live recording pipeline a plain rebuild moves no segment. */
  lemma {:induction false} PlainRebuildOwns(w: World, attempt: Attempt)
    requires !ContinuingRecording(w.actor)
    ensures SameOwned(w.actor, Rebuild(w, false, attempt).0.actor)
  {
  }

  /** A start request that fails leaves outputs, recording, root and segment as
    * they were, though up to two rebuilds ran. */
  lemma {:induction false} FailedStartChangesNothing(w: World, op: Operation)
    requires Invariant(w.actor) && (op.VcamStart? || op.RecordingStart?)
    ensures var (w1, ok) := Dispatch(w, op); !ok ==> SameOwned(w.actor, w1.actor)
  {
    var a := w.actor;
    if op.VcamStart? && a.pipeline.None? && op.name !in a.outputs {
      var w0 := w.(actor := a.(outputs := a.outputs[op.name := op.specification]));
      PlainRebuildOwns(w0, op.first);
      FailedRebuildHasNone(w0, false, op.first);
      var (w1, ok) := Rebuild(w0, false, op.first);
      assert a.outputs[op.name := op.specification] - {op.name} == a.outputs;
      if !ok { PlainRebuildOwns(w1.(actor := WithoutOutput(w1.actor, op.name)), op.second); }
    } else if op.RecordingStart? && a.pipeline.None? && a.recording.None? {
      var w0 := w.(actor := a.(recording := Some(Recording(op.output, op.overwrite)), root := Some(op.output),
          segment := 0));
      PlainRebuildOwns(w0, op.first);
      var w1 := Rebuild(w0, false, op.first).0;
      PlainRebuildOwns(w1.(actor := Unrecorded(w1.actor)), op.second);
    }
  }

  // --------------------------------------------------- what a request achieves

  predicate SameRecording(a: Actor, b: Actor) {
    a.recording == b.recording && a.root == b.root && a.segment == b.segment
  }

  /** A live pipeline exactly when there is something to serve. */
  predicate Serving(a: Actor) { a.pipeline.Some? <==> HasConsumers(a) }

  lemma {:induction false} RebuildServes(w: World, recovery: bool, attempt: Attempt)
    ensures var (w1, ok) := Rebuild(w, recovery, attempt); ok ==> Serving(w1.actor)
  {
    RebuildRecording(w, recovery, attempt);
    FailedRebuildHasNone(w, recovery, attempt);
  }

  lemma {:induction false} VcamStarted(w: World, op: Operation)
    requires Invariant(w.actor) && op.VcamStart?
    ensures var (w1, ok) := StartOutput(w, op);
            && (ok <==>
                  && op.name !in w.actor.outputs && op.valid
                  && (if w.actor.pipeline.Some? then op.accepted
                      else op.first.source.Some? && op.first.converts && op.first.starts)
                  && (w.actor.recording.Some? && w.actor.recording.value.output in w.files ==>
                      w.actor.recording.value.overwrite))
            && (ok ==>
                  && w1.actor.outputs == w.actor.outputs[op.name := op.specification]
                  && SameRecording(w.actor, w1.actor) && Serving(w1.actor))
  {
    var a := w.actor;
    assert op.name in a.outputs[op.name := op.specification];
    if op.name !in a.outputs && a.pipeline.None? {
      var w0 := w.(actor := a.(outputs := a.outputs[op.name := op.specification]));
      PlainRebuildOwns(w0, op.first);
      RebuildServes(w0, false, op.first);
    }
  }

  function Names(names: seq<string>): set<string> { set name | name in names }

  /** The outputs of `names` up to the first whose removal fails. */
  function Dropped(names: seq<string>, stuck: Option<nat>): set<string> {
    if stuck.Some? && stuck.value < |names| then Names(names[..stuck.value]) else Names(names)
  }

  lemma {:induction false} DroppedCons(names: seq<string>, stuck: Option<nat>)
    requires names != [] && stuck != Some(0)
    ensures Dropped(names, stuck) ==
            {names[0]} + Dropped(names[1..], if stuck.Some? then Some(stuck.value - 1) else None)
  {
    assert names == [names[0]] + names[1..];
    if stuck.Some? && stuck.value < |names| {
      assert names[..stuck.value] == [names[0]] + names[1..][..stuck.value - 1];
    }
  }

  lemma {:induction false} DropsExactly(a: Actor, names: seq<string>, stuck: Option<nat>)
    ensures var (b, ok) := DropOutputs(a, names, stuck);
            && (ok <==> (stuck.Some? ==> stuck.value >= |names|))
            && b.outputs == a.outputs - Dropped(names, stuck)
    decreases |names|
  {
    if names == [] || stuck == Some(0) {
      assert names[..0] == [];
      assert a.outputs - Names([]) == a.outputs;
    } else {
      var b := WithoutOutput(a, names[0]);
      var c := if b.pipeline.Some? then
          b.(pipeline := Some(b.pipeline.value.(outputs := b.pipeline.value.outputs - {names[0]}))) else b;
      var later := if stuck.Some? then Some(stuck.value - 1) else None;
      DropsExactly(c, names[1..], later);
      DroppedCons(names, stuck);
      assert (a.outputs - {names[0]}) - Dropped(names[1..], later) == a.outputs - Dropped(names, stuck);
    }
  }

  /** What lets a stop bring the others back when no pipeline is live. */
  predicate Resumes(recording: Option<Recording>, files: set<Path>, attempt: Attempt) {
    && attempt.source.Some? && attempt.converts && attempt.starts
    && (recording.Some? && recording.value.output in files ==> recording.value.overwrite)
  }

  lemma {:induction false} IdleRebuildExact(w: World, attempt: Attempt)
    requires w.actor.pipeline.None?
    ensures var (w1, ok) := Rebuild(w, false, attempt);
            && (ok <==> (HasConsumers(w.actor) ==> Resumes(w.actor.recording, w.files, attempt)))
            && SameOwned(w.actor, w1.actor) && (ok ==> Serving(w1.actor))
  {
    PlainRebuildOwns(w, attempt);
    RebuildServes(w, false, attempt);
  }

  lemma {:induction false} VcamStopped(w: World, op: Operation)
    requires Invariant(w.actor) && op.VcamStop?
    ensures var (w1, ok) := StopOutputs(w, op);
            && (ok <==>
                  && (forall name :: name in op.names ==> name in w.actor.outputs)
                  && (if w.actor.pipeline.Some? then op.stuck.Some? ==> op.stuck.value >= |op.names|
                      else w.actor.outputs - Names(op.names) != map[] || w.actor.recording.Some? ==>
                             Resumes(w.actor.recording, w.files, op.first)))
            && (ok ==>
                  && w1.actor.outputs == w.actor.outputs - Names(op.names)
                  && SameRecording(w.actor, w1.actor) && Serving(w1.actor))
            && (!ok ==>
                  && SameRecording(w.actor, w1.actor) && w1.actor.pipeline.Some? == w.actor.pipeline.Some?
                  && (w1.actor.outputs == w.actor.outputs
                      - if !(forall name :: name in op.names ==> name in w.actor.outputs) then {}
                        else if w.actor.pipeline.Some? then Names(op.names[..op.stuck.value])
                        else Names(op.names)))
  {
    var a := w.actor;
    var stuck := if a.pipeline.Some? then op.stuck else None;
    DropKeeps(a, op.names, stuck);
    DropsExactly(a, op.names, stuck);
    var b := DropOutputs(a, op.names, stuck).0;
    if a.pipeline.None? {
      IdleRebuildExact(w.(actor := b), op.first);
    } else if !HasConsumers(b) {
      PlainRebuildOwns(w.(actor := b), op.first);
      RebuildServes(w.(actor := b), false, op.first);
    }
  }

  lemma {:induction false} RecordingStarted(w: World, op: Operation)
    requires Invariant(w.actor) && op.RecordingStart?
    ensures var (w1, ok) := StartRecording(w, op);
            && (ok <==>
                  && w.actor.recording.None?
                  && (if w.actor.pipeline.Some? then op.accepted
                      else op.first.source.Some? && op.first.converts && op.first.starts)
                  && (op.output in w.files ==> op.overwrite))
            && (ok ==>
                  && w1.actor.recording == Some(Recording(op.output, op.overwrite))
                  && w1.actor.root == Some(op.output) && w1.actor.segment == 0
                  && w1.actor.outputs == w.actor.outputs && Serving(w1.actor)
                  && w1.files == w.files + {op.output})
  {
    var a := w.actor;
    if a.recording.None? && a.pipeline.None? {
      var w0 := w.(actor := a.(recording := Some(Recording(op.output, op.overwrite)), root := Some(op.output),
          segment := 0));
      PlainRebuildOwns(w0, op.first);
      RebuildServes(w0, false, op.first);
    }
  }

  lemma {:induction false} RecordingStopped(w: World, op: Operation)
    requires Invariant(w.actor) && op.RecordingStop?
    ensures var (w1, ok) := StopRecording(w, op);
            && (ok <==>
                  && w.actor.recording.Some?
                  && (if w.actor.pipeline.Some? then op.accepted
                      else w.actor.outputs != map[] ==> Resumes(None, w.files, op.first)))
            && (ok ==> w1.actor.recording.None? && w1.actor.outputs == w.actor.outputs && Serving(w1.actor))
  {
    var a := w.actor;
    var b := Unrecorded(a).(pipeline := if a.pipeline.Some? then Some(a.pipeline.value.(recording := None)) else None);
    if b.pipeline.None? {
      IdleRebuildExact(w.(actor := b), op.first);
    } else if !HasConsumers(b) {
      PlainRebuildOwns(w.(actor := b), op.first);
      RebuildServes(w.(actor := b), false, op.first);
    }
  }

  /** A recording can go on: its file is not there yet, or some recovery number
    * after the current one is free. */
  ghost predicate CanGoOn(a: Actor, files: set<Path>) {
    a.recording.Some? && a.root.Some? && a.recording.value.output in files ==>
      Stem(a.root.value.name).Some?
      && SomeFree(a.root.value, if a.segment < MaxSegment then a.segment + 1 else MaxSegment, files)
  }

  lemma {:induction false} AdvanceExact(a: Actor, files: set<Path>)
    requires RecordingPlaced(a)
    ensures Advance(a, files).Some? <==> CanGoOn(a, files)
    ensures a.recording.None? || a.recording.value.output !in files ==> Advance(a, files) == Some(a)
  {
    if a.recording.Some? && a.recording.value.output in files {
      NextIsLeast(a.root.value, if a.segment < MaxSegment then a.segment + 1 else MaxSegment, files);
    }
  }

  /** What lets a due recovery bring the pipeline back. */
  ghost predicate Recovers(w: World, attempt: Attempt) {
    attempt.source.Some? && attempt.converts && attempt.starts && CanGoOn(w.actor, w.files)
  }

  /** The camera a recovery goes on with: the one found, in its old format when it
    * is the same camera. */
  predicate GoesOnWith(before: Option<Source>, found: Source, now: Option<Source>) {
    && now.Some? && now.value.stableId == found.stableId
    && now.value.tuple == if before.Some? && before.value.stableId == found.stableId then before.value.tuple
        else found.tuple
  }

  /** A poll of a pipeline that runs, or before its time, does nothing.  A due one,
    * and one that finds its pipeline failed, brings the pipeline back and resets
    * the delay exactly when it finds the camera and a free name, the outputs
    * convert and the pipeline starts; otherwise, whichever of these failed, it
    * waits the delay and counts one more failure. */
  lemma {:induction false} PollTiming(w: World, now: nat, failed: bool, attempt: Attempt)
    requires Invariant(w.actor) && HasConsumers(w.actor)
    ensures var w1 := Poll(w, now, failed, attempt);
            var b := w1.actor;
            if (if w.actor.pipeline.Some? then !failed else now < w.actor.nextRetry) then w1 == w
            else if Recovers(w, attempt) then
              && Serving(b) && b.pipeline.Some? && b.failures == 0 && b.retryDelay == FirstDelay && !b.troubled
              && b.reconnects == Saturating(w.actor.reconnects)
              && GoesOnWith(w.actor.source, attempt.source.value, b.source)
            else
              b.pipeline.None? && b.failures == w.actor.failures + 1 && b.nextRetry == now + Backoff(w.actor.failures)
              && b.retryDelay == Backoff(w.actor.failures + 1) && b.troubled && w1.files == w.files
  {
    var due := w.(actor := Noticed(w.actor, now, failed));
    BackoffDoubles(w.actor.failures);
    AdvanceExact(due.actor.(pipeline := None), w.files);
    RecoveryExact(due, attempt);
  }

  lemma {:induction false} RecoveryExact(w: World, attempt: Attempt)
    requires Invariant(w.actor) && HasConsumers(w.actor)
    ensures var (w1, ok) := Rebuild(w, true, attempt);
            var b := w1.actor;
            && (ok <==> attempt.source.Some? && attempt.converts && attempt.starts
                        && Advance(w.actor.(pipeline := None), w.files).Some?)
            && (ok ==> Serving(b) && b.pipeline.Some? && b.failures == 0 && b.retryDelay == FirstDelay && !b.troubled
                       && b.reconnects == Saturating(w.actor.reconnects)
                       && GoesOnWith(w.actor.source, attempt.source.value, b.source))
            && (!ok ==> b.pipeline.None? && b.failures == w.actor.failures && b.retryDelay == w.actor.retryDelay
                        && w1.files == w.files)
  {
    var a := w.actor.(pipeline := None);
    RebuildServes(w, true, attempt);
    RebuildCases(w, true, attempt);
    RebuildRecording(w, true, attempt);
    FailedRebuildHasNone(w, true, attempt);
    if Advance(a, w.files).Some? { AdvanceFacts(a, w.files); }
  }
}
