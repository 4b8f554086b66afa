/** Reloading, shutting down and starts that fail: what each leaves, and that
  * nothing happens after a shutdown. */
module DaemonRequests {
  import opened Wrappers
  import opened RecordingPath
  import opened Daemon
  import opened DaemonSafety

  // ------------------------------------------------------------------ shutdown

  /** Nothing runs and nothing is wanted any more. */
  predicate Cleared(a: Actor) {
    && a.pipeline.None? && a.outputs == map[] && a.recording.None? && a.root.None? && a.segment == 0
  }

  /** A shutdown always succeeds and takes everything down; it touches no file
    * and leaves the counters and the camera as they were. */
  lemma {:induction false} ShutdownExact(w: World)
    ensures var (w1, ok) := Dispatch(w, Shutdown);
            && ok && w1.actor.stopping && Cleared(w1.actor) && w1.files == w.files
            && w1.actor == w.actor.(pipeline := None, outputs := map[], recording := None, root := None, segment := 0,
                                    stopping := true)
  {
  }

  /** The counters and the flag that a start or stop leaves alone. */
  predicate Kept(a: Actor, b: Actor) {
    a.stopping == b.stopping && a.reloads == b.reloads && a.reconnects == b.reconnects
  }

  lemma {:induction false} RebuildGoesOn(w: World, recovery: bool, attempt: Attempt)
    ensures var b := Rebuild(w, recovery, attempt).0.actor;
            && b.stopping == w.actor.stopping && b.reloads == w.actor.reloads
            && (!recovery ==> b.reconnects == w.actor.reconnects)
  {
    RebuildCases(w, recovery, attempt);
  }

  lemma {:induction false} DropGoesOn(a: Actor, names: seq<string>, stuck: Option<nat>)
    ensures Kept(a, DropOutputs(a, names, stuck).0)
    decreases |names|
  {
    if names != [] && stuck != Some(0) {
      var b := WithoutOutput(a, names[0]);
      var c := if b.pipeline.Some? then
          b.(pipeline := Some(b.pipeline.value.(outputs := b.pipeline.value.outputs - {names[0]}))) else b;
      DropGoesOn(c, names[1..], if stuck.Some? then Some(stuck.value - 1) else None);
    }
  }

  lemma {:induction false} StartGoesOn(w: World, op: Operation)
    requires op.VcamStart? || op.RecordingStart?
    ensures Kept(w.actor, Dispatch(w, op).0.actor)
  {
    var a := w.actor;
    var b := if op.VcamStart? then a.(outputs := a.outputs[op.name := op.specification])
        else a.(recording := Some(Recording(op.output, op.overwrite)), root := Some(op.output), segment := 0);
    var w1 := Rebuild(w.(actor := b), false, op.first).0;
    var c := if op.VcamStart? then WithoutOutput(w1.actor, op.name) else Unrecorded(w1.actor);
    RebuildGoesOn(w.(actor := b), false, op.first);
    RebuildGoesOn(w1.(actor := c), false, op.second);
  }

  lemma {:induction false} StopGoesOn(w: World, op: Operation)
    requires op.VcamStop? || op.RecordingStop?
    ensures Kept(w.actor, Dispatch(w, op).0.actor)
  {
    var a := w.actor;
    if op.VcamStop? {
      DropGoesOn(a, op.names, op.stuck);
      DropGoesOn(a, op.names, None);
      RebuildGoesOn(w.(actor := DropOutputs(a, op.names, op.stuck).0), false, op.first);
      RebuildGoesOn(w.(actor := DropOutputs(a, op.names, None).0), false, op.first);
    } else {
      var b := Unrecorded(a).(pipeline := if a.pipeline.Some? then Some(a.pipeline.value.(recording := None))
          else None);
      RebuildGoesOn(w.(actor := b), false, op.first);
    }
  }

  /** Only a shutdown stops the actor. */
  lemma {:induction false} OnlyShutdownStops(w: World, event: Event)
    ensures Handle(w, event).actor.stopping <==> w.actor.stopping || event == Request(Shutdown)
  {
    match event
    case Files(_) =>
    case Timeout(now, failed, attempt) => RebuildGoesOn(w.(actor := Noticed(w.actor, now, failed)), true, attempt);
    case Request(op) =>
      match op {
        case Inspect(_) =>
        case Reload(first) => RebuildGoesOn(w, false, first);
        case Shutdown =>
        case VcamStart(_, _, _, _, _, _) => StartGoesOn(w, op);
        case VcamStop(_, _, _) => StopGoesOn(w, op);
        case RecordingStart(_, _, _, _, _) => StartGoesOn(w, op);
        case RecordingStop(_, _) => StopGoesOn(w, op);
      }
  }

  /** A run has stopped exactly when it handled a shutdown, and it has then
    * cleared everything. */
  lemma {:induction false} StoppedExact(w: World, events: seq<Event>)
    requires !w.actor.stopping
    ensures var end := Run(w, events).actor;
            (end.stopping <==> Request(Shutdown) in events) && (end.stopping ==> Cleared(end))
    decreases |events|
  {
    if events != [] {
      var w1 := Handle(w, events[0]);
      OnlyShutdownStops(w, events[0]);
      assert events == [events[0]] + events[1..];
      if events[0] == Request(Shutdown) {
        ShutdownExact(w);
        assert Run(w1, events[1..]) == w1;
      } else {
        StoppedExact(w1, events[1..]);
      }
    }
  }

  lemma {:induction false} RunSplits(w: World, first: seq<Event>, second: seq<Event>)
    ensures Run(w, first + second) == Run(Run(w, first), second)
    decreases |first|
  {
    if first == [] {
      assert first + second == second;
    } else {
      assert (first + second)[1..] == first[1..] + second && (first + second)[0] == first[0];
      if !w.actor.stopping { RunSplits(Handle(w, first[0]), first[1..], second); }
    }
  }

  /** Once a shutdown was handled no later event changes anything. */
  lemma {:induction false} NothingAfterShutdown(w: World, before: seq<Event>, later: seq<Event>)
    requires !w.actor.stopping
    ensures var down := Run(w, before + [Request(Shutdown)]);
            down.actor.stopping && Cleared(down.actor) && Run(w, before + [Request(Shutdown)] + later) == down
  {
    var events := before + [Request(Shutdown)];
    assert events[|before|] == Request(Shutdown);
    StoppedExact(w, events);
    RunSplits(w, events, later);
  }

  // -------------------------------------------------------------------- reload

  /** What lets a plain rebuild bring up everything that is wanted: the camera is
    * there, the outputs convert, the pipeline starts, and a recording has a file
    * to go on with: the next free one when it was live, else its own unless that
    * exists and must not be overwritten. */
  ghost predicate Rebuilds(w: World, attempt: Attempt) {
    && attempt.source.Some? && attempt.converts && attempt.starts
    && (w.actor.recording.Some? ==>
          if w.actor.pipeline.Some? then CanGoOn(w.actor, w.files)
          else w.actor.recording.value.output in w.files ==> w.actor.recording.value.overwrite)
  }

  /** What a rebuild leaves when it brought everything up. */
  predicate RebuiltFrom(w: World, attempt: Attempt, w1: World) {
    && w1.actor.source == attempt.source
    && w1.actor.pipeline == Some(Pipeline(w.actor.outputs, w1.actor.recording)) && w1.actor.outputs == w.actor.outputs
    && w1.actor.recording.Some? == w.actor.recording.Some? && w1.actor.root == w.actor.root
    && !w1.actor.troubled && w1.actor.retryDelay == FirstDelay && w1.actor.reconnects == w.actor.reconnects
    && (w.actor.recording.None? ==> w1.files == w.files)
    && (w.actor.recording.Some? ==>
          && w1.files == w.files + {w1.actor.recording.value.output}
          && (if w.actor.pipeline.Some? && w.actor.recording.value.output in w.files then
                w1.actor.recording.value.output !in w.files
              else w1.actor.recording == w.actor.recording))
  }

  lemma {:induction false} ConnectedFrom(w: World, c: Actor, attempt: Attempt)
    requires attempt.source.Some? && c.source == attempt.source
    requires c == w.actor.(pipeline := None, recording := c.recording, segment := c.segment, source := c.source)
    requires c.recording.Some? == w.actor.recording.Some?
    requires w.actor.recording.Some? ==>
               if w.actor.pipeline.Some? && w.actor.recording.value.output in w.files then
                 c.recording.value.output !in w.files
               else c.recording == w.actor.recording
    ensures RebuiltFrom(w, attempt, Connected(w.(actor := c), false))
  {
  }

  lemma {:induction false} RebuildExact(w: World, attempt: Attempt)
    requires Invariant(w.actor) && HasConsumers(w.actor)
    ensures var (w1, ok) := Rebuild(w, false, attempt);
            && (ok <==> Rebuilds(w, attempt)) && (ok ==> RebuiltFrom(w, attempt, w1))
            && w1.actor.reloads == w.actor.reloads
  {
    var a := w.actor.(pipeline := None);
    RebuildCases(w, false, attempt);
    AdvanceFacts(a, w.files);
    AdvanceExact(a, w.files);
    var advanced := if ContinuingRecording(w.actor) then Advance(a, w.files) else Some(a);
    if attempt.source.Some? && advanced.Some? {
      ConnectedFrom(w, advanced.value.(source := attempt.source), attempt);
    }
  }

  /** A reload with consumers rebuilds the pipeline and counts one more reload, or
    * ends without a pipeline and counts none; without consumers it forgets the
    * camera and the trouble. */
  lemma {:induction false} ReloadExact(w: World, attempt: Attempt)
    requires Invariant(w.actor)
    ensures var (w1, ok) := Dispatch(w, Reload(attempt));
            var next := if w.actor.reloads < MaxSegment then w.actor.reloads + 1 else MaxSegment;
            if HasConsumers(w.actor) then
              && (ok <==> Rebuilds(w, attempt))
              && (if ok then RebuiltFrom(w, attempt, w1) && w1.actor.reloads == next
                  else w1.actor.pipeline.None? && w1.actor.reloads == w.actor.reloads && w1.files == w.files
                       && w1.actor.outputs == w.actor.outputs && w1.actor.root == w.actor.root
                       && w1.actor.recording.Some? == w.actor.recording.Some?)
            else
              ok && w1 == w.(actor := w.actor.(source := None, troubled := false, reloads := next))
  {
    if HasConsumers(w.actor) {
      RebuildExact(w, attempt);
      FailedRebuildHasNone(w, false, attempt);
    }
  }

  // ------------------------------------------------------------- starts and stops

  /** Starts and stops count neither as reloads nor as reconnects, and looking at the
    * camera changes nothing but the camera that is remembered. */
  lemma {:induction false} RequestsCountNothing(w: World, op: Operation)
    requires !op.Reload? && !op.Shutdown?
    ensures Kept(w.actor, Dispatch(w, op).0.actor)
    ensures op.Inspect? ==>
              && Dispatch(w, op) == (w.(actor := w.actor.(source := Dispatch(w, op).0.actor.source)), true)
              && Dispatch(w, op).0.actor.source == if op.found.Some? then op.found else w.actor.source
  {
    if op.VcamStart? || op.RecordingStart? { StartGoesOn(w, op); }
    if op.VcamStop? || op.RecordingStop? { StopGoesOn(w, op); }
  }

  lemma {:induction false} RebuiltOn(w: World, attempt: Attempt)
    ensures var (w1, ok) := Rebuild(w, false, attempt);
            ok && w1.actor.pipeline.Some? ==> w1.actor.source == attempt.source
  {
    RebuildCases(w, false, attempt);
  }

  /** A start or stop that brings the pipeline up does so on the camera it found. */
  lemma {:induction false} ServesOnFound(w: World, op: Operation)
    requires Invariant(w.actor) && w.actor.pipeline.None?
    requires op.VcamStart? || op.RecordingStart? || op.VcamStop? || op.RecordingStop?
    ensures var (w1, ok) := Dispatch(w, op);
            ok && w1.actor.pipeline.Some? ==> w1.actor.source == op.first.source
  {
    var a := w.actor;
    match op
    case VcamStart(name, specification, _, _, first, _) =>
      RebuiltOn(w.(actor := a.(outputs := a.outputs[name := specification])), first);
    case RecordingStart(output, overwrite, _, first, _) =>
      RebuiltOn(w.(actor := a.(recording := Some(Recording(output, overwrite)), root := Some(output), segment := 0)),
                first);
    case VcamStop(names, _, first) => RebuiltOn(w.(actor := DropOutputs(a, names, None).0), first);
    case RecordingStop(_, first) => RebuiltOn(w.(actor := Unrecorded(a).(pipeline := None)), first);
    case Inspect(_) =>
    case Reload(_) =>
    case Shutdown =>
  }

  // ----------------------------------------------------------- starts that fail

  /** When a start without a live pipeline fails and others still want one, the
    * actor tries once more without the newcomer, and serves them again exactly
    * when that rebuild succeeds. */
  lemma {:induction false} FailedStartServesOthers(w: World, op: Operation)
    requires Invariant(w.actor) && w.actor.pipeline.None? && HasConsumers(w.actor)
    requires op.VcamStart? && op.valid && op.name !in w.actor.outputs
    ensures var (w1, ok) := Dispatch(w, op);
            !ok ==> (w1.actor.pipeline.Some? <==> Rebuilds(w, op.second))
                    && (w1.actor.pipeline.Some? ==>
                          w1.actor.pipeline.value == Pipeline(w.actor.outputs, w.actor.recording))
  {
    var a := w.actor;
    var w0 := w.(actor := a.(outputs := a.outputs[op.name := op.specification]));
    var w1 := Rebuild(w0, false, op.first).0;
    var w2 := w1.(actor := WithoutOutput(w1.actor, op.name));
    PlainRebuildOwns(w0, op.first);
    FailedRebuildHasNone(w0, false, op.first);
    assert a.outputs[op.name := op.specification] - {op.name} == a.outputs;
    if !Rebuild(w0, false, op.first).1 {
      RebuildKeeps(w0, false, op.first);
      RebuildExact(w2, op.second);
      FailedRebuildHasNone(w2, false, op.second);
    }
  }
}
