/** The actor as it runs: fields updated by requests, polls and the loop.
  * `Now()` is the value `Daemon` speaks about. */
module DaemonActor {
  import opened Wrappers
  import opened RecordingPath
  import opened Daemon

  class ActorState {
    var source: Option<Source>
    var pipeline: Option<Pipeline>
    var outputs: map<string, nat>
    var recording: Option<Recording>
    var recordingRoot: Option<Path>
    var recordingSegment: nat
    var reloads: nat
    var reconnects: nat
    var troubled: bool
    var nextRetry: nat
    var retryDelay: nat
    var stopping: bool
    var files: set<Path>
    ghost var failures: nat

    ghost function Now(): World
      reads this
    {
      World(Actor(source, pipeline, outputs, recording, recordingRoot, recordingSegment, reloads, reconnects, troubled,
                  nextRetry, retryDelay, failures, stopping), files)
    }

    constructor (now: nat, files: set<Path>)
      ensures Now() == World(Fresh(now), files)
    {
      source, pipeline, outputs, recording, recordingRoot, recordingSegment := None, None, map[], None, None, 0;
      reloads, reconnects, troubled, nextRetry, retryDelay, stopping := 0, 0, false, now, FirstDelay, false;
      this.files, failures := files, 0;
    }

    predicate Consumers()
      reads this
    {
      outputs != map[] || recording.Some?
    }

    method AdvanceRecordingSegment() returns (ok: bool)
      requires recordingSegment <= MaxSegment
      modifies this`recording, this`recordingSegment
      ensures ok == Advance(old(Now().actor), files).Some?
      ensures Now() == if ok then old(Now()).(actor := Advance(old(Now().actor), files).value) else old(Now())
    {
      if recording.None? || recording.value.output !in files { return true; }
      var root := if recordingRoot.Some? then recordingRoot.value else recording.value.output;
      var found :=
          NextRecoveryRecordingPath(root, if recordingSegment < MaxSegment then recordingSegment + 1
          else MaxSegment, files);
      match found
      case NoStem => ok := false;
      case Overflow => ok := false;
      case Chosen(path, segment) =>
        recording := Some(Recording(path, false));
        recordingSegment := segment;
        ok := true;
    }

    method Connect(recovery: bool)
      modifies this`pipeline, this`files, this`troubled, this`retryDelay, this`failures, this`reconnects
      ensures Now() == Connected(old(Now()), recovery)
    {
      pipeline := Some(Pipeline(outputs, recording));
      if recording.Some? { files := files + {recording.value.output}; }
      troubled, retryDelay, failures := false, FirstDelay, 0;
      if recovery { reconnects := Saturating(reconnects); }
    }

    method Launch(recovery: bool, starts: bool) returns (ok: bool)
      modifies this`pipeline, this`files, this`troubled, this`retryDelay, this`failures, this`reconnects
      ensures (Now(), ok) == Launched(old(Now()), recovery, starts)
    {
      ok := starts && !Blocked(recording, files);
      if ok { Connect(recovery); } else { troubled := true; }
    }

    method Resume(recovery: bool, advances: bool, attempt: Attempt) returns (ok: bool)
      requires recordingSegment <= MaxSegment && attempt.source.Some?
      modifies this
      ensures (Now(), ok) == Resumed(old(Now()), recovery, advances, attempt)
    {
      var found := SourceForRebuild(attempt.source.value, source, recovery);
      if advances {
        var advanced := AdvanceRecordingSegment();
        if !advanced { return false; }
      }
      if !attempt.converts { return false; }
      source := Some(found);
      ok := Launch(recovery, attempt.starts);
    }

    method RebuildPipeline(recovery: bool, attempt: Attempt) returns (ok: bool)
      requires recordingSegment <= MaxSegment
      modifies this
      ensures (Now(), ok) == Rebuild(old(Now()), recovery, attempt)
    {
      var continuing := recording.Some? && pipeline.Some? && pipeline.value.recording.Some?;
      pipeline := None;
      if !Consumers() {
        troubled, retryDelay, failures := false, FirstDelay, 0;
        return true;
      }
      if attempt.source.None? { return false; }
      ok := Resume(recovery, recovery || continuing, attempt);
    }

    method Postpone(now: nat)
      modifies this`troubled, this`nextRetry, this`retryDelay, this`failures
      ensures Now() == old(Now()).(actor := Postponed(old(Now().actor), now))
    {
      troubled := true;
      nextRetry := now + retryDelay;
      retryDelay := if 2 * retryDelay < LongestDelay then 2 * retryDelay else LongestDelay;
      failures := failures + 1;
    }

    method PollPipeline(now: nat, failed: bool, attempt: Attempt)
      requires recordingSegment <= MaxSegment
      modifies this
      ensures Now() == Poll(old(Now()), now, failed, attempt)
    {
      if failed && pipeline.Some? {
        troubled, pipeline, nextRetry := true, None, now;
      }
      if pipeline.None? && Consumers() && now >= nextRetry {
        var ok := RebuildPipeline(true, attempt);
        if !ok { Postpone(now); }
      }
    }

    method StartVcam(op: Operation) returns (ok: bool)
      requires op.VcamStart? && recordingSegment <= MaxSegment
      modifies this
      ensures (Now(), ok) == StartOutput(old(Now()), op)
    {
      if op.name in outputs || !op.valid { return false; }
      if pipeline.Some? {
        if !op.accepted || Blocked(pipeline.value.recording, files) { return false; }
        pipeline := Some(pipeline.value.(outputs := pipeline.value.outputs[op.name := op.specification]));
        outputs := outputs[op.name := op.specification];
        return true;
      }
      outputs := outputs[op.name := op.specification];
      SegmentsBounded(Now(), false, op.first);
      ok := RebuildPipeline(false, op.first);
      if !ok {
        outputs := outputs - {op.name};
        var _ := RebuildPipeline(false, op.second);
      }
    }

    /** Removes outputs one by one, from the live pipeline too, up to the first
      * that cannot be removed. */
    method DropVcams(names: seq<string>, stuck: Option<nat>) returns (ok: bool)
      modifies this`outputs, this`pipeline
      ensures Now() == old(Now()).(actor := DropOutputs(old(Now().actor), names, stuck).0)
      ensures ok == DropOutputs(old(Now().actor), names, stuck).1
    {
      var i := 0;
      assert names[0..] == names;
      while i < |names|
        invariant 0 <= i <= |names| && (stuck.Some? ==> i <= stuck.value)
        invariant Now() == old(Now()).(actor := Now().actor)
        invariant DropOutputs(old(Now().actor), names, stuck)
          == DropOutputs(Now().actor, names[i..], if stuck.Some? then Some(stuck.value - i) else None)
      {
        assert names[i..][0] == names[i] && names[i..][1..] == names[i + 1..];
        if stuck == Some(i) { return false; }
        outputs := outputs - {names[i]};
        if pipeline.Some? { pipeline := Some(pipeline.value.(outputs := pipeline.value.outputs - {names[i]})); }
        i := i + 1;
      }
      ok := true;
    }

    method StopVcams(op: Operation) returns (ok: bool)
      requires op.VcamStop? && recordingSegment <= MaxSegment
      modifies this
      ensures (Now(), ok) == StopOutputs(old(Now()), op)
    {
      if exists name :: name in op.names && name !in outputs { return false; }
      if pipeline.Some? {
        ok := DropVcams(op.names, op.stuck);
        if !ok { return false; }
        if !Consumers() { ok := RebuildPipeline(false, op.first); }
        return;
      }
      var _ := DropVcams(op.names, None);
      ok := RebuildPipeline(false, op.first);
    }

    method StartRecordingNow(op: Operation) returns (ok: bool)
      requires op.RecordingStart? && recordingSegment <= MaxSegment
      modifies this
      ensures (Now(), ok) == StartRecording(old(Now()), op)
    {
      if recording.Some? { return false; }
      if pipeline.Some? {
        if !op.accepted || Blocked(Some(Recording(op.output, op.overwrite)), files) { return false; }
        recordingRoot, recordingSegment, recording := Some(op.output), 0, Some(Recording(op.output, op.overwrite));
        pipeline := Some(pipeline.value.(recording := recording));
        files := files + {op.output};
        return true;
      }
      recordingRoot, recordingSegment, recording := Some(op.output), 0, Some(Recording(op.output, op.overwrite));
      ok := RebuildPipeline(false, op.first);
      if !ok {
        recording, recordingRoot, recordingSegment := None, None, 0;
        var _ := RebuildPipeline(false, op.second);
      }
    }

    method StopRecordingNow(op: Operation) returns (ok: bool)
      requires op.RecordingStop? && recordingSegment <= MaxSegment
      modifies this
      ensures (Now(), ok) == StopRecording(old(Now()), op)
    {
      if recording.None? { return false; }
      if pipeline.Some? {
        if !op.accepted { return false; }
        pipeline := Some(pipeline.value.(recording := None));
      }
      recording, recordingRoot, recordingSegment := None, None, 0;
      ok := true;
      if pipeline.None? || !Consumers() { ok := RebuildPipeline(false, op.first); }
    }

    method DispatchOperation(op: Operation) returns (ok: bool)
      requires recordingSegment <= MaxSegment
      modifies this
      ensures (Now(), ok) == Dispatch(old(Now()), op)
    {
      match op
      case Inspect(found) =>
        if found.Some? { source := found; }
        ok := true;
      case Reload(first) =>
        if Consumers() {
          ok := RebuildPipeline(false, first);
          if !ok { return; }
        } else {
          source, troubled := None, false;
        }
        reloads := Saturating(reloads);
        ok := true;
      case Shutdown =>
        pipeline, outputs, recording, recordingRoot, recordingSegment, stopping := None, map[], None, None, 0, true;
        ok := true;
      case VcamStart(_, _, _, _, _, _) => ok := StartVcam(op);
      case VcamStop(_, _, _) => ok := StopVcams(op);
      case RecordingStart(_, _, _, _, _) => ok := StartRecordingNow(op);
      case RecordingStop(_, _) => ok := StopRecordingNow(op);
    }

    /** Serves events until the daemon stops: a timed wait that polls while there
      * are consumers, a blocking one otherwise. */
    method ActorLoop(events: seq<Event>)
      requires recordingSegment <= MaxSegment
      modifies this
      ensures Now() == Run(old(Now()), events)
    {
      var i := 0;
      assert events[0..] == events;
      while !stopping && i < |events|
        invariant 0 <= i <= |events| && recordingSegment <= MaxSegment
        invariant Run(old(Now()), events) == Run(Now(), events[i..])
        decreases |events| - i
      {
        assert events[i..][0] == events[i] && events[i..][1..] == events[i + 1..];
        ghost var before := Now();
        if events[i].Files? {
          files := events[i].files;
        } else if events[i].Request? {
          var _ := DispatchOperation(events[i].operation);
        } else if Consumers() {
          PollPipeline(events[i].now, events[i].failed, events[i].attempt);
        }
        HandleBounded(before, events[i]);
        i := i + 1;
      }
    }
  }

  lemma {:induction false} SegmentsBounded(w: World, recovery: bool, attempt: Attempt)
    requires w.actor.segment <= MaxSegment
    ensures Rebuild(w, recovery, attempt).0.actor.segment <= MaxSegment
  {
    var a := w.actor;
    if a.recording.Some? {
      SearchIsLeast(if a.root.Some? then a.root.value else a.recording.value.output,
                    if a.segment < MaxSegment then a.segment + 1 else MaxSegment, w.files);
    }
  }

  lemma {:induction false} DropBounded(a: Actor, names: seq<string>, stuck: Option<nat>)
    ensures DropOutputs(a, names, stuck).0.segment == a.segment
    decreases |names|
  {
    if names != [] && stuck != Some(0) {
      var b := WithoutOutput(a, names[0]);
      var c := if b.pipeline.Some? then
          b.(pipeline := Some(b.pipeline.value.(outputs := b.pipeline.value.outputs - {names[0]}))) else b;
      DropBounded(c, names[1..], if stuck.Some? then Some(stuck.value - 1) else None);
    }
  }

  lemma {:induction false} HandleBounded(w: World, event: Event)
    requires w.actor.segment <= MaxSegment
    ensures Handle(w, event).actor.segment <= MaxSegment
  {
    var a := w.actor;
    match event
    case Files(_) =>
    case Timeout(now, failed, attempt) =>
      SegmentsBounded(w.(actor := Noticed(a, now, failed)), true, attempt);
    case Request(op) =>
      match op {
        case Inspect(_) =>
        case Reload(first) => SegmentsBounded(w, false, first);
        case Shutdown =>
        case VcamStart(name, specification, _, _, first, second) =>
          var w0 := w.(actor := a.(outputs := a.outputs[name := specification]));
          SegmentsBounded(w0, false, first);
          var w1 := Rebuild(w0, false, first).0;
          SegmentsBounded(w1.(actor := WithoutOutput(w1.actor, name)), false, second);
        case VcamStop(names, stuck, first) =>
          DropBounded(a, names, stuck);
          DropBounded(a, names, None);
          SegmentsBounded(w.(actor := DropOutputs(a, names, stuck).0), false, first);
          SegmentsBounded(w.(actor := DropOutputs(a, names, None).0), false, first);
        case RecordingStart(output, overwrite, _, first, second) =>
          var w0 := w.(actor := a.(recording := Some(Recording(output, overwrite)), root := Some(output),
              segment := 0));
          SegmentsBounded(w0, false, first);
          var w1 := Rebuild(w0, false, first).0;
          SegmentsBounded(w1.(actor := Unrecorded(w1.actor)), false, second);
        case RecordingStop(_, first) =>
          var b := Unrecorded(a).(pipeline := if a.pipeline.Some? then Some(a.pipeline.value.(recording := None))
              else None);
          SegmentsBounded(w.(actor := b), false, first);
      }
  }
}
