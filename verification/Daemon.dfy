/** The daemon's actor: consumers, the shared pipeline, recording segments and
  * recovery back-off, driven by requests, polls and pipeline failures. */
module Daemon {
  import opened Wrappers
  import opened RecordingPath

  datatype Source = Source(stableId: string, tuple: nat)

  datatype Recording = Recording(output: Path, overwrite: bool)

  /** The branches of a running pipeline. */
  datatype Pipeline = Pipeline(outputs: map<string, nat>, recording: Option<Recording>)

  /** `failures` counts the failed recoveries since the last reset; the program
    * keeps only the delay. */
  datatype Actor = Actor(
    source: Option<Source>,
    pipeline: Option<Pipeline>,
    outputs: map<string, nat>,
    recording: Option<Recording>,
    root: Option<Path>,
    segment: nat,
    reloads: nat,
    reconnects: nat,
    troubled: bool,
    nextRetry: nat,
    retryDelay: nat,
    failures: nat,
    stopping: bool)

  const FirstDelay := 250
  const LongestDelay := 5000

  function Fresh(now: nat): Actor {
    Actor(None, None, map[], None, None, 0, 0, 0, false, now, FirstDelay, 0, false)
  }

  /** The files of the recording directories, and one attempt at the outside
    * world: the source found, whether every output specification converts, and
    * whether the pipeline starts, the recording file apart. */
  datatype World = World(actor: Actor, files: set<Path>)

  datatype Attempt = Attempt(source: Option<Source>, converts: bool, starts: bool)

  predicate HasConsumers(a: Actor) { a.outputs != map[] || a.recording.Some? }

  function Saturating(n: nat): nat { if n < MaxSegment then n + 1 else MaxSegment }

  /** In recovery a camera that is still the same keeps its format. */
  function SourceForRebuild(found: Source, previous: Option<Source>, recovery: bool): Source {
    if recovery && previous.Some? && previous.value.stableId == found.stableId
    then found.(tuple := previous.value.tuple)
    else found
  }

  /** Moves an existing recording on to the next free recovery name; absent when
    * there is none. */
  function Advance(a: Actor, files: set<Path>): Option<Actor> {
    if a.recording.None? || a.recording.value.output !in files then Some(a)
    else
      var root := if a.root.Some? then a.root.value else a.recording.value.output;
      match NextRecovery(root, if a.segment < MaxSegment then a.segment + 1 else MaxSegment, files)
      case Chosen(path, segment) => Some(a.(recording := Some(Recording(path, false)), segment := segment))
      case NoStem => None
      case Overflow => None
  }

  predicate ContinuingRecording(a: Actor) {
    a.recording.Some? && a.pipeline.Some? && a.pipeline.value.recording.Some?
  }

  function Branches(a: Actor): Pipeline {
    Pipeline(a.outputs, a.recording)
  }

  function Recovered(a: Actor): Actor {
    a.(troubled := false, retryDelay := FirstDelay, failures := 0)
  }

  /** The pipeline starts with a branch for every consumer; a recording branch
    * opens its file. */
  function Connected(w: World, recovery: bool): World {
    var a := w.actor;
    var reconnects := if recovery then Saturating(a.reconnects) else a.reconnects;
    World(Recovered(a).(pipeline := Some(Branches(a)), reconnects := reconnects),
          if a.recording.Some? then w.files + {a.recording.value.output} else w.files)
  }

  /** The pipeline refuses a recording whose file exists, unless it may be
    * overwritten; it checks this on starting and whenever a branch is added. */
  predicate Blocked(recording: Option<Recording>, files: set<Path>) {
    recording.Some? && recording.value.output in files && !recording.value.overwrite
  }

  function Launched(w: World, recovery: bool, starts: bool): (World, bool) {
    if starts && !Blocked(w.actor.recording, w.files) then (Connected(w, recovery), true)
    else (w.(actor := w.actor.(troubled := true)), false)
  }

  /** A rebuild once the source is found and the old pipeline is gone. */
  function Resumed(w: World, recovery: bool, advances: bool, attempt: Attempt): (World, bool)
    requires attempt.source.Some?
  {
    var advanced := if advances then Advance(w.actor, w.files) else Some(w.actor);
    if advanced.None? then (w, false)
    else if !attempt.converts then (w.(actor := advanced.value), false)
    else
      var source := SourceForRebuild(attempt.source.value, w.actor.source, recovery);
      Launched(w.(actor := advanced.value.(source := Some(source))), recovery, attempt.starts)
  }

  function Rebuild(w: World, recovery: bool, attempt: Attempt): (World, bool) {
    var a := w.actor.(pipeline := None);
    if !HasConsumers(a) then (w.(actor := Recovered(a)), true)
    else if attempt.source.None? then (w.(actor := a), false)
    else
      Resumed(w.(actor := a), recovery, recovery || ContinuingRecording(w.actor), attempt)
  }

  /** A failed recovery doubles the delay up to five seconds. */
  function Postponed(a: Actor, now: nat): Actor {
    a.(troubled := true, nextRetry := now + a.retryDelay,
       retryDelay := if 2 * a.retryDelay < LongestDelay then 2 * a.retryDelay else LongestDelay,
       failures := a.failures + 1)
  }

  /** A poll first notices a pipeline that failed. */
  function Noticed(a: Actor, now: nat, failed: bool): Actor {
    if failed && a.pipeline.Some? then a.(troubled := true, pipeline := None, nextRetry := now) else a
  }

  function Poll(w: World, now: nat, failed: bool, attempt: Attempt): World {
    var a := Noticed(w.actor, now, failed);
    if a.pipeline.None? && HasConsumers(a) && now >= a.nextRetry then
      var (w1, ok) := Rebuild(w.(actor := a), true, attempt);
      if ok then w1 else w1.(actor := Postponed(w1.actor, now))
    else w.(actor := a)
  }

  // ----------------------------------------------------------------- requests

  /** Requests that change the actor.  `accepted` answers the branch added to or
    * removed from a live pipeline, `first` and `second` the rebuilds; `stuck` is
    * the position of the first output whose removal fails. */
  datatype Operation =
    | Inspect(found: Option<Source>)
    | Reload(first: Attempt)
    | Shutdown
    | VcamStart(name: string, specification: nat, valid: bool, accepted: bool, first: Attempt, second: Attempt)
    | VcamStop(names: seq<string>, stuck: Option<nat>, first: Attempt)
    | RecordingStart(output: Path, overwrite: bool, accepted: bool, first: Attempt, second: Attempt)
    | RecordingStop(accepted: bool, first: Attempt)

  function WithoutOutput(a: Actor, name: string): Actor { a.(outputs := a.outputs - {name}) }

  function StartOutput(w: World, op: Operation): (World, bool)
    requires op.VcamStart?
  {
    var a := w.actor;
    if op.name in a.outputs || !op.valid then (w, false)
    else if a.pipeline.Some? then
      if !op.accepted || Blocked(a.pipeline.value.recording, w.files) then (w, false)
      else
        var p := a.pipeline.value;
        (w.(actor := a.(pipeline := Some(p.(outputs := p.outputs[op.name := op.specification])),
                        outputs := a.outputs[op.name := op.specification])), true)
    else
      var (w1, ok) := Rebuild(w.(actor := a.(outputs := a.outputs[op.name := op.specification])), false, op.first);
      if ok then (w1, true)
      else (Rebuild(w1.(actor := WithoutOutput(w1.actor, op.name)), false, op.second).0, false)
  }

  /** Drops outputs one after the other from a live pipeline, up to the first that
    * cannot be removed. */
  function DropOutputs(a: Actor, names: seq<string>, stuck: Option<nat>): (Actor, bool)
    decreases |names|
  {
    if names == [] then (a, true)
    else if stuck == Some(0) then (a, false)
    else
      var b := WithoutOutput(a, names[0]);
      var c := if b.pipeline.Some? then
          b.(pipeline := Some(b.pipeline.value.(outputs := b.pipeline.value.outputs - {names[0]}))) else b;
      DropOutputs(c, names[1..], if stuck.Some? then Some(stuck.value - 1) else None)
  }

  function StopOutputs(w: World, op: Operation): (World, bool)
    requires op.VcamStop?
  {
    var a := w.actor;
    if exists name :: name in op.names && name !in a.outputs then (w, false)
    else if a.pipeline.Some? then
      var (b, ok) := DropOutputs(a, op.names, op.stuck);
      if !ok then (w.(actor := b), false)
      else if HasConsumers(b) then (w.(actor := b), true)
      else Rebuild(w.(actor := b), false, op.first)
    else Rebuild(w.(actor := DropOutputs(a, op.names, None).0), false, op.first)
  }

  function Unrecorded(a: Actor): Actor { a.(recording := None, root := None, segment := 0) }

  function StartRecording(w: World, op: Operation): (World, bool)
    requires op.RecordingStart?
  {
    var a := w.actor;
    var b := a.(recording := Some(Recording(op.output, op.overwrite)), root := Some(op.output), segment := 0);
    if a.recording.Some? then (w, false)
    else if a.pipeline.Some? then
      if !op.accepted || Blocked(b.recording, w.files) then (w, false)
      else (World(b.(pipeline := Some(a.pipeline.value.(recording := b.recording))), w.files + {op.output}), true)
    else
      var (w1, ok) := Rebuild(w.(actor := b), false, op.first);
      if ok then (w1, true) else (Rebuild(w1.(actor := Unrecorded(w1.actor)), false, op.second).0, false)
  }

  function StopRecording(w: World, op: Operation): (World, bool)
    requires op.RecordingStop?
  {
    var a := w.actor;
    if a.recording.None? || (a.pipeline.Some? && !op.accepted) then (w, false)
    else
      var b := Unrecorded(a).(pipeline := if a.pipeline.Some? then Some(a.pipeline.value.(recording := None))
          else None);
      if b.pipeline.None? || !HasConsumers(b) then Rebuild(w.(actor := b), false, op.first) else (w.(actor := b), true)
  }

  function Dispatch(w: World, op: Operation): (World, bool) {
    match op
    case Inspect(found) => (w.(actor := w.actor.(source := if found.Some? then found else w.actor.source)), true)
    case Reload(first) =>
      if HasConsumers(w.actor) then
        var (w1, ok) := Rebuild(w, false, first);
        (if ok then w1.(actor := w1.actor.(reloads := Saturating(w1.actor.reloads))) else w1, ok)
      else (w.(actor := w.actor.(source := None, troubled := false, reloads := Saturating(w.actor.reloads))), true)
    case Shutdown => (w.(actor := Unrecorded(w.actor).(pipeline := None, outputs := map[], stopping := true)), true)
    case VcamStart(_, _, _, _, _, _) => StartOutput(w, op)
    case VcamStop(_, _, _) => StopOutputs(w, op)
    case RecordingStart(_, _, _, _, _) => StartRecording(w, op)
    case RecordingStop(_, _) => StopRecording(w, op)
  }

  // ------------------------------------------------------------- the actor loop

  /** With consumers the actor waits 250 ms and polls; without, it blocks. */
  datatype Wait = Timed | Untimed

  function Waiting(a: Actor): Wait { if HasConsumers(a) then Timed else Untimed }

  /** `Files` is a change other programs make to the recording directories. */
  datatype Event = Timeout(now: nat, failed: bool, attempt: Attempt) | Request(operation: Operation)
    | Files(files: set<Path>)

  /** A timeout can only end a timed wait. */
  function Handle(w: World, event: Event): World {
    match event
    case Timeout(now, failed, attempt) => if Waiting(w.actor).Timed? then Poll(w, now, failed, attempt) else w
    case Request(operation) => Dispatch(w, operation).0
    case Files(files) => w.(files := files)
  }

  function Run(w: World, events: seq<Event>): World
    decreases |events|
  {
    if events == [] || w.actor.stopping then w else Run(Handle(w, events[0]), events[1..])
  }
}
