/** Semantic writes to vendor (XU) selectors: several named fields share the
  * bytes of one selector, payloads are chained through a simulated selector
  * map, and a failure undoes the writes newest first. */
module Vendor {
  import opened Wrappers
  import opened Codec

  datatype Key = Key(unit: nat, selector: nat)

  datatype Policy = ByReadback | NoRollback

  datatype Field = Field(control: Control, key: Key, policy: Policy, tolerance: nat)

  datatype FieldWrite = FieldWrite(field: Field, input: Value)

  /** What a transfer leaves in its selector. */
  datatype Landing = Payload | Nothing | Garbage(bytes: seq<Byte>)

  /** How the camera answers one transfer: what lands, whether it reports
    * success, and whether the selector can be read back afterwards. */
  datatype Answer = Answer(landing: Landing, ok: bool, readable: bool)

  const Exact := Answer(Payload, true, true)

  type Selectors = map<Key, seq<Byte>>

  /** `baselines` answers the reading of live baselines, `forward` and `undo`
    * the transfers of a run and of its rollback; exhausted scripts answer well. */
  datatype Camera = Camera(selectors: Selectors, baselines: seq<bool>, forward: seq<Answer>, undo: seq<Answer>)

  function First(script: seq<Answer>): Answer { if script == [] then Exact else script[0] }

  function Tail(script: seq<Answer>): seq<Answer> { if script == [] then [] else script[1..] }

  function Stored(selectors: Selectors, key: Key, answer: Answer, payload: seq<Byte>): Selectors {
    match answer.landing
    case Payload => selectors[key := payload]
    case Nothing => selectors
    case Garbage(bytes) => selectors[key := bytes]
  }

  function ReadBack(selectors: Selectors, field: Field, answer: Answer): Option<Value>
    requires Validated(field.control)
  {
    if answer.ok && answer.readable && field.key in selectors then Decode(field.control, selectors[field.key]) else None
  }

  function Distance(a: int, b: int): nat { if a >= b then a - b else b - a }

  /** Readback accepts the same value, or a number within the tolerance. */
  predicate Matches(field: Field, requested: Value, observed: Value) {
    || requested == observed
    || (requested.Number? && observed.Number?
        && Distance(requested.number, observed.number) <= field.tolerance)
  }

  // --------------------------------------------------------------- preparing

  datatype Prepared = Prepared(field: Field, input: Value, baseline: seq<Byte>, previous: Value, payload: seq<Byte>,
    requested: Value)

  function PrepareOne(w: FieldWrite, baseline: seq<Byte>): Option<Prepared>
    requires Validated(w.field.control)
  {
    var previous := Decode(w.field.control, baseline);
    var payload := Encode(w.field.control, w.input, baseline);
    if previous.None? || payload.None? then None
    else
      var requested := Decode(w.field.control, payload.value);
      if requested.None? then None
      else Some(Prepared(w.field, w.input, baseline, previous.value, payload.value, requested.value))
  }

  /** Each baseline is the payload prepared last for its selector, else what the
    * selector holds. */
  function PreparedFirst(selectors: Selectors, write: FieldWrite, simulated: Selectors): Option<Prepared>
    requires Validated(write.field.control)
  {
    var key := write.field.key;
    if key in simulated then PrepareOne(write, simulated[key])
    else if key in selectors then PrepareOne(write, selectors[key])
    else None
  }

  function PrepareFrom(selectors: Selectors, writes: seq<FieldWrite>, simulated: Selectors): Option<seq<Prepared>>
    requires forall w :: w in writes ==> Validated(w.field.control)
    decreases |writes|
  {
    if writes == [] then Some([])
    else
      var one := PreparedFirst(selectors, writes[0], simulated);
      if one.None? then None
      else
        var rest := PrepareFrom(selectors, writes[1..], simulated[one.value.field.key := one.value.payload]);
        if rest.None? then None else Some([one.value] + rest.value)
  }

  /** What the selector holds once exactly the payloads of `prepared` are in place. */
  function Latest(selectors: Selectors, prepared: seq<Prepared>, key: Key): seq<Byte>
    requires key in selectors
  {
    if prepared == [] then selectors[key]
    else
      var last := prepared[|prepared| - 1];
      if last.field.key == key then last.payload else Latest(selectors, prepared[..|prepared| - 1], key)
  }

  /** A write that starts from the simulated bytes its predecessors leave. */
  predicate Linked(selectors: Selectors, before: seq<Prepared>, p: Prepared) {
    && Validated(p.field.control)
    && p.field.key in selectors
    && p.baseline == Latest(selectors, before, p.field.key)
    && PrepareOne(FieldWrite(p.field, p.input), p.baseline) == Some(p)
  }

  predicate Chained(selectors: Selectors, prepared: seq<Prepared>) {
    forall i :: 0 <= i < |prepared| ==> Linked(selectors, prepared[..i], prepared[i])
  }

  predicate Checked(prepared: seq<Prepared>) {
    forall p :: p in prepared ==> Validated(p.field.control)
  }

  lemma {:induction false} ChainedAreChecked(selectors: Selectors, prepared: seq<Prepared>)
    requires Chained(selectors, prepared)
    ensures Checked(prepared) && forall p :: p in prepared ==> p.field.key in selectors
  {
    forall p | p in prepared ensures Validated(p.field.control) && p.field.key in selectors {
      var i :| 0 <= i < |prepared| && prepared[i] == p;
      assert Linked(selectors, prepared[..i], prepared[i]);
    }
  }

  lemma {:induction false} ChainGrows(selectors: Selectors, done: seq<Prepared>, one: Prepared)
    requires Chained(selectors, done) && Linked(selectors, done, one)
    ensures Chained(selectors, done + [one])
  {
    var next := done + [one];
    forall i | 0 <= i < |next| ensures Linked(selectors, next[..i], next[i]) {
      assert next[..i] == if i < |done| then done[..i] else done;
    }
  }

  lemma {:induction false} ChainPrefix(selectors: Selectors, prepared: seq<Prepared>, n: nat)
    requires Chained(selectors, prepared) && n <= |prepared|
    ensures Chained(selectors, prepared[..n])
  {
    forall i | 0 <= i < n ensures Linked(selectors, prepared[..n][..i], prepared[..n][i]) {
      assert prepared[..n][..i] == prepared[..i];
    }
  }

  predicate Tracks(selectors: Selectors, done: seq<Prepared>, simulated: Selectors) {
    && (forall key :: key in simulated ==> key in selectors && simulated[key] == Latest(selectors, done, key))
    && (forall key :: key in selectors && key !in simulated ==> Latest(selectors, done, key) == selectors[key])
  }

  lemma {:induction false} TracksGrows(selectors: Selectors, done: seq<Prepared>, simulated: Selectors, one: Prepared)
    requires Tracks(selectors, done, simulated) && one.field.key in selectors
    ensures Tracks(selectors, done + [one], simulated[one.field.key := one.payload])
  {
    assert (done + [one])[..|done|] == done;
  }

  predicate Describes(writes: seq<FieldWrite>, prepared: seq<Prepared>) {
    && |prepared| == |writes|
    && forall i :: 0 <= i < |writes| ==> FieldWrite(prepared[i].field, prepared[i].input) == writes[i]
  }

  lemma {:induction false} FirstLinks(selectors: Selectors, write: FieldWrite, done: seq<Prepared>,
          simulated: Selectors)
    requires Validated(write.field.control) && Tracks(selectors, done, simulated)
    requires PreparedFirst(selectors, write, simulated).Some?
    ensures var one := PreparedFirst(selectors, write, simulated).value;
            Linked(selectors, done, one) && FieldWrite(one.field, one.input) == write
  {
  }

  lemma {:induction false} PrepareSplits(selectors: Selectors, writes: seq<FieldWrite>, simulated: Selectors)
    returns (one: Prepared, later: seq<Prepared>)
    requires forall w :: w in writes ==> Validated(w.field.control)
    requires writes != [] && PrepareFrom(selectors, writes, simulated).Some?
    ensures PreparedFirst(selectors, writes[0], simulated) == Some(one)
    ensures PrepareFrom(selectors, writes[1..], simulated[one.field.key := one.payload]) == Some(later)
    ensures PrepareFrom(selectors, writes, simulated).value == [one] + later
  {
    one := PreparedFirst(selectors, writes[0], simulated).value;
    later := PrepareFrom(selectors, writes[1..], simulated[one.field.key := one.payload]).value;
  }

  lemma {:induction false} DescribesCons(writes: seq<FieldWrite>, one: Prepared, later: seq<Prepared>)
    requires writes != [] && FieldWrite(one.field, one.input) == writes[0] && Describes(writes[1..], later)
    ensures Describes(writes, [one] + later)
  {
    forall i | 0 < i < |writes| ensures FieldWrite(later[i - 1].field, later[i - 1].input) == writes[i] {
      assert writes[1..][i - 1] == writes[i];
    }
  }

  lemma {:induction false} FirstLinksInput(selectors: Selectors, write: FieldWrite, simulated: Selectors)
    requires Validated(write.field.control) && PreparedFirst(selectors, write, simulated).Some?
    ensures var one := PreparedFirst(selectors, write, simulated).value; FieldWrite(one.field, one.input) == write
  {
  }

  /** The prepared writes are those asked for, in order. */
  lemma {:induction false} PrepareDescribes(selectors: Selectors, writes: seq<FieldWrite>, simulated: Selectors)
    requires forall w :: w in writes ==> Validated(w.field.control)
    requires PrepareFrom(selectors, writes, simulated).Some?
    ensures Describes(writes, PrepareFrom(selectors, writes, simulated).value)
    decreases |writes|
  {
    if writes != [] {
      var one, later := PrepareSplits(selectors, writes, simulated);
      PrepareDescribes(selectors, writes[1..], simulated[one.field.key := one.payload]);
      FirstLinksInput(selectors, writes[0], simulated);
      DescribesCons(writes, one, later);
    }
  }

  lemma {:induction false} Regroup(done: seq<Prepared>, one: Prepared, later: seq<Prepared>)
    ensures done + ([one] + later) == (done + [one]) + later
  {
  }

  /** And each is chained to the simulated payloads before it. */
  lemma {:induction false} PrepareChains(selectors: Selectors, writes: seq<FieldWrite>, done: seq<Prepared>,
          simulated: Selectors)
    requires forall w :: w in writes ==> Validated(w.field.control)
    requires Chained(selectors, done) && Tracks(selectors, done, simulated)
    requires PrepareFrom(selectors, writes, simulated).Some?
    ensures Chained(selectors, done + PrepareFrom(selectors, writes, simulated).value)
    decreases |writes|
  {
    if writes == [] {
      assert done + [] == done;
    } else {
      var one, later := PrepareSplits(selectors, writes, simulated);
      FirstLinks(selectors, writes[0], done, simulated);
      ChainGrows(selectors, done, one);
      TracksGrows(selectors, done, simulated, one);
      PrepareChains(selectors, writes[1..], done + [one], simulated[one.field.key := one.payload]);
      Regroup(done, one, later);
    }
  }

  /** A transaction is refused when it is empty or any write cannot be prepared. */
  function Plan(selectors: Selectors, writes: seq<FieldWrite>): (r: Option<seq<Prepared>>)
    requires forall w :: w in writes ==> Validated(w.field.control)
    ensures r.Some? ==> Chained(selectors, r.value) && Checked(r.value) && Describes(writes, r.value)
  {
    var prepared := PrepareFrom(selectors, writes, map[]);
    if writes == [] || prepared.None? then None
    else
      PrepareChains(selectors, writes, [], map[]);
      PrepareDescribes(selectors, writes, map[]);
      assert [] + prepared.value == prepared.value;
      ChainedAreChecked(selectors, prepared.value);
      prepared
  }

  /** The writes can be prepared one after the other: each over the bytes that the
    * ones before it leave. */
  ghost predicate Preparable(selectors: Selectors, writes: seq<FieldWrite>) {
    exists prepared :: Chained(selectors, prepared) && Describes(writes, prepared)
  }

  /** What a link of such a chain is: the selector is there, the bytes before it
    * decode to the previous value, the value asked for encodes over them, and the
    * payload decodes again to what readback will be compared with. */
  lemma {:induction false} LinkMeans(selectors: Selectors, before: seq<Prepared>, p: Prepared)
    requires Validated(p.field.control)
    ensures Linked(selectors, before, p) <==>
              && p.field.key in selectors && p.baseline == Latest(selectors, before, p.field.key)
              && Decode(p.field.control, p.baseline) == Some(p.previous)
              && Encode(p.field.control, p.input, p.baseline) == Some(p.payload)
              && Decode(p.field.control, p.payload) == Some(p.requested)
  {
  }

  lemma {:induction false} FirstFollows(selectors: Selectors, before: seq<Prepared>, p: Prepared, write: FieldWrite,
          simulated: Selectors)
    requires Linked(selectors, before, p) && FieldWrite(p.field, p.input) == write
    requires Tracks(selectors, before, simulated)
    ensures PreparedFirst(selectors, write, simulated) == Some(p)
  {
  }

  lemma {:induction false} PrepareCons(selectors: Selectors, writes: seq<FieldWrite>, simulated: Selectors, p: Prepared,
          rest: seq<Prepared>)
    requires writes != [] && forall w :: w in writes ==> Validated(w.field.control)
    requires PreparedFirst(selectors, writes[0], simulated) == Some(p)
    requires PrepareFrom(selectors, writes[1..], simulated[p.field.key := p.payload]) == Some(rest)
    ensures PrepareFrom(selectors, writes, simulated) == Some([p] + rest)
  {
  }

  lemma {:induction false} LinkAt(selectors: Selectors, done: seq<Prepared>, p: Prepared, rest: seq<Prepared>)
    requires Chained(selectors, done + ([p] + rest))
    ensures Linked(selectors, done, p)
  {
    var all := done + ([p] + rest);
    assert all[..|done|] == done && all[|done|] == p;
  }

  lemma {:induction false} DescribesSplits(writes: seq<FieldWrite>, p: Prepared, rest: seq<Prepared>)
    requires Describes(writes, [p] + rest)
    ensures writes != [] && FieldWrite(p.field, p.input) == writes[0] && Describes(writes[1..], rest)
  {
    var all := [p] + rest;
    assert FieldWrite(all[0].field, all[0].input) == writes[0];
    forall i | 0 <= i < |rest| ensures FieldWrite(rest[i].field, rest[i].input) == writes[1..][i] {
      assert FieldWrite(all[i + 1].field, all[i + 1].input) == writes[i + 1];
    }
  }

  lemma {:induction false} PrepareFollows(selectors: Selectors, done: seq<Prepared>, later: seq<Prepared>,
          writes: seq<FieldWrite>, simulated: Selectors)
    requires forall w :: w in writes ==> Validated(w.field.control)
    requires Chained(selectors, done + later) && Describes(writes, later) && Tracks(selectors, done, simulated)
    ensures PrepareFrom(selectors, writes, simulated) == Some(later)
    decreases |later|
  {
    if later != [] {
      var p, rest := later[0], later[1..];
      assert later == [p] + rest;
      LinkAt(selectors, done, p, rest);
      DescribesSplits(writes, p, rest);
      FirstFollows(selectors, done, p, writes[0], simulated);
      TracksGrows(selectors, done, simulated, p);
      Regroup(done, p, rest);
      PrepareFollows(selectors, done + [p], rest, writes[1..], simulated[p.field.key := p.payload]);
      PrepareCons(selectors, writes, simulated, p, rest);
    }
  }

  /** A transaction is prepared exactly when it asks for something and its writes
    * can be prepared one after the other, and in the only way they can. */
  lemma {:induction false} PlanExact(selectors: Selectors, writes: seq<FieldWrite>)
    requires forall w :: w in writes ==> Validated(w.field.control)
    ensures Plan(selectors, writes).Some? <==> writes != [] && Preparable(selectors, writes)
    ensures forall prepared :: writes != [] && Chained(selectors, prepared) && Describes(writes, prepared) ==>
              Plan(selectors, writes) == Some(prepared)
  {
    forall prepared | Chained(selectors, prepared) && Describes(writes, prepared)
      ensures PrepareFrom(selectors, writes, map[]) == Some(prepared)
    {
      assert [] + prepared == prepared;
      PrepareFollows(selectors, [], prepared, writes, map[]);
    }
  }

  // ----------------------------------------------------- writing and undoing

  /** One transfer with its readback; absent when either fails. */
  function ApplyOne(camera: Camera, field: Field, payload: seq<Byte>): (r: (Camera, Option<Value>))
    requires Validated(field.control)
  {
    var answer := First(camera.forward);
    var selectors := Stored(camera.selectors, field.key, answer, payload);
    (camera.(selectors := selectors, forward := Tail(camera.forward)), ReadBack(selectors, field, answer))
  }

  datatype Restoring = NotAttempted | Attempted(restored: bool)

  /** Writes a previous value back over a given baseline. */
  function UndoOne(camera: Camera, field: Field, previous: Value, baseline: seq<Byte>): (Camera, Restoring)
    requires Validated(field.control)
  {
    var payload := Encode(field.control, previous, baseline);
    if payload.None? then (camera, Attempted(false))
    else
      var answer := First(camera.undo);
      var selectors := Stored(camera.selectors, field.key, answer, payload.value);
      var observed := ReadBack(selectors, field, answer);
      (camera.(selectors := selectors, undo := Tail(camera.undo)),
       Attempted(observed.Some? && Matches(field, previous, observed.value)))
  }

  function RollbackOne(camera: Camera, p: Prepared): (Camera, Restoring)
    requires Validated(p.field.control)
  {
    if p.field.policy.NoRollback? then (camera, NotAttempted) else UndoOne(camera, p.field, p.previous, p.baseline)
  }

  /** Undoes prepared writes newest first, each over its recorded baseline. */
  function RollbackWrites(camera: Camera, prepared: seq<Prepared>): (Camera, seq<Restoring>)
    requires Checked(prepared)
    decreases |prepared|
  {
    if prepared == [] then (camera, [])
    else
      var (camera1, result) := RollbackOne(camera, prepared[|prepared| - 1]);
      var (camera2, results) := RollbackWrites(camera1, prepared[..|prepared| - 1]);
      (camera2, [result] + results)
  }

  datatype Outcome = Refused | Done | Failed(index: nat, rollback: seq<Restoring>)

  function RunFrom(camera: Camera, prepared: seq<Prepared>, index: nat): (Camera, Outcome)
    requires index <= |prepared| && Checked(prepared)
    decreases |prepared| - index
  {
    if index == |prepared| then (camera, Done)
    else
      var p := prepared[index];
      var (camera1, observed) := ApplyOne(camera, p.field, p.payload);
      if observed.Some? && Matches(p.field, p.requested, observed.value) then RunFrom(camera1, prepared, index + 1)
      else
        var (camera2, results) := RollbackWrites(camera1, prepared[..index + 1]);
        (camera2, Failed(index, results))
  }

  function RunWrites(camera: Camera, writes: seq<FieldWrite>): (Camera, Outcome)
    requires forall w :: w in writes ==> Validated(w.field.control)
  {
    var prepared := Plan(camera.selectors, writes);
    if prepared.None? then (camera, Refused) else RunFrom(camera, prepared.value, 0)
  }

  /** A transaction is refused exactly when it cannot be prepared, and then nothing
    * was written. */
  lemma {:induction false} RefusedExact(camera: Camera, writes: seq<FieldWrite>)
    requires forall w :: w in writes ==> Validated(w.field.control)
    ensures var (after, outcome) := RunWrites(camera, writes);
            && (outcome.Refused? <==> writes == [] || !Preparable(camera.selectors, writes))
            && (outcome.Refused? ==> after == camera)
  {
    PlanExact(camera.selectors, writes);
    if Plan(camera.selectors, writes).Some? { NeverRefused(camera, Plan(camera.selectors, writes).value, 0); }
  }

  lemma {:induction false} NeverRefused(camera: Camera, prepared: seq<Prepared>, index: nat)
    requires index <= |prepared| && Checked(prepared)
    ensures !RunFrom(camera, prepared, index).1.Refused?
    decreases |prepared| - index
  {
    if index < |prepared| {
      NeverRefused(ApplyOne(camera, prepared[index].field, prepared[index].payload).0, prepared, index + 1);
    }
  }

  // ------------------------------------------------------ byte-exact rollback

  /** Every transfer stores the payload it was given. */
  predicate Clean(script: seq<Answer>) {
    forall a :: a in script ==> a.landing.Payload?
  }

  /** The bytes a selector ends up with: the last undo to reach it is that of
    * the oldest write to it that is undone at all. */
  function Final(prepared: seq<Prepared>, key: Key, bytes: seq<Byte>): seq<Byte>
    requires Checked(prepared)
    decreases |prepared|
  {
    if prepared == [] then bytes
    else
      var p := prepared[|prepared| - 1];
      var payload := Encode(p.field.control, p.previous, p.baseline);
      Final(prepared[..|prepared| - 1], key,
            if p.field.key == key && p.field.policy.ByReadback? && payload.Some? then payload.value else bytes)
  }

  /** What a clean rollback leaves in every selector, whatever it found there. */
  lemma {:induction false} RollbackBytes(camera: Camera, prepared: seq<Prepared>)
    requires Checked(prepared) && Clean(camera.undo)
    requires forall p :: p in prepared ==> p.field.key in camera.selectors
    ensures var after := RollbackWrites(camera, prepared).0.selectors;
            && after.Keys == camera.selectors.Keys
            && forall key :: key in after ==> after[key] == Final(prepared, key, camera.selectors[key])
    decreases |prepared|
  {
    if prepared != [] {
      var p := prepared[|prepared| - 1];
      if camera.undo != [] { assert camera.undo[0] in camera.undo; }
      RollbackBytes(RollbackOne(camera, p).0, prepared[..|prepared| - 1]);
    }
  }

  predicate Touches(prepared: seq<Prepared>, key: Key) {
    exists p :: p in prepared && p.field.key == key
  }

  /** The selectors differ from the originals at most where a write reached. */
  predicate OnlyTouched(selectors: Selectors, now: Selectors, prepared: seq<Prepared>) {
    && now.Keys == selectors.Keys
    && forall key :: key in selectors && !Touches(prepared, key) ==> now[key] == selectors[key]
  }

  /** The oldest write to each selector can be undone and starts from bytes the
    * codec can put back. */
  predicate Recoverable(prepared: seq<Prepared>)
    requires Checked(prepared)
  {
    forall i :: 0 <= i < |prepared| && !Touches(prepared[..i], prepared[i].field.key) ==>
      prepared[i].field.policy.ByReadback? && Faithful(prepared[i].field.control, prepared[i].baseline)
  }

  lemma {:induction false} RecoverablePrefix(prepared: seq<Prepared>, n: nat)
    requires Checked(prepared) && Recoverable(prepared) && n <= |prepared|
    ensures Checked(prepared[..n]) && Recoverable(prepared[..n])
  {
    forall i | 0 <= i < n ensures prepared[..n][..i] == prepared[..i] {}
  }

  lemma {:induction false} LatestUntouched(selectors: Selectors, prepared: seq<Prepared>, key: Key)
    requires key in selectors && !Touches(prepared, key)
    ensures Latest(selectors, prepared, key) == selectors[key]
    decreases |prepared|
  {
    if prepared != [] {
      assert prepared[|prepared| - 1] in prepared;
      LatestUntouched(selectors, prepared[..|prepared| - 1], key);
    }
  }

  lemma {:induction false} FinalUntouched(prepared: seq<Prepared>, key: Key, bytes: seq<Byte>)
    requires Checked(prepared) && !Touches(prepared, key)
    ensures Final(prepared, key, bytes) == bytes
    decreases |prepared|
  {
    if prepared != [] {
      assert prepared[|prepared| - 1] in prepared;
      FinalUntouched(prepared[..|prepared| - 1], key, bytes);
    }
  }

  /** Undoing the oldest write to a selector writes the original bytes. */
  lemma {:induction false} OldestPutsBack(selectors: Selectors, before: seq<Prepared>, p: Prepared)
    requires Linked(selectors, before, p) && !Touches(before, p.field.key)
    ensures Encode(p.field.control, p.previous, p.baseline) == Some(selectors[p.field.key]) <==>
            Faithful(p.field.control, p.baseline)
  {
    LatestUntouched(selectors, before, p.field.key);
    PutBackExact(p.field.control, p.baseline);
  }

  lemma {:induction false} FinalIsOriginal(selectors: Selectors, prepared: seq<Prepared>, key: Key, bytes: seq<Byte>)
    requires Checked(prepared) && Chained(selectors, prepared) && Recoverable(prepared) && Touches(prepared, key)
    ensures key in selectors && Final(prepared, key, bytes) == selectors[key]
    decreases |prepared|
  {
    var n := |prepared| - 1;
    var p := prepared[n];
    var payload := Encode(p.field.control, p.previous, p.baseline);
    var next := if p.field.key == key && p.field.policy.ByReadback? && payload.Some? then payload.value else bytes;
    ChainPrefix(selectors, prepared, n);
    RecoverablePrefix(prepared, n);
    if Touches(prepared[..n], key) {
      FinalIsOriginal(selectors, prepared[..n], key, next);
    } else {
      assert p.field.key == key by {
        var q :| q in prepared && q.field.key == key;
        var i :| 0 <= i < |prepared| && prepared[i] == q;
        if i < n { assert prepared[..n][i] in prepared[..n]; }
      }
      OldestPutsBack(selectors, prepared[..n], p);
      FinalUntouched(prepared[..n], key, next);
    }
  }

  /** XU rollback is byte-exact.  Over any mix of shared and distinct selectors,
    * and whatever bytes the failed write and its predecessors left in theirs,
    * undoing newest first returns every selector to its original bytes. */
  lemma {:induction false} RollbackByteExact(selectors: Selectors, camera: Camera, prepared: seq<Prepared>)
    requires Checked(prepared) && Chained(selectors, prepared) && Recoverable(prepared) && Clean(camera.undo)
    requires OnlyTouched(selectors, camera.selectors, prepared)
    ensures RollbackWrites(camera, prepared).0.selectors == selectors
  {
    ChainedAreChecked(selectors, prepared);
    RollbackBytes(camera, prepared);
    forall key | key in selectors ensures Final(prepared, key, camera.selectors[key]) == selectors[key] {
      if Touches(prepared, key) {
        FinalIsOriginal(selectors, prepared, key, camera.selectors[key]);
      } else {
        FinalUntouched(prepared, key, camera.selectors[key]);
      }
    }
  }

  /** For one write the law is exact: its undo brings the original bytes back
    * over arbitrary garbage precisely when the codec can put them back. */
  lemma {:induction false} SingleRollbackExact(camera: Camera, selectors: Selectors, p: Prepared)
    requires Linked(selectors, [], p) && p.field.policy.ByReadback? && Clean(camera.undo)
    requires camera.selectors.Keys == selectors.Keys
    requires forall key :: key in selectors && key != p.field.key ==> camera.selectors[key] == selectors[key]
    requires Encode(p.field.control, p.previous, p.baseline).Some?
    ensures RollbackWrites(camera, [p]).0.selectors == selectors <==> Faithful(p.field.control, p.baseline)
  {
    assert Checked([p]);
    RollbackBytes(camera, [p]);
    OldestPutsBack(selectors, [], p);
    assert [p][..0] == [];
    forall key | key in selectors
      ensures Final([p], key, camera.selectors[key]) ==
              if key == p.field.key then Encode(p.field.control, p.previous, p.baseline).value else selectors[key] {}
  }

  lemma {:induction false} TouchesLater(prepared: seq<Prepared>, index: nat, key: Key)
    requires index < |prepared| && !Touches(prepared[..index + 1], key)
    ensures key != prepared[index].field.key && !Touches(prepared[..index], key)
  {
    assert prepared[..index + 1] == prepared[..index] + [prepared[index]];
    assert prepared[index] in prepared[..index + 1];
    forall q | q in prepared[..index] ensures q.field.key != key { assert q in prepared[..index + 1]; }
  }

  lemma {:induction false} TouchedGrows(selectors: Selectors, now: Selectors, prepared: seq<Prepared>, index: nat,
          answer: Answer)
    requires index < |prepared| && prepared[index].field.key in selectors
    requires OnlyTouched(selectors, now, prepared[..index])
    ensures OnlyTouched(selectors, Stored(now, prepared[index].field.key, answer, prepared[index].payload),
            prepared[..index + 1])
  {
    forall key | key in selectors && !Touches(prepared[..index + 1], key)
      ensures key != prepared[index].field.key && !Touches(prepared[..index], key)
    {
      TouchesLater(prepared, index, key);
    }
  }

  lemma {:induction false} RunFromExact(selectors: Selectors, camera: Camera, prepared: seq<Prepared>, index: nat)
    requires Checked(prepared) && Chained(selectors, prepared) && Recoverable(prepared) && Clean(camera.undo)
    requires index <= |prepared| && OnlyTouched(selectors, camera.selectors, prepared[..index])
    ensures !RunFrom(camera, prepared, index).1.Done? ==> RunFrom(camera, prepared, index).0.selectors == selectors
    decreases |prepared| - index
  {
    if index < |prepared| {
      var p := prepared[index];
      var (camera1, observed) := ApplyOne(camera, p.field, p.payload);
      ChainedAreChecked(selectors, prepared);
      TouchedGrows(selectors, camera.selectors, prepared, index, First(camera.forward));
      if observed.Some? && Matches(p.field, p.requested, observed.value) {
        RunFromExact(selectors, camera1, prepared, index + 1);
      } else {
        ChainPrefix(selectors, prepared, index + 1);
        RecoverablePrefix(prepared, index + 1);
        RollbackByteExact(selectors, camera1, prepared[..index + 1]);
      }
    }
  }

  /** A semantic transaction that does not complete, failing at any write and
    * with any bytes left behind, is undone byte for byte. */
  lemma {:induction false} WritesAllOrNothing(camera: Camera, writes: seq<FieldWrite>)
    requires forall w :: w in writes ==> Validated(w.field.control)
    requires Clean(camera.undo)
    requires var prepared := Plan(camera.selectors, writes); prepared.Some? ==> Recoverable(prepared.value)
    ensures !RunWrites(camera, writes).1.Done? ==> RunWrites(camera, writes).0.selectors == camera.selectors
  {
    var prepared := Plan(camera.selectors, writes);
    if prepared.Some? {
      assert prepared.value[..0] == [];
      RunFromExact(camera.selectors, camera, prepared.value, 0);
    }
  }
}
