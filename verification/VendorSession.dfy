/** The vendor transaction as it runs: a session whose selectors change transfer
  * by transfer.  `State()` is the value `Vendor` and `VendorGroup` speak about. */
module VendorSession {
  import opened Wrappers
  import opened Codec
  import opened Vendor
  import opened VendorGroup

  class XuSession {
    var selectors: Selectors
    var baselines: seq<bool>
    var forward: seq<Answer>
    var undo: seq<Answer>

    function State(): Camera
      reads this
    {
      Camera(selectors, baselines, forward, undo)
    }

    constructor (selectors: Selectors, baselines: seq<bool>, forward: seq<Answer>, undo: seq<Answer>)
      ensures State() == Camera(selectors, baselines, forward, undo)
    {
      this.selectors, this.baselines, this.forward, this.undo := selectors, baselines, forward, undo;
    }

    method Land(key: Key, answer: Answer, payload: seq<Byte>)
      modifies this`selectors
      ensures selectors == Stored(old(selectors), key, answer, payload)
    {
      match answer.landing
      case Payload => selectors := selectors[key := payload];
      case Nothing =>
      case Garbage(bytes) => selectors := selectors[key := bytes];
    }

    method Apply(field: Field, payload: seq<Byte>) returns (observed: Option<Value>)
      requires Validated(field.control)
      modifies this`selectors, this`forward
      ensures (State(), observed) == ApplyOne(old(State()), field, payload)
    {
      var answer := First(forward);
      forward := Vendor.Tail(forward);
      Land(field.key, answer, payload);
      observed := ReadBack(selectors, field, answer);
    }

    method Restore(field: Field, previous: Value, baseline: seq<Byte>) returns (result: Restoring)
      requires Validated(field.control)
      modifies this`selectors, this`undo
      ensures (State(), result) == UndoOne(old(State()), field, previous, baseline)
    {
      var payload := Encode(field.control, previous, baseline);
      if payload.None? { return Attempted(false); }
      var answer := First(undo);
      undo := Vendor.Tail(undo);
      Land(field.key, answer, payload.value);
      var observed := ReadBack(selectors, field, answer);
      result := Attempted(observed.Some? && Matches(field, previous, observed.value));
    }

    /** Prepares the writes in order over the simulated selector map. */
    method Prepare(writes: seq<FieldWrite>) returns (r: Option<seq<Prepared>>)
      requires forall w :: w in writes ==> Validated(w.field.control)
      ensures r == Plan(selectors, writes)
    {
      if writes == [] { return None; }
      var prepared: seq<Prepared> := [];
      var simulated: Selectors := map[];
      var i := 0;
      assert writes[0..] == writes;
      while i < |writes|
        invariant 0 <= i <= |writes|
        invariant PrepareFrom(selectors, writes, map[]) ==
                  Prefixed(prepared, PrepareFrom(selectors, writes[i..], simulated))
      {
        var one := PreparedFirst(selectors, writes[i], simulated);
        PrepareUnrolls(selectors, writes, i, simulated, prepared);
        if one.None? { return None; }
        simulated := simulated[one.value.field.key := one.value.payload];
        prepared := prepared + [one.value];
        i := i + 1;
      }
      r := Some(prepared);
    }

    method RollbackWrite(p: Prepared) returns (result: Restoring)
      requires Validated(p.field.control)
      modifies this`selectors, this`undo
      ensures (State(), result) == RollbackOne(old(State()), p)
    {
      if p.field.policy.NoRollback? { return NotAttempted; }
      result := Restore(p.field, p.previous, p.baseline);
    }

    /** Undoes the prepared writes newest first over their recorded baselines. */
    method RollbackSemanticWrites(prepared: seq<Prepared>) returns (results: seq<Restoring>)
      requires Checked(prepared)
      modifies this`selectors, this`undo
      ensures State() == RollbackWrites(old(State()), prepared).0 && results == RollbackWrites(old(State()), prepared).1
    {
      ghost var all := RollbackWrites(State(), prepared);
      results := [];
      var i := |prepared|;
      assert prepared[..i] == prepared;
      while i > 0
        invariant 0 <= i <= |prepared|
        invariant all.0 == RollbackWrites(State(), prepared[..i]).0
        invariant all.1 == results + RollbackWrites(State(), prepared[..i]).1
      {
        i := i - 1;
        RollbackUnrolls(State(), prepared, i, results);
        var result := RollbackWrite(prepared[i]);
        results := results + [result];
      }
    }

    method RunSemanticWrites(writes: seq<FieldWrite>) returns (outcome: Outcome)
      requires forall w :: w in writes ==> Validated(w.field.control)
      modifies this
      ensures State() == RunWrites(old(State()), writes).0 && outcome == RunWrites(old(State()), writes).1
    {
      ghost var start := State();
      var plan := Prepare(writes);
      if plan.None? { return Refused; }
      var prepared := plan.value;
      var index := 0;
      while index < |prepared|
        invariant 0 <= index <= |prepared|
        invariant RunFrom(start, prepared, 0) == RunFrom(State(), prepared, index)
      {
        var p := prepared[index];
        var observed := Apply(p.field, p.payload);
        if observed.None? || !Matches(p.field, p.requested, observed.value) {
          var results := RollbackSemanticWrites(prepared[..index + 1]);
          return Failed(index, results);
        }
        index := index + 1;
      }
      outcome := Done;
    }

    method ReadLive(key: Key) returns (bytes: Option<seq<Byte>>)
      modifies this`baselines
      ensures State() == AfterReading(old(State()))
      ensures bytes == if Readable(old(baselines)) && key in selectors then Some(selectors[key]) else None
    {
      bytes := if Readable(baselines) && key in selectors then Some(selectors[key]) else None;
      if baselines != [] { baselines := baselines[1..]; }
    }

    method RestoreApplied(a: Applied) returns (result: Restoring)
      requires Validated(a.field.control)
      modifies this
      ensures (State(), result) == VendorGroup.RestoreLive(old(State()), a)
    {
      var bytes := ReadLive(a.field.key);
      if bytes.None? { return Attempted(false); }
      result := Restore(a.field, a.previous, bytes.value);
    }

    /** Undoes applied writes newest first over live baselines. */
    method RestoreInSession(applied: seq<Applied>) returns (results: seq<Restoring>)
      requires AllValidated(applied)
      modifies this
      ensures State() == RestoreGroup(old(State()), applied).0 && results == RestoreGroup(old(State()), applied).1
    {
      ghost var all := RestoreGroup(State(), applied);
      results := [];
      var i := |applied|;
      assert applied[..i] == applied;
      while i > 0
        invariant 0 <= i <= |applied|
        invariant all.0 == RestoreGroup(State(), applied[..i]).0
        invariant all.1 == results + RestoreGroup(State(), applied[..i]).1
      {
        i := i - 1;
        RestoreUnrolls(State(), applied, i, results);
        var result := RestoreApplied(applied[i]);
        results := results + [result];
      }
    }

    /** Applies the writes that are not no-ops over live baselines. */
    method ApplyPresetGroup(group: seq<Prepared>, video: bool) returns (outcome: GroupOutcome)
      requires Checked(group)
      modifies this
      ensures State() == ApplyGroup(old(State()), group, [], video).0
              && outcome == ApplyGroup(old(State()), group, [], video).1
    {
      ghost var start := State();
      var applied: seq<Applied> := [];
      var i := 0;
      while i < |group|
        invariant 0 <= i <= |group| && AllValidated(applied)
        invariant ApplyGroup(start, group, [], video) == ApplyGroup(State(), group[i..], applied, video)
      {
        assert group[i..][0] == group[i] && group[i..][1..] == group[i + 1..];
        var p := group[i];
        if !NoOp(p) {
          ghost var before := State();
          var bytes := ReadLive(p.field.key);
          assert PrepareLive(before, p) == if bytes.None? then None
              else PrepareOne(FieldWrite(p.field, p.input), bytes.value);
          if bytes.None? { return Abandoned(applied); }
          var live := PrepareOne(FieldWrite(p.field, p.input), bytes.value);
          if live.None? { return Abandoned(applied); }
          var observed := Apply(p.field, live.value.payload);
          applied := applied + [Applied(p.field, live.value.previous)];
          if observed.None? || !Matches(p.field, live.value.requested, observed.value) {
            var results := RestoreInSession(applied);
            return Undone(results);
          }
        }
        i := i + 1;
      }
      outcome := if video then Completed(applied) else Abandoned(applied);
    }
  }

  lemma {:induction false} RollbackUnrolls(camera: Camera, prepared: seq<Prepared>, i: nat, results: seq<Restoring>)
    requires Checked(prepared) && i < |prepared|
    ensures var (camera1, result) := RollbackOne(camera, prepared[i]);
            && RollbackWrites(camera, prepared[..i + 1]).0 == RollbackWrites(camera1, prepared[..i]).0
            && results + RollbackWrites(camera, prepared[..i + 1]).1 ==
                (results + [result]) + RollbackWrites(camera1, prepared[..i]).1
  {
    assert prepared[..i + 1][i] == prepared[i] && prepared[..i + 1][..i] == prepared[..i];
  }

  lemma {:induction false} RestoreUnrolls(camera: Camera, applied: seq<Applied>, i: nat, results: seq<Restoring>)
    requires AllValidated(applied) && i < |applied|
    ensures var (camera1, result) := VendorGroup.RestoreLive(camera, applied[i]);
            && RestoreGroup(camera, applied[..i + 1]).0 == RestoreGroup(camera1, applied[..i]).0
            && results + RestoreGroup(camera, applied[..i + 1]).1 ==
                (results + [result]) + RestoreGroup(camera1, applied[..i]).1
  {
    assert applied[..i + 1][i] == applied[i] && applied[..i + 1][..i] == applied[..i];
  }

  function Prefixed(done: seq<Prepared>, rest: Option<seq<Prepared>>): (r: Option<seq<Prepared>>)
    ensures done == [] ==> r == rest
    ensures rest == Some([]) ==> r == Some(done)
  {
    if rest.None? then None
    else
      assert done == [] ==> done + rest.value == rest.value;
      assert rest.value == [] ==> done + rest.value == done;
      Some(done + rest.value)
  }

  lemma {:induction false} PrepareUnrolls(selectors: Selectors, writes: seq<FieldWrite>, i: nat, simulated: Selectors,
          done: seq<Prepared>)
    requires forall w :: w in writes ==> Validated(w.field.control)
    requires i < |writes|
    ensures var one := PreparedFirst(selectors, writes[i], simulated);
            Prefixed(done, PrepareFrom(selectors, writes[i..], simulated)) ==
            if one.None? then None
            else Prefixed(done + [one.value],
                PrepareFrom(selectors, writes[i + 1..], simulated[one.value.field.key := one.value.payload]))
  {
    assert writes[i..][0] == writes[i] && writes[i..][1..] == writes[i + 1..];
    var one := PreparedFirst(selectors, writes[i], simulated);
    if one.Some? {
      var rest := PrepareFrom(selectors, writes[i + 1..], simulated[one.value.field.key := one.value.payload]);
      if rest.Some? { Regroup(done, one.value, rest.value); }
    }
  }
}
