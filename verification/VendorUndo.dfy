/** What undoing a preset's vendor group over live baselines leaves, bit by bit,
  * whatever landed: when it restores the original bytes, and when it cannot. */
module VendorUndo {
  import opened Wrappers
  import opened Codec
  import opened CodecBits
  import opened Vendor
  import opened VendorGroup

  // ------------------------------------------------------------- a single undo

  /** On a clean transfer the live-baseline undo of one write restores the bytes
    * the write started from if and only if the bytes found agree with them in
    * every bit the control does not decide.  Bytes of another length are never
    * restored. */
  lemma {:induction false} LiveUndoExact(camera: Camera, field: Field, b: seq<Byte>)
    requires Validated(field.control) && Faithful(field.control, b) && field.key in camera.selectors
    requires Readable(camera.baselines) && (camera.undo == [] || camera.undo[0].landing.Payload?)
    ensures var g := camera.selectors[field.key];
            var after := RestoreLive(camera, Applied(field, Decode(field.control, b).value)).0.selectors;
            after[field.key] == b <==> |g| == |b| && SameOutside(field.control, g, b)
  {
    var g := camera.selectors[field.key];
    if |g| == |b| { PutBackOverExact(field.control, b, g); }
  }

  // ---------------------------------------------------- the run, write by write

  /** A write that was sent: the live bytes it started from and those it left. */
  datatype Attempt = Attempt(field: Field, before: seq<Byte>, after: seq<Byte>)

  predicate Sound(attempts: seq<Attempt>) {
    forall a :: a in attempts ==> Validated(a.field.control) && Decode(a.field.control, a.before).Some?
  }

  function Undoing(a: Attempt): (r: Applied)
    requires Validated(a.field.control) && Decode(a.field.control, a.before).Some?
    ensures Validated(r.field.control)
  {
    Applied(a.field, Decode(a.field.control, a.before).value)
  }

  function Undoings(attempts: seq<Attempt>): (r: seq<Applied>)
    requires Sound(attempts)
    ensures AllValidated(r) && |r| == |attempts|
    decreases |attempts|
  {
    if attempts == [] then [] else [Undoing(attempts[0])] + Undoings(attempts[1..])
  }

  /** How the forward writes end: all sent and read back, one that could not be
    * prepared over live bytes, or one that did not read back as asked. */
  datatype End = AllSent | Unprepared | Misread

  datatype Sent = Sent(camera: Camera, attempts: seq<Attempt>, end: End)

  /** The forward writes of a group alone. */
  function Forward(camera: Camera, group: seq<Prepared>): (r: Sent)
    requires Checked(group)
    ensures Sound(r.attempts)
    decreases |group|
  {
    if group == [] then Sent(camera, [], AllSent)
    else
      var p := group[0];
      if NoOp(p) then Forward(camera, group[1..])
      else
        var live := PrepareLive(camera, p);
        if live.None? then Sent(AfterReading(camera), [], Unprepared)
        else
          var (camera1, observed) := ApplyOne(AfterReading(camera), p.field, live.value.payload);
          var one := Attempt(p.field, camera.selectors[p.field.key], camera1.selectors[p.field.key]);
          if observed.Some? && Matches(p.field, live.value.requested, observed.value) then
            var rest := Forward(camera1, group[1..]);
            rest.(attempts := [one] + rest.attempts)
          else Sent(camera1, [one], Misread)
  }

  /** The group is its forward writes, then the undo when one did not read back. */
  function Ended(sent: Sent, applied: seq<Applied>, video: bool): (Camera, GroupOutcome)
    requires Sound(sent.attempts) && AllValidated(applied)
  {
    var all := applied + Undoings(sent.attempts);
    match sent.end
    case AllSent => (sent.camera, if video then Completed(all) else Abandoned(all))
    case Unprepared => (sent.camera, Abandoned(all))
    case Misread => (var (after, results) := RestoreGroup(sent.camera, all); (after, Undone(results)))
  }

  lemma {:induction false} EndedOne(sent: Sent, one: Attempt, applied: seq<Applied>, video: bool)
    requires Sound([one] + sent.attempts) && Sound(sent.attempts) && AllValidated(applied) && Sound([one])
    ensures Ended(sent.(attempts := [one] + sent.attempts), applied, video) ==
            Ended(sent, applied + [Undoing(one)], video)
  {
    assert ([one] + sent.attempts)[1..] == sent.attempts;
    assert applied + ([Undoing(one)] + Undoings(sent.attempts)) == (applied + [Undoing(one)]) + Undoings(sent.attempts);
  }

  lemma {:induction false} GroupIsForwardThenUndo(camera: Camera, group: seq<Prepared>, applied: seq<Applied>,
          video: bool)
    requires Checked(group) && AllValidated(applied)
    ensures ApplyGroup(camera, group, applied, video) == Ended(Forward(camera, group), applied, video)
    decreases |group|
  {
    if group != [] {
      var p := group[0];
      if NoOp(p) {
        GroupIsForwardThenUndo(camera, group[1..], applied, video);
      } else {
        var live := PrepareLive(camera, p);
        if live.Some? {
          var (camera1, observed) := ApplyOne(AfterReading(camera), p.field, live.value.payload);
          var one := Attempt(p.field, camera.selectors[p.field.key], camera1.selectors[p.field.key]);
          assert Undoing(one) == Applied(p.field, live.value.previous);
          assert Undoings([one]) == [Undoing(one)] by { assert [one][1..] == []; }
          if observed.Some? && Matches(p.field, live.value.requested, observed.value) {
            GroupIsForwardThenUndo(camera1, group[1..], applied + [Undoing(one)], video);
            EndedOne(Forward(camera1, group[1..]), one, applied, video);
          }
        } else {
          assert applied + [] == applied;
        }
      }
    } else {
      assert applied + [] == applied;
    }
  }

  // -------------------------------------------------------- the undo, bit by bit

  /** Whether the undo of this write sends anything. */
  predicate Sends(camera: Camera, a: Attempt)
    requires Sound([a])
  {
    && Readable(camera.baselines) && a.field.key in camera.selectors
    && Encode(a.field.control, Undoing(a).previous, camera.selectors[a.field.key]).Some?
  }

  /** The attempts whose undo sends something, oldest first: all but those whose
    * baseline cannot be read and those the codec refuses. */
  function Reached(camera: Camera, attempts: seq<Attempt>): (r: seq<Attempt>)
    requires Sound(attempts)
    decreases |attempts|
  {
    if attempts == [] then []
    else
      var last := attempts[|attempts| - 1];
      assert Sound([last]);
      Reached(RestoreLive(camera, Undoing(last)).0, attempts[..|attempts| - 1])
          + (if Sends(camera, last) then [last] else [])
  }

  function At(attempts: seq<Attempt>, key: Key): seq<Attempt>
    decreases |attempts|
  {
    if attempts == [] then []
    else (if attempts[0].field.key == key then [attempts[0]] else []) + At(attempts[1..], key)
  }

  /** Attempts on one selector whose baselines are faithful and of its length. */
  predicate Fitting(attempts: seq<Attempt>, length: nat) {
    forall a :: a in attempts ==>
      Validated(a.field.control) && Faithful(a.field.control, a.before) && a.field.control.length == length
  }

  /** The oldest write that decides a bit settles it; a bit no write decides stays
    * as found. */
  predicate Settled(attempts: seq<Attempt>, found: seq<Byte>, i: nat, k: nat)
    requires Fitting(attempts, |found|) && i < |found|
    decreases |attempts|
  {
    if attempts == [] then Bit(found[i], k)
    else if Covers(attempts[0].field.control, i, k) then Bit(attempts[0].before[i], k)
    else Settled(attempts[1..], found, i, k)
  }

  lemma {:induction false} AtSnoc(attempts: seq<Attempt>, last: Attempt, key: Key)
    ensures At(attempts + [last], key) == At(attempts, key) + (if last.field.key == key then [last] else [])
    decreases |attempts|
  {
    if attempts == [] {
      assert attempts + [last] == [last] && [last][1..] == [];
    } else {
      assert (attempts + [last])[1..] == attempts[1..] + [last];
      AtSnoc(attempts[1..], last, key);
    }
  }

  lemma {:induction false} SettledSnoc(attempts: seq<Attempt>, last: Attempt, found: seq<Byte>, put: seq<Byte>,
          i: nat, k: nat)
    requires |put| == |found| && Fitting(attempts, |found|) && Fitting(attempts + [last], |found|) && i < |found|
    requires Bit(put[i], k) == if Covers(last.field.control, i, k) then Bit(last.before[i], k) else Bit(found[i], k)
    ensures Settled(attempts + [last], found, i, k) == Settled(attempts, put, i, k)
    decreases |attempts|
  {
    if attempts == [] {
      assert attempts + [last] == [last] && [last][1..] == [];
    } else {
      assert (attempts + [last])[1..] == attempts[1..] + [last];
      SettledSnoc(attempts[1..], last, found, put, i, k);
    }
  }

  predicate CleanStarts(attempts: seq<Attempt>) {
    forall a :: a in attempts ==> Validated(a.field.control) && Faithful(a.field.control, a.before)
  }

  lemma {:induction false} FaithfulAreSound(attempts: seq<Attempt>)
    requires CleanStarts(attempts)
    ensures Sound(attempts)
  {
  }

  /** Every bit of a selector after the undo. */
  predicate SettledTo(attempts: seq<Attempt>, found: seq<Byte>, bytes: seq<Byte>) {
    && |bytes| == |found| && Fitting(attempts, |found|)
    && forall i, k :: 0 <= i < |found| && 0 <= k < 8 ==> Bit(bytes[i], k) == Settled(attempts, found, i, k)
  }

  lemma {:induction false} UndoOneSettles(camera: Camera, last: Attempt)
    requires Clean(camera.undo) && CleanStarts([last]) && Sound([last]) && last.field.key in camera.selectors
    ensures var camera1 := RestoreLive(camera, Undoing(last)).0;
            var found := camera.selectors[last.field.key];
            && Clean(camera1.undo) && camera1.selectors.Keys == camera.selectors.Keys
            && (forall key :: key in camera.selectors && key != last.field.key ==>
                camera1.selectors[key] == camera.selectors[key])
            && (!Sends(camera, last) ==> camera1.selectors == camera.selectors)
            && (Sends(camera, last) ==>
                  Encode(last.field.control, Undoing(last).previous, found) == Some(camera1.selectors[last.field.key]))
  {
    assert last in [last];
    if camera.undo != [] {
      assert camera.undo[0] in camera.undo;
      assert forall a :: a in camera.undo[1..] ==> a in camera.undo;
    }
  }

  lemma {:induction false} SettlesOne(rest: seq<Attempt>, last: Attempt, found: seq<Byte>, put: seq<Byte>,
          bytes: seq<Byte>)
    requires CleanStarts([last]) && Sound([last]) && SettledTo(rest, put, bytes)
    requires Encode(last.field.control, Undoing(last).previous, found) == Some(put)
    ensures SettledTo(rest + [last], found, bytes)
  {
    assert last in [last];
    var c := last.field.control;
    PutBackRefused(c, last.before, found);
    forall i, k | 0 <= i < |found| && 0 <= k < 8 ensures Bit(bytes[i], k) == Settled(rest + [last], found, i, k) {
      PutBackBit(c, last.before, found, i, k);
      SettledSnoc(rest, last, found, put, i, k);
    }
  }

  lemma {:induction false} UndoingsSnoc(attempts: seq<Attempt>, last: Attempt)
    requires Sound(attempts) && Sound([last]) && Sound(attempts + [last])
    ensures Undoings(attempts + [last]) == Undoings(attempts) + [Undoing(last)]
    decreases |attempts|
  {
    if attempts == [] {
      assert attempts + [last] == [last] && [last][1..] == [];
    } else {
      assert (attempts + [last])[1..] == attempts[1..] + [last];
      UndoingsSnoc(attempts[1..], last);
    }
  }

  lemma {:induction false} RestoreLast(camera: Camera, attempts: seq<Attempt>, last: Attempt)
    requires Sound(attempts) && Sound([last]) && Sound(attempts + [last])
    ensures RestoreGroup(camera, Undoings(attempts + [last])).0 ==
            RestoreGroup(RestoreLive(camera, Undoing(last)).0, Undoings(attempts)).0
  {
    UndoingsSnoc(attempts, last);
    RestoreSplits(camera, Undoings(attempts), Undoing(last));
  }

  lemma {:induction false} ReachedSnoc(camera: Camera, attempts: seq<Attempt>, last: Attempt)
    requires Sound(attempts) && Sound([last]) && Sound(attempts + [last])
    ensures Reached(camera, attempts + [last]) ==
            Reached(RestoreLive(camera, Undoing(last)).0, attempts) + (if Sends(camera, last) then [last] else [])
  {
    assert (attempts + [last])[..|attempts|] == attempts;
  }

  lemma {:induction false} ReachedAt(camera: Camera, attempts: seq<Attempt>, last: Attempt, key: Key)
    requires Sound(attempts) && Sound([last]) && Sound(attempts + [last])
    ensures At(Reached(camera, attempts + [last]), key) ==
            At(Reached(RestoreLive(camera, Undoing(last)).0, attempts), key)
            + (if Sends(camera, last) && last.field.key == key then [last] else [])
  {
    var rest := Reached(RestoreLive(camera, Undoing(last)).0, attempts);
    ReachedSnoc(camera, attempts, last);
    AtSnoc(rest, last, key);
    assert rest + [] == rest && At(rest, key) + [] == At(rest, key);
  }

  lemma {:induction false} SettlesLast(camera: Camera, attempts: seq<Attempt>, last: Attempt, key: Key,
      bytes: seq<Byte>)
    requires Clean(camera.undo) && CleanStarts([last]) && Sound([last]) && Sound(attempts) && Sound(attempts + [last])
    requires last.field.key in camera.selectors && key in camera.selectors
    requires var camera1 := RestoreLive(camera, Undoing(last)).0;
             key in camera1.selectors && SettledTo(At(Reached(camera1, attempts), key), camera1.selectors[key], bytes)
    ensures SettledTo(At(Reached(camera, attempts + [last]), key), camera.selectors[key], bytes)
  {
    var camera1 := RestoreLive(camera, Undoing(last)).0;
    UndoOneSettles(camera, last);
    ReachedAt(camera, attempts, last, key);
    var rest := At(Reached(camera1, attempts), key);
    if Sends(camera, last) && last.field.key == key {
      SettlesOne(rest, last, camera.selectors[key], camera1.selectors[key], bytes);
    } else {
      assert rest + [] == rest;
    }
  }

  /** Undoing over live baselines, newest first: in every selector each bit ends
    * as the oldest undone write that decides it found it, and a bit none decides
    * stays as it was found. */
  lemma {:induction false} UndoSettles(camera: Camera, attempts: seq<Attempt>, key: Key)
    requires Clean(camera.undo) && CleanStarts(attempts) && Sound(attempts)
    requires (forall a :: a in attempts ==> a.field.key in camera.selectors) && key in camera.selectors
    ensures var after := RestoreGroup(camera, Undoings(attempts)).0.selectors;
            && after.Keys == camera.selectors.Keys
            && SettledTo(At(Reached(camera, attempts), key), camera.selectors[key], after[key])
    decreases |attempts|
  {
    if attempts != [] {
      var n := |attempts| - 1;
      var rest, last := attempts[..n], attempts[n];
      assert attempts == rest + [last];
      assert last in attempts;
      var camera1 := RestoreLive(camera, Undoing(last)).0;
      UndoOneSettles(camera, last);
      UndoSettles(camera1, rest, key);
      RestoreLast(camera, rest, last);
      SettlesLast(camera, rest, last, key, RestoreGroup(camera1, Undoings(rest)).0.selectors[key]);
    }
  }

  // ---------------------------------------------------------------- the group

  lemma {:induction false} TransferFrame(camera: Camera, field: Field, payload: seq<Byte>)
    requires Validated(field.control) && field.key in camera.selectors
    ensures var camera1 := ApplyOne(camera, field, payload).0;
            camera1.undo == camera.undo && camera1.selectors.Keys == camera.selectors.Keys
  {
  }

  lemma {:induction false} ForwardFrame(camera: Camera, group: seq<Prepared>)
    requires Checked(group)
    ensures var sent := Forward(camera, group);
            && sent.camera.undo == camera.undo && sent.camera.selectors.Keys == camera.selectors.Keys
            && forall a :: a in sent.attempts ==> a.field.key in camera.selectors
    decreases |group|
  {
    if group != [] {
      var p := group[0];
      if NoOp(p) {
        ForwardFrame(camera, group[1..]);
      } else {
        var live := PrepareLive(camera, p);
        if live.Some? {
          TransferFrame(AfterReading(camera), p.field, live.value.payload);
          ForwardFrame(ApplyOne(AfterReading(camera), p.field, live.value.payload).0, group[1..]);
        }
      }
    }
  }

  /** The bytes found in a selector are such that its undos end at the original:
    * every bit was found unchanged by the oldest undone write that decides it,
    * and a bit none of them decides did not change. */
  predicate Recovered(attempts: seq<Attempt>, found: seq<Byte>, original: seq<Byte>) {
    && |found| == |original| && Fitting(attempts, |found|)
    && forall i, k :: 0 <= i < |found| && 0 <= k < 8 ==> Settled(attempts, found, i, k) == Bit(original[i], k)
  }

  lemma {:induction false} SettledIsOriginal(attempts: seq<Attempt>, found: seq<Byte>, bytes: seq<Byte>,
          original: seq<Byte>)
    requires SettledTo(attempts, found, bytes)
    ensures bytes == original <==> Recovered(attempts, found, original)
  {
    if Recovered(attempts, found, original) {
      forall i | 0 <= i < |bytes| ensures bytes[i] == original[i] {
        forall k | 0 <= k < 8 ensures Bit(bytes[i], k) == Bit(original[i], k) {
          assert Bit(bytes[i], k) == Settled(attempts, found, i, k);
        }
        assert SameByteBits(bytes[i], original[i]);
        ByteBits(bytes[i], original[i]);
      }
    }
  }

  predicate AllRecovered(found: Camera, attempts: seq<Attempt>, original: Selectors)
    requires Sound(attempts) && found.selectors.Keys == original.Keys
  {
    forall key :: key in original ==> Recovered(At(Reached(found, attempts), key), found.selectors[key], original[key])
  }

  lemma {:induction false} UndoRecovers(camera: Camera, attempts: seq<Attempt>, original: Selectors)
    requires Clean(camera.undo) && CleanStarts(attempts) && Sound(attempts)
    requires forall a :: a in attempts ==> a.field.key in camera.selectors
    requires camera.selectors.Keys == original.Keys
    ensures RestoreGroup(camera, Undoings(attempts)).0.selectors == original <==>
            AllRecovered(camera, attempts, original)
  {
    var after := RestoreGroup(camera, Undoings(attempts)).0.selectors;
    if attempts != [] {
      assert attempts[0] in attempts;
      UndoSettles(camera, attempts, attempts[0].field.key);
    }
    forall key | key in original
      ensures key in after && (after[key] == original[key] <==>
              Recovered(At(Reached(camera, attempts), key), camera.selectors[key], original[key]))
    {
      UndoSettles(camera, attempts, key);
      SettledIsOriginal(At(Reached(camera, attempts), key), camera.selectors[key], after[key], original[key]);
    }
  }

  /** A group is undone exactly when a write does not read back; and then, over
    * clean undo transfers and faithful live starts, whatever bytes the transfers
    * left and whichever baselines can be read, the original bytes are back if and
    * only if every bit was found unchanged by the oldest undone write that
    * decides it, bits that none decides included.  Otherwise what landed stays. */
  lemma {:induction false} GroupAllOrNothing(camera: Camera, group: seq<Prepared>, video: bool)
    requires Checked(group) && Clean(camera.undo) && CleanStarts(Forward(camera, group).attempts)
    ensures var sent := Forward(camera, group);
            var (after, outcome) := ApplyGroup(camera, group, [], video);
            && sent.camera.selectors.Keys == camera.selectors.Keys
            && (outcome.Completed? <==> sent.end.AllSent? && video)
            && (outcome.Undone? <==> sent.end.Misread?)
            && (outcome.Undone? ==> (after.selectors == camera.selectors <==>
                                     AllRecovered(sent.camera, sent.attempts, camera.selectors)))
            && (!outcome.Undone? ==> after.selectors == sent.camera.selectors)
  {
    var sent := Forward(camera, group);
    GroupIsForwardThenUndo(camera, group, [], video);
    ForwardFrame(camera, group);
    assert [] + Undoings(sent.attempts) == Undoings(sent.attempts);
    if sent.end.Misread? { UndoRecovers(sent.camera, sent.attempts, camera.selectors); }
  }

  // ------------------------------------------- writes that stay within their bits

  /** The selectors once every attempt left its bytes. */
  function Landed(selectors: Selectors, attempts: seq<Attempt>): Selectors
    decreases |attempts|
  {
    if attempts == [] then selectors
    else Landed(selectors,
        attempts[..|attempts| - 1])[attempts[|attempts| - 1].field.key := attempts[|attempts| - 1].after]
  }

  predicate StartsAt(selectors: Selectors, before: seq<Attempt>, a: Attempt) {
    var now := Landed(selectors, before);
    a.field.key in now && now[a.field.key] == a.before
  }

  predicate Traced(selectors: Selectors, attempts: seq<Attempt>) {
    forall i :: 0 <= i < |attempts| ==> StartsAt(selectors, attempts[..i], attempts[i])
  }

  /** The transfer touched no bit but those its control decides. */
  predicate Within(a: Attempt) {
    && Validated(a.field.control) && Faithful(a.field.control, a.before)
    && |a.after| == |a.before| && SameOutside(a.field.control, a.after, a.before)
  }

  lemma {:induction false} TracedPrefix(selectors: Selectors, attempts: seq<Attempt>, n: nat)
    requires Traced(selectors, attempts) && n <= |attempts|
    ensures Traced(selectors, attempts[..n])
  {
    forall i | 0 <= i < n ensures StartsAt(selectors, attempts[..n][..i], attempts[..n][i]) {
      assert attempts[..n][..i] == attempts[..i];
    }
  }

  lemma {:induction false} UndoWithinOne(camera: Camera, last: Attempt, before: Selectors)
    requires Clean(camera.undo) && AllReadable(camera.baselines) && Within(last) && Sound([last])
    requires last.field.key in before && before[last.field.key] == last.before
    requires camera.selectors == before[last.field.key := last.after]
    ensures var camera1 := RestoreLive(camera, Undoing(last)).0;
            camera1.selectors == before && Clean(camera1.undo) && AllReadable(camera1.baselines)
  {
    assert last in [last];
    ReadableTail(camera);
    if camera.undo != [] { assert camera.undo[0] in camera.undo; }
    LiveUndoExact(camera, last.field, last.before);
    UndoOneSettles(camera, last);
    var camera1 := RestoreLive(camera, Undoing(last)).0;
    assert camera1.selectors == before;
  }

  lemma {:induction false} LandedLast(selectors: Selectors, rest: seq<Attempt>, last: Attempt)
    requires Traced(selectors, rest + [last])
    ensures Traced(selectors, rest) && StartsAt(selectors, rest, last)
    ensures Landed(selectors, rest + [last]) == Landed(selectors, rest)[last.field.key := last.after]
  {
    var attempts := rest + [last];
    assert attempts[..|rest|] == rest && attempts[|rest|] == last;
    TracedPrefix(selectors, attempts, |rest|);
  }

  predicate AllWithin(attempts: seq<Attempt>) { forall a :: a in attempts ==> Within(a) }

  lemma {:induction false} WithinSplits(rest: seq<Attempt>, last: Attempt)
    requires AllWithin(rest + [last])
    ensures AllWithin(rest) && Within(last) && Sound(rest) && Sound([last])
  {
    assert last in rest + [last];
    assert forall a :: a in rest ==> a in rest + [last];
  }

  /** A run whose attempts all stayed within their bits, at the point where all
    * of them are to be undone. */
  predicate InReach(selectors: Selectors, camera: Camera, attempts: seq<Attempt>) {
    && Clean(camera.undo) && AllReadable(camera.baselines) && Sound(attempts) && AllWithin(attempts)
    && Traced(selectors, attempts) && camera.selectors == Landed(selectors, attempts)
  }

  lemma {:induction false} WithinStep(selectors: Selectors, camera: Camera, rest: seq<Attempt>, last: Attempt)
    requires InReach(selectors, camera, rest + [last]) && Sound([last])
    ensures InReach(selectors, RestoreLive(camera, Undoing(last)).0, rest)
  {
    LandedLast(selectors, rest, last);
    WithinSplits(rest, last);
    UndoWithinOne(camera, last, Landed(selectors, rest));
  }

  lemma {:induction false} LastApart(attempts: seq<Attempt>, rest: seq<Attempt>, last: Attempt)
    requires attempts != [] && rest == attempts[..|attempts| - 1] && last == attempts[|attempts| - 1] && Sound(attempts)
    ensures attempts == rest + [last] && |rest| < |attempts| && Sound(rest) && Sound([last])
  {
    assert last in attempts;
  }

  lemma {:induction false} UndoWithin(selectors: Selectors, camera: Camera, attempts: seq<Attempt>)
    requires InReach(selectors, camera, attempts)
    ensures RestoreGroup(camera, Undoings(attempts)).0.selectors == selectors
    decreases |attempts|
  {
    if attempts == [] {
      assert RestoreGroup(camera, []).0 == camera;
    } else {
      var rest, last := attempts[..|attempts| - 1], attempts[|attempts| - 1];
      LastApart(attempts, rest, last);
      WithinStep(selectors, camera, rest, last);
      UndoWithin(selectors, RestoreLive(camera, Undoing(last)).0, rest);
      RestoreLast(camera, rest, last);
    }
  }

  lemma {:induction false} LandedCons(selectors: Selectors, one: Attempt, rest: seq<Attempt>)
    ensures Landed(selectors, [one] + rest) == Landed(selectors[one.field.key := one.after], rest)
    decreases |rest|
  {
    if rest == [] {
      assert [one] + rest == [one] && [one][..0] == [];
    } else {
      assert ([one] + rest)[..|rest|] == [one] + rest[..|rest| - 1];
      LandedCons(selectors, one, rest[..|rest| - 1]);
    }
  }

  lemma {:induction false} TracedCons(selectors: Selectors, one: Attempt, rest: seq<Attempt>)
    requires StartsAt(selectors, [], one) && Traced(selectors[one.field.key := one.after], rest)
    ensures Traced(selectors, [one] + rest)
  {
    var all := [one] + rest;
    forall i | 0 <= i < |all| ensures StartsAt(selectors, all[..i], all[i]) {
      if i == 0 {
        assert all[..0] == [];
      } else {
        assert all[..i] == [one] + rest[..i - 1];
        LandedCons(selectors, one, rest[..i - 1]);
        assert StartsAt(selectors[one.field.key := one.after], rest[..i - 1], rest[i - 1]);
      }
    }
  }

  /** Every attempt starts from the bytes its predecessors left. */
  lemma {:induction false} ForwardIsTraced(camera: Camera, group: seq<Prepared>)
    requires Checked(group)
    ensures var sent := Forward(camera, group);
            Traced(camera.selectors, sent.attempts) && sent.camera.selectors == Landed(camera.selectors, sent.attempts)
    decreases |group|
  {
    if group != [] {
      var p := group[0];
      if NoOp(p) {
        ForwardIsTraced(camera, group[1..]);
      } else {
        var live := PrepareLive(camera, p);
        if live.Some? {
          var (camera1, observed) := ApplyOne(AfterReading(camera), p.field, live.value.payload);
          var one := Attempt(p.field, camera.selectors[p.field.key], camera1.selectors[p.field.key]);
          assert camera1.selectors == camera.selectors[p.field.key := one.after];
          if observed.Some? && Matches(p.field, live.value.requested, observed.value) {
            ForwardIsTraced(camera1, group[1..]);
            var rest := Forward(camera1, group[1..]).attempts;
            LandedCons(camera.selectors, one, rest);
            TracedCons(camera.selectors, one, rest);
          } else {
            LandedCons(camera.selectors, one, []);
            TracedCons(camera.selectors, one, []);
            assert [one] + [] == [one];
          }
        }
      }
    }
  }

  /** Each transfer on its own: when none touched a bit outside those its control
    * decides, the undo restores every selector, for controls of every kind. */
  lemma {:induction false} WithinIsUndone(camera: Camera, group: seq<Prepared>, video: bool)
    requires Checked(group) && Clean(camera.undo) && AllReadable(Forward(camera, group).camera.baselines)
    requires AllWithin(Forward(camera, group).attempts)
    ensures var (after, outcome) := ApplyGroup(camera, group, [], video);
            outcome.Undone? ==> after.selectors == camera.selectors
  {
    var sent := Forward(camera, group);
    GroupIsForwardThenUndo(camera, group, [], video);
    ForwardFrame(camera, group);
    ForwardIsTraced(camera, group);
    assert [] + Undoings(sent.attempts) == Undoings(sent.attempts);
    UndoWithin(camera.selectors, sent.camera, sent.attempts);
  }

  /** A payload, like the bytes it started from, stays within those bits. */
  lemma {:induction false} PayloadIsWithin(c: Control, input: Value, b: seq<Byte>)
    requires Validated(c) && Faithful(c, b) && Encode(c, input, b).Some?
    ensures SameOutside(c, Encode(c, input, b).value, b) && SameOutside(c, b, b)
  {
    var p := Encode(c, input, b).value;
    LastWriteWins(c, input, Decode(c, b).value, b);
    PutBackExact(c, b);
    PutBackOverExact(c, b, p);
  }
}
