/** The watch commands: events that say how one scan differs from the last. */
module Watch {
  import opened Wrappers

  type Key = nat

  datatype Snapshot = Snapshot(mode: nat, mounted: bool, profile: nat, rest: nat)

  /** A map in key order. */
  datatype Scan = Scan(keys: seq<Key>, at: map<Key, Snapshot>) {
    ghost predicate Valid() {
      && (forall i, j :: 0 <= i < j < |keys| ==> keys[i] < keys[j])
      && (forall key :: key in keys <==> key in at)
    }
  }

  /** The entry of a key that is there. */
  function Entry(m: map<Key, Snapshot>, key: Key): Snapshot {
    if key in m then m[key] else Snapshot(0, false, 0, 0)
  }

  datatype Kind = Initial | Removed | Added | ModeChanged | VolumeMounted | VolumeUnmounted | Changed | ProfileChange
    | Reenumerated

  datatype Event = Event(sequence: nat, kind: Kind, key: Key, snapshot: Snapshot)

  /** The firmware watch and the device watch name a change differently. */
  datatype Watching = Firmware | Devices

  function ChangeKind(w: Watching, before: Snapshot, after: Snapshot): Kind {
    match w
    case Firmware =>
      if before.mode != after.mode then ModeChanged
      else if !before.mounted && after.mounted then VolumeMounted
      else if before.mounted && !after.mounted then VolumeUnmounted
      else Changed
    case Devices => if before.profile != after.profile then ProfileChange else Reenumerated
  }

  function Removals(previous: map<Key, Snapshot>, current: map<Key, Snapshot>, keys: seq<Key>,
          sequence: nat): seq<Event>
  {
    if keys == [] then []
    else if keys[0] in current then Removals(previous, current, keys[1..], sequence)
    else [Event(sequence + 1, Removed, keys[0], Entry(previous, keys[0]))] + Removals(previous, current, keys[1..],
        sequence + 1)
  }

  function ChangeAt(w: Watching, previous: map<Key, Snapshot>, current: map<Key, Snapshot>, key: Key): Option<Kind>
  {
    if key !in previous then Some(Added)
    else if previous[key] != Entry(current, key) then Some(ChangeKind(w, previous[key], Entry(current, key)))
    else None
  }

  function Changes(w: Watching, previous: map<Key, Snapshot>, current: map<Key, Snapshot>, keys: seq<Key>,
          sequence: nat): seq<Event>
  {
    if keys == [] then []
    else
      var kind := ChangeAt(w, previous, current, keys[0]);
      if kind.None? then Changes(w, previous, current, keys[1..], sequence)
      else [Event(sequence + 1, kind.value, keys[0], Entry(current, keys[0]))] + Changes(w, previous, current,
          keys[1..], sequence + 1)
  }

  function Diff(w: Watching, previous: Scan, current: Scan, sequence: nat): seq<Event>
  {
    var removals := Removals(previous.at, current.at, previous.keys, sequence);
    removals + Changes(w, previous.at, current.at, current.keys, sequence + |removals|)
  }

  function Initials(scan: Scan, keys: seq<Key>, sequence: nat): seq<Event> {
    if keys == [] then []
    else [Event(sequence + 1, Initial, keys[0], Entry(scan.at, keys[0]))] + Initials(scan, keys[1..], sequence + 1)
  }

  ghost predicate AllValid(scans: seq<Scan>) { forall s :: s in scans ==> s.Valid() }

  /** All events of a run of scans after the first. */
  function History(w: Watching, previous: Scan, scans: seq<Scan>, sequence: nat): seq<Event>
    decreases |scans|
  {
    if scans == [] then []
    else
      var events := Diff(w, previous, scans[0], sequence);
      events + History(w, scans[0], scans[1..], sequence + |events|)
  }

  // -------------------------------------------------------------------- replay

  function Replay(state: map<Key, Snapshot>, events: seq<Event>): map<Key, Snapshot>
    decreases |events|
  {
    if events == [] then state
    else
      var e := events[0];
      Replay(if e.kind.Removed? then state - {e.key} else state[e.key := e.snapshot], events[1..])
  }

  predicate Numbered(events: seq<Event>, sequence: nat) {
    forall i :: 0 <= i < |events| ==> events[i].sequence == sequence + 1 + i
  }

  predicate OncePerKey(events: seq<Event>) {
    forall i, j :: 0 <= i < j < |events| ==> events[i].key != events[j].key
  }

  lemma {:induction false} ReplayConcat(state: map<Key, Snapshot>, a: seq<Event>, b: seq<Event>)
    ensures Replay(state, a + b) == Replay(Replay(state, a), b)
    decreases |a|
  {
    if a == [] {
      assert a + b == b;
    } else {
      assert (a + b)[1..] == a[1..] + b;
      var e := a[0];
      ReplayConcat(if e.kind.Removed? then state - {e.key} else state[e.key := e.snapshot], a[1..], b);
    }
  }

  predicate Rising(keys: seq<Key>) { forall i, j :: 0 <= i < j < |keys| ==> keys[i] < keys[j] }

  /** Removal events: at most one a key, numbered from the next number on. */
  lemma {:induction false} RemovalsShape(previous: map<Key, Snapshot>, current: map<Key, Snapshot>, keys: seq<Key>,
          sequence: nat)
    requires Rising(keys) && forall key :: key in keys ==> key in previous
    ensures var events := Removals(previous, current, keys, sequence);
            && Numbered(events, sequence) && OncePerKey(events)
            && forall e :: e in events ==> e.key in keys && e.key !in current && e.kind.Removed?
    decreases |keys|
  {
    if keys != [] {
      assert keys[0] !in keys[1..];
      RemovalsShape(previous, current, keys[1..], if keys[0] in current then sequence else sequence + 1);
    }
  }

  /** Replaying removal events drops exactly the keys that are gone. */
  lemma {:induction false} RemovalsReplay(state: map<Key, Snapshot>, previous: map<Key, Snapshot>,
          current: map<Key, Snapshot>, keys: seq<Key>, sequence: nat)
    requires Rising(keys) && forall key :: key in keys ==> key in previous
    ensures var after := Replay(state, Removals(previous, current, keys, sequence));
            && (forall key :: key in after <==> key in state && (key in keys ==> key in current))
            && (forall key :: key in after ==> after[key] == state[key])
    decreases |keys|
  {
    if keys != [] {
      assert forall key :: key in keys <==> key == keys[0] || key in keys[1..];
      if keys[0] in current {
        RemovalsReplay(state, previous, current, keys[1..], sequence);
      } else {
        RemovalsReplay(state - {keys[0]}, previous, current, keys[1..], sequence + 1);
        var e := Event(sequence + 1, Removed, keys[0], Entry(previous, keys[0]));
        assert ([e] + Removals(previous, current, keys[1..], sequence + 1))[1..] ==
            Removals(previous, current, keys[1..], sequence + 1);
      }
    }
  }

  /** Replaying change events brings those keys up to date. */
  lemma {:induction false} ChangesReplay(w: Watching, state: map<Key, Snapshot>, previous: map<Key, Snapshot>,
          current: map<Key, Snapshot>, keys: seq<Key>, sequence: nat)
    requires Rising(keys) && (forall key :: key in keys ==> key in current)
    requires forall key :: key in keys && key in previous ==> key in state && state[key] == previous[key]
    ensures var events := Changes(w, previous, current, keys, sequence);
            && Replay(state, events).Keys == state.Keys + (set key | key in keys)
            && (forall key :: key in Replay(state, events) ==>
                Replay(state, events)[key] == if key in keys then current[key] else state[key])
    decreases |keys|
  {
    if keys != [] {
      assert forall key :: key in keys <==> key == keys[0] || key in keys[1..];
      assert keys[0] !in keys[1..];
      var kind := ChangeAt(w, previous, current, keys[0]);
      var next := if kind.None? then state else state[keys[0] := current[keys[0]]];
      ChangesReplay(w, next, previous, current, keys[1..], if kind.None? then sequence else sequence + 1);
    }
  }

  lemma {:induction false} ChangesShape(w: Watching, previous: map<Key, Snapshot>, current: map<Key, Snapshot>,
          keys: seq<Key>, sequence: nat)
    requires Rising(keys) && (forall key :: key in keys ==> key in current)
    ensures var events := Changes(w, previous, current, keys, sequence);
            && Numbered(events, sequence) && OncePerKey(events)
            && forall e :: e in events ==> e.key in keys && !e.kind.Removed?
    decreases |keys|
  {
    if keys != [] {
      assert keys[0] !in keys[1..];
      ChangesShape(w, previous, current, keys[1..], if ChangeAt(w, previous, current, keys[0]).None? then sequence
          else sequence + 1);
    }
  }

  predicate Gone(events: seq<Event>, current: map<Key, Snapshot>) { forall e :: e in events ==> e.key !in current }

  predicate Present(events: seq<Event>, current: map<Key, Snapshot>) { forall e :: e in events ==> e.key in current }

  lemma {:induction false} RemovalsOfScans(previous: Scan, current: Scan, sequence: nat)
    requires previous.Valid() && current.Valid()
    ensures var removals := Removals(previous.at, current.at, previous.keys, sequence);
            Numbered(removals, sequence) && OncePerKey(removals) && Gone(removals, current.at)
  {
    RemovalsShape(previous.at, current.at, previous.keys, sequence);
  }

  lemma {:induction false} ChangesOfScans(w: Watching, previous: Scan, current: Scan, sequence: nat)
    requires current.Valid()
    ensures var changes := Changes(w, previous.at, current.at, current.keys, sequence);
            Numbered(changes, sequence) && OncePerKey(changes) && Present(changes, current.at)
  {
    ChangesShape(w, previous.at, current.at, current.keys, sequence);
  }

  lemma {:induction false} DiffShape(w: Watching, previous: Scan, current: Scan, sequence: nat)
    requires previous.Valid() && current.Valid()
    ensures Numbered(Diff(w, previous, current, sequence), sequence) && OncePerKey(Diff(w, previous, current, sequence))
  {
    var removals := Removals(previous.at, current.at, previous.keys, sequence);
    var changes := Changes(w, previous.at, current.at, current.keys, sequence + |removals|);
    RemovalsOfScans(previous, current, sequence);
    ChangesOfScans(w, previous, current, sequence + |removals|);
    assert Diff(w, previous, current, sequence) == removals + changes;
    Joins(removals, changes, current.at, sequence);
  }

  /** What is left of a scan once the keys that are gone were dropped. */
  ghost predicate Dropped(previous: Scan, current: Scan, kept: map<Key, Snapshot>) {
    && (forall key :: key in kept <==> key in previous.at && (key in previous.keys ==> key in current.at))
    && forall key :: key in kept ==> kept[key] == previous.at[key]
  }

  lemma {:induction false} ChangesCatchUp(w: Watching, previous: Scan, current: Scan, kept: map<Key, Snapshot>,
          sequence: nat)
    requires previous.Valid() && current.Valid() && Dropped(previous, current, kept)
    ensures Replay(kept, Changes(w, previous.at, current.at, current.keys, sequence)) == current.at
  {
    ChangesReplay(w, kept, previous.at, current.at, current.keys, sequence);
    CaughtUp(previous, current, kept, Replay(kept, Changes(w, previous.at, current.at, current.keys, sequence)));
  }

  lemma {:induction false} RemovalsDrop(previous: Scan, current: Scan, sequence: nat)
    requires previous.Valid()
    ensures Dropped(previous, current, Replay(previous.at, Removals(previous.at, current.at, previous.keys, sequence)))
  {
    RemovalsReplay(previous.at, previous.at, current.at, previous.keys, sequence);
  }

  lemma {:induction false} DiffCatchesUp(w: Watching, previous: Scan, current: Scan, sequence: nat)
    requires previous.Valid() && current.Valid()
    ensures Replay(previous.at, Diff(w, previous, current, sequence)) == current.at
  {
    var removals := Removals(previous.at, current.at, previous.keys, sequence);
    RemovalsDrop(previous, current, sequence);
    ChangesCatchUp(w, previous, current, Replay(previous.at, removals), sequence + |removals|);
    ReplayConcat(previous.at, removals, Changes(w, previous.at, current.at, current.keys, sequence + |removals|));
  }

  /** One scan: replaying its events over the last map gives the new one, no key has
    * two events, and the numbers rise by one. */
  lemma {:induction false} DiffReplays(w: Watching, previous: Scan, current: Scan, sequence: nat)
    requires previous.Valid() && current.Valid()
    ensures Replay(previous.at, Diff(w, previous, current, sequence)) == current.at
    ensures Numbered(Diff(w, previous, current, sequence), sequence) && OncePerKey(Diff(w, previous, current, sequence))
  {
    DiffShape(w, previous, current, sequence);
    DiffCatchesUp(w, previous, current, sequence);
  }

  lemma {:induction false} CaughtUp(previous: Scan, current: Scan, kept: map<Key, Snapshot>, after: map<Key, Snapshot>)
    requires previous.Valid() && current.Valid()
    requires forall key :: key in kept <==> key in previous.at && (key in previous.keys ==> key in current.at)
    requires after.Keys == kept.Keys + (set key | key in current.keys)
    requires forall key :: key in after ==> after[key] == if key in current.keys then current.at[key] else kept[key]
    ensures after == current.at
  {
    forall key ensures key in after <==> key in current.at {}
  }

  lemma {:induction false} Joins(removals: seq<Event>, changes: seq<Event>, current: map<Key, Snapshot>, sequence: nat)
    requires Numbered(removals, sequence) && Numbered(changes, sequence + |removals|) && OncePerKey(removals)
             && OncePerKey(changes)
    requires Gone(removals, current) && Present(changes, current)
    ensures Numbered(removals + changes, sequence) && OncePerKey(removals + changes)
  {
    forall i, j | 0 <= i < |removals| && 0 <= j < |changes| ensures removals[i].key != changes[j].key {
      assert removals[i] in removals && changes[j] in changes;
    }
  }

  /** Every key whose entry is the same in both scans has no event. */
  lemma {:induction false} DiffIsMinimal(w: Watching, previous: Scan, current: Scan, sequence: nat, key: Key)
    requires previous.Valid() && current.Valid() && key in previous.at && key in current.at
             && previous.at[key] == current.at[key]
    ensures forall e :: e in Diff(w, previous, current, sequence) ==> e.key != key
  {
    var removals := Removals(previous.at, current.at, previous.keys, sequence);
    RemovalsShape(previous.at, current.at, previous.keys, sequence);
    UnchangedSilent(w, previous.at, current.at, current.keys, sequence + |removals|, key);
  }

  lemma {:induction false} UnchangedSilent(w: Watching, previous: map<Key, Snapshot>, current: map<Key, Snapshot>,
          keys: seq<Key>, sequence: nat, key: Key)
    requires (forall k :: k in keys ==> k in current) && key in previous && key in current
             && previous[key] == current[key]
    ensures forall e :: e in Changes(w, previous, current, keys, sequence) ==> e.key != key
    decreases |keys|
  {
    if keys != [] {
      UnchangedSilent(w, previous, current, keys[1..], sequence, key);
      UnchangedSilent(w, previous, current, keys[1..], sequence + 1, key);
    }
  }

  /** The entry of a key that was and is there changed, and the event shows it. */
  predicate Differs(previous: map<Key, Snapshot>, current: map<Key, Snapshot>, e: Event) {
    e.key in previous && e.key in current && previous[e.key] != current[e.key] && e.snapshot == current[e.key]
  }

  /** What an event says is what happened to its key. */
  predicate Tells(w: Watching, previous: map<Key, Snapshot>, current: map<Key, Snapshot>, e: Event) {
    match e.kind
    case Initial => false
    case Removed => e.key in previous && e.key !in current && e.snapshot == previous[e.key]
    case Added => e.key !in previous && e.key in current && e.snapshot == current[e.key]
    case ModeChanged =>
      w.Firmware? && Differs(previous, current, e) && previous[e.key].mode != e.snapshot.mode
    case VolumeMounted =>
      && w.Firmware? && Differs(previous, current, e) && previous[e.key].mode == e.snapshot.mode
      && !previous[e.key].mounted && e.snapshot.mounted
    case VolumeUnmounted =>
      && w.Firmware? && Differs(previous, current, e) && previous[e.key].mode == e.snapshot.mode
      && previous[e.key].mounted && !e.snapshot.mounted
    case Changed =>
      && w.Firmware? && Differs(previous, current, e) && previous[e.key].mode == e.snapshot.mode
      && previous[e.key].mounted == e.snapshot.mounted
    case ProfileChange => w.Devices? && Differs(previous, current, e) && previous[e.key].profile != e.snapshot.profile
    case Reenumerated => w.Devices? && Differs(previous, current, e) && previous[e.key].profile == e.snapshot.profile
  }

  predicate Heard(events: seq<Event>, key: Key) { exists e :: e in events && e.key == key }

  /** The key came, went, or has another entry. */
  predicate Moved(previous: map<Key, Snapshot>, current: map<Key, Snapshot>, key: Key) {
    if key in previous then key !in current || previous[key] != current[key] else key in current
  }

  lemma {:induction false} RemovalsTell(w: Watching, previous: map<Key, Snapshot>, current: map<Key, Snapshot>,
          keys: seq<Key>, sequence: nat)
    requires forall key :: key in keys ==> key in previous
    ensures var events := Removals(previous, current, keys, sequence);
            && AllTell(w, previous, current, events)
            && forall key :: key in keys && key !in current ==> Heard(events, key)
    decreases |keys|
  {
    if keys != [] {
      var events := Removals(previous, current, keys, sequence);
      RemovalsTell(w, previous, current, keys[1..], if keys[0] in current then sequence else sequence + 1);
      if keys[0] !in current { assert events[0].key == keys[0] && events[0] in events; }
      forall key | key in keys && key !in current ensures Heard(events, key) {
        if key != keys[0] { assert key in keys[1..]; }
      }
    }
  }

  lemma {:induction false} ChangeTells(w: Watching, previous: map<Key, Snapshot>, current: map<Key, Snapshot>,
          key: Key, sequence: nat)
    requires key in current
    ensures var kind := ChangeAt(w, previous, current, key);
            && (kind.None? <==> key in previous && previous[key] == current[key])
            && (kind.Some? ==> Tells(w, previous, current, Event(sequence, kind.value, key, current[key])))
  {
  }

  lemma {:induction false} ChangesTell(w: Watching, previous: map<Key, Snapshot>, current: map<Key, Snapshot>,
          keys: seq<Key>, sequence: nat)
    requires forall key :: key in keys ==> key in current
    ensures var events := Changes(w, previous, current, keys, sequence);
            && AllTell(w, previous, current, events)
            && forall key :: key in keys && Moved(previous, current, key) ==> Heard(events, key)
    decreases |keys|
  {
    if keys != [] {
      var kind := ChangeAt(w, previous, current, keys[0]);
      var events := Changes(w, previous, current, keys, sequence);
      ChangeTells(w, previous, current, keys[0], sequence + 1);
      ChangesTell(w, previous, current, keys[1..], if kind.None? then sequence else sequence + 1);
      if kind.Some? { assert events[0].key == keys[0] && events[0] in events; }
      forall key | key in keys && Moved(previous, current, key) ensures Heard(events, key) {
        if key != keys[0] { assert key in keys[1..]; }
      }
    }
  }

  predicate AllTell(w: Watching, previous: map<Key, Snapshot>, current: map<Key, Snapshot>, events: seq<Event>) {
    forall e :: e in events ==> Tells(w, previous, current, e)
  }

  lemma {:induction false} HeardMoved(w: Watching, previous: map<Key, Snapshot>, current: map<Key, Snapshot>,
          events: seq<Event>, key: Key)
    requires AllTell(w, previous, current, events) && Heard(events, key)
    ensures Moved(previous, current, key)
  {
    var e :| e in events && e.key == key;
    assert Tells(w, previous, current, e);
  }

  lemma {:induction false} HeardJoined(a: seq<Event>, b: seq<Event>, key: Key)
    requires Heard(a, key) || Heard(b, key)
    ensures Heard(a + b, key)
  {
    var e :| (e in a || e in b) && e.key == key;
    assert e in a + b;
  }

  lemma {:induction false} JoinedTell(w: Watching, previous: map<Key, Snapshot>, current: map<Key, Snapshot>,
          a: seq<Event>, b: seq<Event>)
    requires AllTell(w, previous, current, a) && AllTell(w, previous, current, b)
    ensures AllTell(w, previous, current, a + b)
  {
  }

  lemma {:induction false} PartsTell(w: Watching, previous: Scan, current: Scan, sequence: nat)
    requires previous.Valid() && current.Valid()
    ensures var removals := Removals(previous.at, current.at, previous.keys, sequence);
            var changes := Changes(w, previous.at, current.at, current.keys, sequence + |removals|);
            && AllTell(w, previous.at, current.at, removals) && AllTell(w, previous.at, current.at, changes)
            && forall key :: Moved(previous.at, current.at, key) ==> Heard(removals, key) || Heard(changes, key)
  {
    var removals := Removals(previous.at, current.at, previous.keys, sequence);
    RemovalsTell(w, previous.at, current.at, previous.keys, sequence);
    ChangesTell(w, previous.at, current.at, current.keys, sequence + |removals|);
  }

  /** Events tell the truth, and a key has one exactly when it came, went or its
    * entry changed. */
  lemma {:induction false} DiffTells(w: Watching, previous: Scan, current: Scan, sequence: nat)
    requires previous.Valid() && current.Valid()
    ensures var events := Diff(w, previous, current, sequence);
            && AllTell(w, previous.at, current.at, events)
            && forall key :: Heard(events, key) <==> Moved(previous.at, current.at, key)
  {
    var removals := Removals(previous.at, current.at, previous.keys, sequence);
    PartsTell(w, previous, current, sequence);
    HeardExactly(w, previous.at, current.at, removals,
                 Changes(w, previous.at, current.at, current.keys, sequence + |removals|));
  }

  lemma {:induction false} HeardExactly(w: Watching, previous: map<Key, Snapshot>, current: map<Key, Snapshot>,
          a: seq<Event>, b: seq<Event>)
    requires AllTell(w, previous, current, a) && AllTell(w, previous, current, b)
    requires forall key :: Moved(previous, current, key) ==> Heard(a, key) || Heard(b, key)
    ensures AllTell(w, previous, current, a + b)
    ensures forall key :: Heard(a + b, key) <==> Moved(previous, current, key)
  {
    JoinedTell(w, previous, current, a, b);
    forall key ensures Heard(a + b, key) <==> Moved(previous, current, key) {
      if Heard(a + b, key) { HeardMoved(w, previous, current, a + b, key); }
      if Moved(previous, current, key) { HeardJoined(a, b, key); }
    }
  }

  lemma {:induction false} NumberedConcat(a: seq<Event>, b: seq<Event>, sequence: nat)
    requires Numbered(a, sequence) && Numbered(b, sequence + |a|)
    ensures Numbered(a + b, sequence)
  {
  }

  function Latest(initial: Scan, scans: seq<Scan>): Scan { if scans == [] then initial else scans[|scans| - 1] }

  lemma {:induction false} ReplayChain(state: map<Key, Snapshot>, middle: map<Key, Snapshot>, a: seq<Event>,
          b: seq<Event>)
    requires Replay(state, a) == middle
    ensures Replay(state, a + b) == Replay(middle, b)
  {
    ReplayConcat(state, a, b);
  }

  lemma {:induction false} FirstScan(w: Watching, previous: Scan, scans: seq<Scan>, sequence: nat)
    returns (events: seq<Event>, rest: seq<Event>)
    requires previous.Valid() && AllValid(scans) && scans != []
    ensures scans[0].Valid() && AllValid(scans[1..])
    ensures Replay(previous.at, events) == scans[0].at && Numbered(events, sequence)
    ensures rest == History(w, scans[0], scans[1..], sequence + |events|)
    ensures History(w, previous, scans, sequence) == events + rest
  {
    assert scans[0] in scans;
    events := Diff(w, previous, scans[0], sequence);
    DiffReplays(w, previous, scans[0], sequence);
    rest := History(w, scans[0], scans[1..], sequence + |events|);
  }

  /** Watch events replay to the state, over every sequence of scans. */
  lemma {:induction false} HistoryReplays(w: Watching, previous: Scan, scans: seq<Scan>, sequence: nat)
    requires previous.Valid() && AllValid(scans)
    ensures Replay(previous.at, History(w, previous, scans, sequence)) == Latest(previous, scans).at
    ensures Numbered(History(w, previous, scans, sequence), sequence)
    decreases |scans|
  {
    if scans != [] {
      var events, rest := FirstScan(w, previous, scans, sequence);
      HistoryReplays(w, scans[0], scans[1..], sequence + |events|);
      ReplayChain(previous.at, scans[0].at, events, rest);
      NumberedConcat(events, rest, sequence);
    }
  }

  lemma {:induction false} InitialsReplay(scan: Scan, keys: seq<Key>, state: map<Key, Snapshot>, sequence: nat)
    requires forall key :: key in keys ==> key in scan.at
    ensures var events := Initials(scan, keys, sequence);
            && Numbered(events, sequence) && |events| == |keys|
            && Replay(state, events).Keys == state.Keys + (set key | key in keys)
            && forall key :: key in Replay(state, events) ==>
                Replay(state, events)[key] == if key in keys then scan.at[key] else state[key]
    decreases |keys|
  {
    if keys != [] {
      assert forall key :: key in keys <==> key == keys[0] || key in keys[1..];
      InitialsReplay(scan, keys[1..], state[keys[0] := scan.at[keys[0]]], sequence + 1);
    }
  }

  /** The firmware watch prints everything: its events alone, from nothing, rebuild
    * the latest scan. */
  lemma {:induction false} FirmwareWatchIsComplete(initial: Scan, scans: seq<Scan>)
    requires initial.Valid() && AllValid(scans)
    ensures var first := Initials(initial, initial.keys, 0);
            var events := first + History(Firmware, initial, scans, |first|);
            Replay(map[], events) == Latest(initial, scans).at && Numbered(events, 0)
  {
    var first := Initials(initial, initial.keys, 0);
    InitialsReplay(initial, initial.keys, map[], 0);
    assert Replay(map[], first) == initial.at;
    ReplayConcat(map[], first, History(Firmware, initial, scans, |first|));
    HistoryReplays(Firmware, initial, scans, |first|);
  }

  lemma {:induction false} RemovalsStep(previous: map<Key, Snapshot>, current: map<Key, Snapshot>, keys: seq<Key>,
          i: nat, sequence: nat, done: seq<Event>)
    requires i < |keys|
    ensures done + Removals(previous, current, keys[i..], sequence) ==
            if keys[i] in current then done + Removals(previous, current, keys[i + 1..], sequence)
            else (done + [Event(sequence + 1, Removed, keys[i], Entry(previous, keys[i]))]) + Removals(previous,
                current, keys[i + 1..], sequence + 1)
  {
    assert keys[i..][0] == keys[i] && keys[i..][1..] == keys[i + 1..];
  }

  lemma {:induction false} ChangesStep(w: Watching, previous: map<Key, Snapshot>, current: map<Key, Snapshot>,
          keys: seq<Key>, i: nat, sequence: nat, done: seq<Event>)
    requires i < |keys|
    ensures var kind := ChangeAt(w, previous, current, keys[i]);
            done + Changes(w, previous, current, keys[i..], sequence) ==
            if kind.None? then done + Changes(w, previous, current, keys[i + 1..], sequence)
            else (done + [Event(sequence + 1, kind.value, keys[i], Entry(current, keys[i]))]) + Changes(w, previous,
                current, keys[i + 1..], sequence + 1)
  {
    assert keys[i..][0] == keys[i] && keys[i..][1..] == keys[i + 1..];
  }

  lemma {:induction false} EventsRegroup(a: seq<Event>, b: seq<Event>, c: seq<Event>)
    ensures a + (b + c) == (a + b) + c
  {
  }

  lemma {:induction false} HistoryUnrolls(w: Watching, previous: Scan, scans: seq<Scan>, i: nat, sequence: nat,
          done: seq<Event>)
    requires i < |scans| && AllValid(scans)
    ensures scans[i].Valid()
    ensures var events := Diff(w, previous, scans[i], sequence);
            done + History(w, previous, scans[i..], sequence) ==
                (done + events) + History(w, scans[i], scans[i + 1..], sequence + |events|)
  {
    assert scans[i] in scans && scans[i..][0] == scans[i] && scans[i..][1..] == scans[i + 1..];
    var events := Diff(w, previous, scans[i], sequence);
    EventsRegroup(done, events, History(w, scans[i], scans[i + 1..], sequence + |events|));
  }

  /** A watcher as it runs. */
  class Watcher {
    const watching: Watching
    var previous: Scan
    var sequence: nat
    var emitted: seq<Event>

    constructor (watching: Watching, initial: Scan)
      ensures this.watching == watching && previous == initial && emitted == [] && sequence == 0
    {
      this.watching, previous, sequence, emitted := watching, initial, 0, [];
    }

    method Emit(kind: Kind, key: Key, snapshot: Snapshot)
      modifies this`sequence, this`emitted
      ensures sequence == old(sequence) + 1
      ensures emitted == old(emitted) + [Event(sequence, kind, key, snapshot)]
    {
      sequence := sequence + 1;
      emitted := emitted + [Event(sequence, kind, key, snapshot)];
    }

    /** The firmware watch starts by printing what it finds. */
    method EmitInitial()
      modifies this`sequence, this`emitted
      ensures emitted == old(emitted) + Initials(previous, previous.keys, old(sequence))
      ensures sequence == old(sequence) + |emitted| - |old(emitted)|
    {
      var keys := previous.keys;
      var i := 0;
      ghost var all := emitted + Initials(previous, keys, sequence);
      ghost var ahead := sequence - |emitted|;
      assert keys[0..] == keys;
      while i < |keys|
        invariant 0 <= i <= |keys| && sequence - |emitted| == ahead
        invariant all == emitted + Initials(previous, keys[i..], sequence)
      {
        assert keys[i..][0] == keys[i] && keys[i..][1..] == keys[i + 1..];
        Emit(Initial, keys[i], Entry(previous.at, keys[i]));
        i := i + 1;
      }
      assert keys[i..] == [] && emitted + [] == emitted;
    }

    method EmitRemoval(current: Scan, key: Key)
      modifies this`sequence, this`emitted
      ensures if key in current.at then emitted == old(emitted) && sequence == old(sequence)
              else sequence == old(sequence) + 1 && emitted == old(emitted) + [Event(sequence, Removed, key,
                  Entry(previous.at, key))]
    {
      if key !in current.at { Emit(Removed, key, Entry(previous.at, key)); }
    }

    method EmitRemovals(current: Scan)
      modifies this`sequence, this`emitted
      ensures emitted == old(emitted) + Removals(previous.at, current.at, previous.keys, old(sequence))
      ensures sequence == old(sequence) + |emitted| - |old(emitted)|
    {
      var keys := previous.keys;
      var i := 0;
      ghost var all := emitted + Removals(previous.at, current.at, keys, sequence);
      ghost var ahead := sequence - |emitted|;
      assert keys[0..] == keys;
      while i < |keys|
        invariant 0 <= i <= |keys| && sequence - |emitted| == ahead
        invariant all == emitted + Removals(previous.at, current.at, keys[i..], sequence)
      {
        RemovalsStep(previous.at, current.at, keys, i, sequence, emitted);
        EmitRemoval(current, keys[i]);
        i := i + 1;
      }
      assert keys[i..] == [] && emitted + [] == emitted;
    }

    method EmitChange(current: Scan, key: Key)
      modifies this`sequence, this`emitted
      ensures var kind := ChangeAt(watching, previous.at, current.at, key);
              if kind.None? then emitted == old(emitted) && sequence == old(sequence)
              else sequence == old(sequence) + 1 && emitted == old(emitted) + [Event(sequence, kind.value, key,
                  Entry(current.at, key))]
    {
      var kind := ChangeAt(watching, previous.at, current.at, key);
      if kind.Some? { Emit(kind.value, key, Entry(current.at, key)); }
    }

    method EmitChanges(current: Scan)
      modifies this`sequence, this`emitted
      ensures emitted == old(emitted) + Changes(watching, previous.at, current.at, current.keys, old(sequence))
      ensures sequence == old(sequence) + |emitted| - |old(emitted)|
    {
      var keys := current.keys;
      var i := 0;
      ghost var all := emitted + Changes(watching, previous.at, current.at, keys, sequence);
      ghost var ahead := sequence - |emitted|;
      assert keys[0..] == keys;
      while i < |keys|
        invariant 0 <= i <= |keys| && sequence - |emitted| == ahead
        invariant all == emitted + Changes(watching, previous.at, current.at, keys[i..], sequence)
      {
        ChangesStep(watching, previous.at, current.at, keys, i, sequence, emitted);
        EmitChange(current, keys[i]);
        i := i + 1;
      }
      assert keys[i..] == [] && emitted + [] == emitted;
    }

    method Observe(current: Scan)
      requires previous.Valid() && current.Valid()
      modifies this
      ensures previous == current
      ensures emitted == old(emitted) + Diff(watching, old(previous), current, old(sequence))
      ensures sequence == old(sequence) + |Diff(watching, old(previous), current, old(sequence))|
    {
      EmitRemovals(current);
      EmitChanges(current);
      previous := current;
    }

    method ObserveAll(scans: seq<Scan>)
      requires previous.Valid() && AllValid(scans)
      modifies this
      ensures emitted == old(emitted) + History(watching, old(previous), scans, old(sequence))
      ensures previous == Latest(old(previous), scans)
    {
      var i := 0;
      ghost var all := emitted + History(watching, previous, scans, sequence);
      assert scans[0..] == scans;
      while i < |scans|
        invariant 0 <= i <= |scans| && previous == Latest(old(previous), scans[..i]) && previous.Valid()
        invariant all == emitted + History(watching, previous, scans[i..], sequence)
      {
        HistoryUnrolls(watching, previous, scans, i, sequence, emitted);
        Observe(scans[i]);
        i := i + 1;
      }
      assert scans[i..] == [] && scans[..i] == scans && emitted + [] == emitted;
    }
  }
}
