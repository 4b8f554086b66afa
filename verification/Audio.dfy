/** The capture gain scale and the hardware mixer transaction; floating-point
  * values are reals here. */
module Audio {
  import opened Rounding
  import opened Wrappers

  function Clamp(x: real): real { if x < 0.0 then 0.0 else if x > 1.0 then 1.0 else x }

  function RawToNormalized(raw: int, min: int, max: int): real {
    if max == min then 0.0 else Clamp((raw - min) as real / (max - min) as real)
  }

  function NormalizedToRaw(value: real, min: int, max: int): int {
    min + Round((max - min) as real * value)
  }

  lemma {:induction false} QuotientInUnit(a: int, b: int)
    requires 0 <= a <= b && b > 0
    ensures 0.0 <= a as real / b as real <= 1.0 && b as real * (a as real / b as real) == a as real
  {
    var q := a as real / b as real;
    assert q * b as real == a as real;
    UnitFactor(q, b as real);
  }

  lemma {:induction false} UnitFactor(q: real, b: real)
    requires b > 0.0 && 0.0 <= q * b <= b
    ensures 0.0 <= q <= 1.0
  {
    if q < 0.0 { NegativeProduct(q, b); }
    if q > 1.0 { NegativeProduct(1.0 - q, b); }
  }

  lemma {:induction false} NegativeProduct(x: real, y: real)
    requires x < 0.0 && y > 0.0
    ensures x * y < 0.0
  {
  }

  /** Every raw value in the range survives the way to a percentage and back, so
    * that restoring a recorded gain is exact. */
  lemma {:induction false} RawSurvives(raw: int, min: int, max: int)
    requires min <= raw <= max
    ensures NormalizedToRaw(RawToNormalized(raw, min, max), min, max) == raw
    ensures 0.0 <= RawToNormalized(raw, min, max) <= 1.0
  {
    if min < max { QuotientInUnit(raw - min, max - min); }
  }

  /** A percentage is never out of range, even of a raw value that is. */
  lemma {:induction false} PercentageInUnit(raw: int, min: int, max: int)
    requires min <= max
    ensures 0.0 <= RawToNormalized(raw, min, max) <= 1.0
    ensures min < max && raw <= min ==> RawToNormalized(raw, min, max) == 0.0
    ensures min < max && raw >= max ==> RawToNormalized(raw, min, max) == 1.0
  {
    if min < max {
      var q := (raw - min) as real / (max - min) as real;
      assert q * (max - min) as real == (raw - min) as real;
      if raw <= min && q > 0.0 { NegativeProduct(-q, (max - min) as real); }
      if raw >= max && q < 1.0 { NegativeProduct(q - 1.0, (max - min) as real); }
    }
  }

  lemma {:induction false} RoundError(x: real)
    ensures -0.5 <= Round(x) as real - x <= 0.5
  {
  }

  lemma {:induction false} ScaleError(k: int, n: int, v: real)
    requires n > 0 && -0.5 <= k as real - n as real * v <= 0.5
    ensures -0.5 / n as real <= k as real / n as real - v <= 0.5 / n as real
  {
    var e := k as real - n as real * v;
    assert e / n as real == k as real / n as real - v;
  }

  /** A gain that is set lands within half a raw step of what was asked. */
  lemma {:induction false} GainError(value: real, min: int, max: int)
    requires min < max && 0.0 <= value <= 1.0
    ensures var raw := NormalizedToRaw(value, min, max);
            && min <= raw <= max
            && -0.5 / (max - min) as real <= RawToNormalized(raw, min, max) - value <= 0.5 / (max - min) as real
  {
    var n := max - min;
    var k := Round(n as real * value);
    RoundError(n as real * value);
    InScale(n, value);
    QuotientInUnit(k, n);
    ScaleError(k, n, value);
    ScaleReads(min, max, k);
    assert NormalizedToRaw(value, min, max) == min + k;
    assert RawToNormalized(min + k, min, max) == k as real / n as real;
  }

  lemma {:induction false} ScaleReads(min: int, max: int, k: int)
    requires min < max && 0 <= k <= max - min
    ensures RawToNormalized(min + k, min, max) == k as real / (max - min) as real
  {
    QuotientInUnit(k, max - min);
    assert (min + k) - min == k;
  }

  lemma {:induction false} InScale(n: int, value: real)
    requires n > 0 && 0.0 <= value <= 1.0
    ensures 0 <= Round(n as real * value) <= n
  {
    assert 0.0 <= n as real * value;
    assert n as real * value <= n as real by { assert n as real * (1.0 - value) >= 0.0; }
  }

  // ------------------------------------------------------- the mixer transaction

  datatype Answer = Stores | Skews(raw: int, muted: bool) | Fails

  /** A capture element: its state, and how it answers the coming writes and
    * readings. */
  datatype Mixer = Mixer(min: int, max: int, raw: int, muted: bool, answers: seq<Answer>, readings: seq<bool>) {
    predicate Holds(other: Mixer) { raw == other.raw && muted == other.muted }
  }

  datatype Change = Gain(value: real) | Mute(muted: bool)

  /** One field as it is written to the element. */
  datatype Field = Raw(raw: int) | Switch(muted: bool)

  function Written(m: Mixer, change: Change): Field {
    if change.Gain? then Raw(NormalizedToRaw(change.value, m.min, m.max)) else Switch(change.muted)
  }

  /** `Mismatched` is the one error reported as a partial state. */
  datatype Outcome = OutOfRange | CannotRead | NotSet | Unread | Mismatched(rollbackSucceeded: bool) | Applied

  predicate SameScale(m: Mixer, n: Mixer) { m.min == n.min && m.max == n.max }

  function Read(m: Mixer): (r: (Mixer, bool))
    ensures SameScale(r.0, m) && r.0.Holds(m)
  {
    if m.readings == [] then (m, true) else (m.(readings := m.readings[1..]), m.readings[0])
  }

  function Write(m: Mixer, field: Field): (r: (Mixer, bool))
    ensures SameScale(r.0, m)
    ensures if field.Raw? then r.0.muted == m.muted else r.0.raw == m.raw
    ensures !r.1 ==> r.0.Holds(m)
  {
    var answer := if m.answers == [] then Stores else m.answers[0];
    var m1 := m.(answers := if m.answers == [] then [] else m.answers[1..]);
    match answer
    case Fails => (m1, false)
    case Stores => (if field.Raw? then m1.(raw := field.raw) else m1.(muted := field.muted), true)
    case Skews(raw, muted) => (if field.Raw? then m1.(raw := raw) else m1.(muted := muted), true)
  }

  /** Puts both fields back as they were read. */
  function Restore(m: Mixer, previous: Mixer): (r: (Mixer, bool))
    ensures SameScale(r.0, m)
  {
    var (m1, ok) := Write(m, Raw(previous.raw));
    if !ok then (m1, false) else Write(m1, Switch(previous.muted))
  }

  predicate Verified(m: Mixer, change: Change) {
    match Written(m, change)
    case Raw(raw) => m.raw == raw
    case Switch(muted) => m.muted == muted
  }

  function SetHardware(m: Mixer, change: Change): (r: (Mixer, Outcome))
    ensures SameScale(r.0, m)
  {
    if change.Gain? && !(0.0 <= change.value <= 1.0) then (m, OutOfRange)
    else
      var (m1, known) := Read(m);
      if !known then (m1, CannotRead)
      else
        var (m2, stored) := Write(m1, Written(m, change));
        if !stored then (m2, NotSet)
        else
          var (m3, observed) := Read(m2);
          if !observed then (m3, Unread)
          else if Verified(m3, change) then (m3, Applied)
          else
            var (m4, restored) := Restore(m3, m);
            var (m5, seen) := Read(m4);
            if !restored then (m4, Mismatched(false)) else (m5, Mismatched(seen && m5.Holds(m)))
  }

  /** What the element holds in the field of a change. */
  function Held(m: Mixer, change: Change): Field {
    if change.Gain? then Raw(m.raw) else Switch(m.muted)
  }

  /** What the first write leaves in that field, unless it fails. */
  function Left(m: Mixer, change: Change): Field {
    if m.answers == [] || !m.answers[0].Skews? then Written(m, change)
    else if change.Gain? then Raw(m.answers[0].raw)
    else Switch(m.answers[0].muted)
  }

  /** What the mixer stage promises, exactly: an error that is not reported as
    * partial leaves the mixer as it was, but for the reading after the write,
    * whose error is returned over whatever the write left; a rollback that
    * succeeded left no trace either. */
  lemma {:induction false} MixerContract(m: Mixer, change: Change)
    ensures var (after, outcome) := SetHardware(m, change);
            && (outcome.OutOfRange? || outcome.CannotRead? || outcome.NotSet? ==> after.Holds(m))
            && (outcome == Mismatched(true) ==> after.Holds(m))
            && (outcome.Applied? ==>
                  && after.raw == (if change.Gain? then NormalizedToRaw(change.value, m.min, m.max) else m.raw)
                  && after.muted == (if change.Mute? then change.muted else m.muted))
            && (outcome.Unread? ==>
                  && Held(after, change) == Left(m, change)
                  && (after.Holds(m) <==> Left(m, change) == Held(m, change)))
  {
    if m.answers != [] { assert m.answers[0] in m.answers; }
  }

  /** The answers of the element to its coming writes and readings. */
  function AnswerAt(m: Mixer, i: nat): Answer { if i < |m.answers| then m.answers[i] else Stores }

  predicate ReadingAt(m: Mixer, i: nat) { i < |m.readings| ==> m.readings[i] }

  /** A change is applied exactly when it is in range, both readings answer, and
    * the write left what was asked for. */
  lemma {:induction false} AppliedExact(m: Mixer, change: Change)
    ensures SetHardware(m, change).1.Applied? <==>
              && (change.Gain? ==> 0.0 <= change.value <= 1.0) && ReadingAt(m, 0) && ReadingAt(m, 1)
              && !AnswerAt(m, 0).Fails? && Left(m, change) == Written(m, change)
  {
  }

  /** What writing both fields back leaves, by the answers to the two writes. */
  predicate Restored(m: Mixer, previous: Mixer, gain: Answer, switch: Answer, after: Mixer) {
    && after.raw == (match gain
                     case Stores => previous.raw
                     case Skews(raw, _) => raw
                     case Fails => m.raw)
    && after.muted == (if gain.Fails? || switch.Fails? then m.muted
                       else if switch.Skews? then switch.muted
                       else previous.muted)
  }

  lemma {:induction false} RestoreExact(m: Mixer, previous: Mixer)
    ensures var (after, ok) := Restore(m, previous);
            && Restored(m, previous, AnswerAt(m, 0), AnswerAt(m, 1), after)
            && (ok <==> !AnswerAt(m, 0).Fails? && !AnswerAt(m, 1).Fails?)
            && after.readings == m.readings
  {
  }

  /** Where the write left something else than was asked for. */
  lemma {:induction false} MismatchReached(m: Mixer, change: Change) returns (m3: Mixer)
    requires SetHardware(m, change).1.Mismatched?
    ensures Held(m3, change) == Left(m, change)
    ensures if change.Gain? then m3.muted == m.muted else m3.raw == m.raw
    ensures AnswerAt(m3, 0) == AnswerAt(m, 1) && AnswerAt(m3, 1) == AnswerAt(m, 2)
    ensures ReadingAt(m3, 0) == ReadingAt(m, 2)
    ensures var (m4, restored) := Restore(m3, m);
            var (m5, seen) := Read(m4);
            SetHardware(m, change) == if !restored then (m4, Mismatched(false))
                else (m5, Mismatched(seen && m5.Holds(m)))
  {
    m3 := Read(Write(Read(m).0, Written(m, change)).0).0;
  }

  /** After a mismatch both fields are written back, the gain first: each one that
    * stores is as it was, whatever else fails, and the switch is left alone when
    * the gain could not be written.  The rollback is reported as succeeded exactly
    * when both writes answered, the last reading did too, and it is true. */
  lemma {:induction false} MismatchExact(m: Mixer, change: Change)
    requires SetHardware(m, change).1.Mismatched?
    ensures var (after, outcome) := SetHardware(m, change);
            var left := if change.Gain? then m.(raw := Left(m, change).raw) else m.(muted := Left(m, change).muted);
            var gain, switch := AnswerAt(m, 1), AnswerAt(m, 2);
            && Restored(left, m, gain, switch, after)
            && (outcome.rollbackSucceeded <==>
                  !gain.Fails? && !switch.Fails? && ReadingAt(m, 2) && after.Holds(m))
            && (gain.Stores? && switch.Stores? ==> after.Holds(m))
  {
    var m3 := MismatchReached(m, change);
    RestoreExact(m3, m);
  }

  lemma {:induction false} OutOfRangeExact(m: Mixer, change: Change)
    ensures SetHardware(m, change).1.OutOfRange? <==> change.Gain? && !(0.0 <= change.value <= 1.0)
  {
  }

  /** Undoing an applied gain with the recorded percentage brings the raw value
    * back exactly. */
  lemma {:induction false} GainRollbackExact(m: Mixer, value: real)
    requires m.min <= m.raw <= m.max && SetHardware(m, Gain(value)).1.Applied?
    ensures var after := SetHardware(m, Gain(value)).0;
            var (back, outcome) := SetHardware(after, Gain(RawToNormalized(m.raw, m.min, m.max)));
            && !outcome.OutOfRange? && (outcome.Applied? ==> back.Holds(m))
  {
    MixerContract(m, Gain(value));
    OutOfRangeExact(m, Gain(value));
    TargetInRange(m.min, m.max, value);
    GainBack(SetHardware(m, Gain(value)).0, m.raw);
  }

  /** Undoing an applied mute with the recorded switch brings both fields back. */
  lemma {:induction false} MuteRollbackExact(m: Mixer, muted: bool)
    requires SetHardware(m, Mute(muted)).1.Applied?
    ensures var after := SetHardware(m, Mute(muted)).0;
            var (back, outcome) := SetHardware(after, Mute(m.muted));
            outcome.Applied? ==> back.Holds(m)
  {
    MixerContract(m, Mute(muted));
    MixerContract(SetHardware(m, Mute(muted)).0, Mute(m.muted));
  }

  lemma {:induction false} TargetInRange(min: int, max: int, value: real)
    requires min <= max && 0.0 <= value <= 1.0
    ensures min <= NormalizedToRaw(value, min, max) <= max
  {
    if min < max { InScale(max - min, value); }
  }

  lemma {:induction false} GainBack(m: Mixer, raw: int)
    requires m.min <= m.raw <= m.max && m.min <= raw <= m.max
    ensures var (back, outcome) := SetHardware(m, Gain(RawToNormalized(raw, m.min, m.max)));
            !outcome.OutOfRange? && (outcome.Applied? ==> back.raw == raw && back.muted == m.muted)
  {
    RawSurvives(raw, m.min, m.max);
    MixerContract(m, Gain(RawToNormalized(raw, m.min, m.max)));
    OutOfRangeExact(m, Gain(RawToNormalized(raw, m.min, m.max)));
  }

  /** The reading after the write that is not guarded: a concrete run that changes
    * the gain and returns an ordinary error. */
  lemma {:induction false} UnguardedReadback()
    ensures var m := Mixer(0, 10, 3, false, [], [true, false]);
            && SetHardware(m, Gain(1.0)).1 == Unread && SetHardware(m, Gain(1.0)).0.raw == 10
            && Left(m, Gain(1.0)) == Raw(10) != Held(m, Gain(1.0))
  {
    assert NormalizedToRaw(1.0, 0, 10) == 10;
    assert [true, false][1..] == [false];
  }

  /** The element as it is written. */
  class CaptureElement {
    const min: int
    const max: int
    var raw: int
    var muted: bool
    var answers: seq<Answer>
    var readings: seq<bool>

    function Now(): Mixer
      reads this
    {
      Mixer(min, max, raw, muted, answers, readings)
    }

    constructor (m: Mixer)
      ensures Now() == m
    {
      min, max, raw, muted, answers, readings := m.min, m.max, m.raw, m.muted, m.answers, m.readings;
    }

    method ReadState() returns (ok: bool)
      modifies this`readings
      ensures (Now(), ok) == Read(old(Now()))
    {
      ok := true;
      if readings != [] { ok, readings := readings[0], readings[1..]; }
    }

    method WriteField(field: Field) returns (ok: bool)
      modifies this`raw, this`muted, this`answers
      ensures (Now(), ok) == Write(old(Now()), field)
    {
      var answer := Stores;
      if answers != [] { answer, answers := answers[0], answers[1..]; }
      if answer.Fails? { return false; }
      ok := true;
      match field
      case Raw(value) => raw := if answer.Skews? then answer.raw else value;
      case Switch(on) => muted := if answer.Skews? then answer.muted else on;
    }

    method RestoreState(previous: Mixer) returns (ok: bool)
      modifies this`raw, this`muted, this`answers
      ensures (Now(), ok) == Restore(old(Now()), previous)
    {
      ok := WriteField(Raw(previous.raw));
      if ok { ok := WriteField(Switch(previous.muted)); }
    }

    method Set(change: Change) returns (outcome: Outcome)
      modifies this
      ensures (Now(), outcome) == SetHardware(old(Now()), change)
    {
      ghost var start := Now();
      if change.Gain? && !(0.0 <= change.value <= 1.0) { return OutOfRange; }
      var previous := Now();
      var known := ReadState();
      if !known { return CannotRead; }
      var stored := WriteField(Written(previous, change));
      if !stored { return NotSet; }
      var observed := ReadState();
      if !observed { return Unread; }
      if Verified(Now(), change) { return Applied; }
      var restored := RestoreState(previous);
      if !restored { return Mismatched(false); }
      var seen := ReadState();
      outcome := Mismatched(seen && raw == previous.raw && muted == previous.muted);
    }
  }
}
