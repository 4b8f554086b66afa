/** The zoom ramp: interpolation over ticks of 50 ms, aligned to the device's
  * step; floating-point values are reals here. */
module Zoom {
  import opened Rounding
  import opened Wrappers

  const TickMs := 50
  const LongestMs := 60_000

  datatype ZoomControl = ZoomControl(minimum: int, maximum: int, step: nat)

  function StepOf(c: ZoomControl): (s: nat)
    ensures s >= 1
  {
    if c.step < 1 then 1 else c.step
  }

  /** Integer division that truncates toward zero. */
  function TruncDiv(a: int, b: nat): int
    requires b > 0
  {
    if a >= 0 then a / b else -((-a) / b)
  }

  predicate Aligned(c: ZoomControl, raw: int) {
    c.minimum <= raw <= c.maximum && (raw - c.minimum) % StepOf(c) == 0
  }

  /** A factor is accepted when its hundredths are in range and on a step. */
  function FactorToRaw(c: ZoomControl, factor: real): (r: Option<int>)
    ensures r.Some? ==> Aligned(c, r.value)
  {
    var raw := Round(factor * 100.0);
    if c.minimum <= raw <= c.maximum && (raw - c.minimum) % StepOf(c) == 0 then Some(raw) else None
  }

  function Snap(c: ZoomControl, raw: int): int {
    c.minimum + TruncDiv(raw - c.minimum, StepOf(c)) * StepOf(c)
  }

  function Interpolated(from: int, to: int, tick: nat, ticks: nat): real
    requires ticks > 0
  {
    from as real + (to - from) as real * (tick as real / ticks as real)
  }

  function RawAtTick(c: ZoomControl, from: int, to: int, tick: nat, ticks: nat): int
    requires ticks > 0
  {
    Snap(c, Round(Interpolated(from, to, tick, ticks)))
  }

  function Values(c: ZoomControl, from: int, to: int, ticks: nat): seq<int>
    requires ticks > 0
  {
    seq(ticks + 1, t requires 0 <= t => RawAtTick(c, from, to, t, ticks))
  }

  /** The values really written: a value equal to the one before is skipped. */
  function WritesFrom(last: int, values: seq<int>): seq<int>
    decreases |values|
  {
    if values == [] then []
    else if values[0] == last then WritesFrom(last, values[1..])
    else [values[0]] + WritesFrom(values[0], values[1..])
  }

  // ------------------------------------------------------------ the ramp's shape

  lemma {:induction false} RoundMonotone(x: real, y: real)
    requires x <= y
    ensures Round(x) <= Round(y)
  {
  }

  lemma {:induction false} RoundInteger(n: int)
    ensures Round(n as real) == n
  {
  }

  lemma {:induction false} Scaled(a: real, x: real, y: real)
    requires a >= 0.0 && x <= y
    ensures a * x <= a * y
  {
  }

  lemma {:induction false} Fractions(s: nat, t: nat, ticks: nat)
    requires s <= t <= ticks && ticks > 0
    ensures 0.0 <= s as real / ticks as real <= t as real / ticks as real <= 1.0
    ensures 0.0 / ticks as real == 0.0 && ticks as real / ticks as real == 1.0
  {
  }

  lemma {:induction false} InterpolatedMonotone(from: int, to: int, s: nat, t: nat, ticks: nat)
    requires s <= t <= ticks && ticks > 0
    ensures from <= to ==>
            from as real <= Interpolated(from, to, s, ticks) <= Interpolated(from, to, t, ticks) <= to as real
    ensures from >= to ==>
            from as real >= Interpolated(from, to, s, ticks) >= Interpolated(from, to, t, ticks) >= to as real
  {
    Fractions(s, t, ticks);
    var f, g := s as real / ticks as real, t as real / ticks as real;
    if from <= to {
      var a := (to - from) as real;
      Scaled(a, 0.0, f);
      Scaled(a, f, g);
      Scaled(a, g, 1.0);
    } else {
      var a := (from - to) as real;
      Scaled(a, 0.0, f);
      Scaled(a, f, g);
      Scaled(a, g, 1.0);
      assert (to - from) as real * f == -(a * f) && (to - from) as real * g == -(a * g);
    }
  }

  lemma {:induction false} MultiplyMonotone(x: int, y: int, d: nat)
    requires x <= y
    ensures x * d <= y * d
  {
  }

  lemma {:induction false} FarApart(x: int, y: int, d: nat)
    requires d > 0
    ensures x > y ==> x * d - y * d >= d
    ensures x < y ==> y * d - x * d >= d
  {
    if x > y { MultiplyMonotone(y + 1, x, d); }
    if x < y { MultiplyMonotone(x + 1, y, d); }
  }

  lemma {:induction false} SignedMultipleMod(k: int, d: nat)
    requires d > 0
    ensures (k * d) % d == 0
  {
    var n := k * d;
    assert n == (n / d) * d + n % d;
    FarApart(k, n / d, d);
  }

  lemma {:induction false} DivMonotone(x: nat, y: nat, d: nat)
    requires x <= y && d > 0
    ensures x / d <= y / d
  {
    assert x == (x / d) * d + x % d && y == (y / d) * d + y % d;
    FarApart(x / d, y / d, d);
  }

  lemma {:induction false} SnapMonotone(c: ZoomControl, x: int, y: int)
    requires c.minimum <= x <= y
    ensures Snap(c, x) <= Snap(c, y)
  {
    DivMonotone(x - c.minimum, y - c.minimum, StepOf(c));
    MultiplyMonotone((x - c.minimum) / StepOf(c), (y - c.minimum) / StepOf(c), StepOf(c));
  }

  lemma {:induction false} SnapAligned(c: ZoomControl, x: int)
    requires c.minimum <= x
    ensures (Snap(c, x) - c.minimum) % StepOf(c) == 0
    ensures (x - c.minimum) % StepOf(c) == 0 ==> Snap(c, x) == x
  {
    SignedMultipleMod((x - c.minimum) / StepOf(c), StepOf(c));
  }

  /** Every planned value is on a step, between the ends, and moves from one end
    * to the other without turning back. */
  lemma {:induction false} RampShape(c: ZoomControl, from: int, to: int, s: nat, t: nat, ticks: nat)
    requires Aligned(c, from) && Aligned(c, to) && ticks > 0 && s <= t <= ticks
    ensures Aligned(c, RawAtTick(c, from, to, t, ticks))
    ensures from <= to ==> from <= RawAtTick(c, from, to, s, ticks) <= RawAtTick(c, from, to, t, ticks) <= to
    ensures from >= to ==> from >= RawAtTick(c, from, to, s, ticks) >= RawAtTick(c, from, to, t, ticks) >= to
  {
    var x, y := Interpolated(from, to, s, ticks), Interpolated(from, to, t, ticks);
    InterpolatedMonotone(from, to, s, t, ticks);
    RoundInteger(from);
    RoundInteger(to);
    SnapAligned(c, from);
    SnapAligned(c, to);
    if from <= to {
      RoundMonotone(from as real, x);
      RoundMonotone(x, y);
      RoundMonotone(y, to as real);
      SnapMonotone(c, from, Round(x));
      SnapMonotone(c, Round(x), Round(y));
      SnapMonotone(c, Round(y), to);
    } else {
      RoundMonotone(to as real, y);
      RoundMonotone(y, x);
      RoundMonotone(x, from as real);
      SnapMonotone(c, to, Round(y));
      SnapMonotone(c, Round(y), Round(x));
      SnapMonotone(c, Round(x), from);
    }
    SnapAligned(c, Round(y));
  }

  /** The ramp starts at `from` and ends exactly at `to`. */
  lemma {:induction false} RampEnds(c: ZoomControl, from: int, to: int, ticks: nat)
    requires Aligned(c, from) && Aligned(c, to) && ticks > 0
    ensures RawAtTick(c, from, to, 0, ticks) == from && RawAtTick(c, from, to, ticks, ticks) == to
  {
    Fractions(0, ticks, ticks);
    assert Interpolated(from, to, 0, ticks) == from as real;
    assert Interpolated(from, to, ticks, ticks) == to as real;
    RoundInteger(from);
    RoundInteger(to);
    SnapAligned(c, from);
    SnapAligned(c, to);
  }

  // ------------------------------------------------------- counting the writes

  /** Values that move away from `from` in whole steps without turning back. */
  predicate Marching(values: seq<int>, from: int, to: int, step: nat)
    requires step > 0
  {
    && (forall i :: 0 <= i < |values| ==> (if from <= to then from <= values[i] <= to else to <= values[i] <= from))
    && (forall i :: 0 <= i < |values| ==> (values[i] - from) % step == 0)
    && (forall i, j :: 0 <= i < j < |values| ==>
        (if from <= to then values[i] <= values[j] else values[i] >= values[j]))
  }

  predicate Strict(writes: seq<int>) {
    forall i, j :: 0 <= i < j < |writes| ==> writes[i] != writes[j]
  }

  lemma {:induction false} WritesAmong(last: int, values: seq<int>)
    ensures |WritesFrom(last, values)| <= |values|
    ensures forall w :: w in WritesFrom(last, values) ==> w in values
    ensures (if WritesFrom(last, values) == [] then last else WritesFrom(last, values)[|WritesFrom(last, values)| - 1])
         == (if values == [] then last else values[|values| - 1])
    decreases |values|
  {
    if values != [] {
      WritesAmong(values[0], values[1..]);
    }
  }

  lemma {:induction false} MarchingTail(values: seq<int>, from: int, to: int, step: nat)
    requires step > 0 && values != [] && Marching(values, from, to, step)
    ensures Marching(values[1..], from, to, step)
  {
  }

  /** Prefixing a different first value keeps the march. */
  lemma {:induction false} MarchingCons(head: int, rest: seq<int>, values: seq<int>, from: int, to: int, step: nat)
    requires step > 0 && values != [] && head == values[0] && Marching(values, from, to, step)
    requires Marching(rest, from, to, step) && Strict(rest) && head !in rest && forall w :: w in rest ==>
             w in values[1..]
    ensures Marching([head] + rest, from, to, step) && Strict([head] + rest)
  {
    forall j | 0 <= j < |rest| ensures if from <= to then head <= rest[j] else head >= rest[j] {
      assert rest[j] in rest && rest[j] in values[1..];
      var k :| 0 <= k < |values| - 1 && values[1..][k] == rest[j];
      assert values[k + 1] == rest[j];
    }
  }

  /** Once past a value, the march does not come back to it. */
  lemma {:induction false} NeverBack(values: seq<int>, from: int, to: int, step: nat)
    requires step > 0 && values != [] && Marching(values, from, to, step)
    ensures values[0] !in WritesFrom(values[0], values[1..])
    decreases |values|
  {
    var later := values[1..];
    if later != [] {
      MarchingTail(values, from, to, step);
      NeverBack(later, from, to, step);
      WritesAmong(later[0], later[1..]);
      if later[0] != values[0] {
        forall w | w in WritesFrom(values[0], later) ensures w != values[0] {
          assert w in [later[0]] + later[1..];
          var k :| 0 <= k < |later| && later[k] == w;
          assert values[k + 1] == w && values[1] == later[0];
        }
      }
    }
  }

  lemma {:induction false} MarchingWrites(last: int, values: seq<int>, from: int, to: int, step: nat)
    requires step > 0 && Marching(values, from, to, step)
    ensures Marching(WritesFrom(last, values), from, to, step) && Strict(WritesFrom(last, values))
    decreases |values|
  {
    if values != [] {
      MarchingTail(values, from, to, step);
      NeverBack(values, from, to, step);
      MarchingWrites(values[0], values[1..], from, to, step);
      WritesAmong(values[0], values[1..]);
      MarchingCons(values[0], WritesFrom(values[0], values[1..]), values, from, to, step);
    }
  }

  lemma {:induction false} MarchAdvances(writes: seq<int>, from: int, to: int, step: nat, i: nat)
    requires step > 0 && Marching(writes, from, to, step) && Strict(writes) && i < |writes|
    ensures (if from <= to then writes[i] - from else from - writes[i]) >= i * step
  {
    if i > 0 {
      MarchAdvances(writes, from, to, step, i - 1);
      var gap := if from <= to then writes[i] - writes[i - 1] else writes[i - 1] - writes[i];
      assert writes[i - 1] != writes[i];
      StepGap(writes[i] - from, writes[i - 1] - from, step);
      assert i * step == (i - 1) * step + step;
    }
  }

  lemma {:induction false} StepGap(a: int, b: int, step: nat)
    requires step > 0 && a % step == 0 && b % step == 0 && a != b
    ensures a - b >= step || b - a >= step
  {
    assert a == (a / step) * step && b == (b / step) * step;
    FarApart(a / step, b / step, step);
  }

  lemma {:induction false} ValuesMarch(c: ZoomControl, from: int, to: int, ticks: nat)
    requires Aligned(c, from) && Aligned(c, to) && ticks > 0
    ensures Marching(Values(c, from, to, ticks), from, to, StepOf(c))
  {
    var values := Values(c, from, to, ticks);
    forall i | 0 <= i < |values|
      ensures (if from <= to then from <= values[i] <= to else to <= values[i] <= from)
              && (values[i] - from) % StepOf(c) == 0
    {
      RampShape(c, from, to, i, i, ticks);
      DifferenceMod(values[i] - c.minimum, from - c.minimum, StepOf(c));
    }
    forall i, j | 0 <= i < j < |values| ensures if from <= to then values[i] <= values[j] else values[i] >= values[j] {
      RampShape(c, from, to, i, j, ticks);
    }
  }

  lemma {:induction false} DifferenceMod(a: int, b: int, d: nat)
    requires d > 0 && a % d == 0 && b % d == 0
    ensures (a - b) % d == 0
  {
    var k := a / d - b / d;
    assert a == (a / d) * d && b == (b / d) * d && a - b == k * d;
    SignedMultipleMod(k, d);
  }

  lemma {:induction false} QuotientBound(a: nat, k: nat, d: nat)
    requires d > 0 && a >= k * d
    ensures a / d >= k
  {
    assert a == (a / d) * d + a % d;
    FarApart(k, a / d, d);
  }

  /** The number of writes is at most one per tick and one per step between the
    * ends, they never repeat a value, and they leave the control at `to`. */
  lemma {:induction false} RampWrites(c: ZoomControl, previous: int, from: int, to: int, ticks: nat)
    requires Aligned(c, from) && Aligned(c, to) && ticks > 0
    ensures var writes := WritesFrom(previous, Values(c, from, to, ticks));
            && |writes| <= ticks + 1
            && |writes| <= (if from <= to then to - from else from - to) / StepOf(c) + 1
            && Marching(writes, from, to, StepOf(c)) && Strict(writes)
            && (if writes == [] then previous else writes[|writes| - 1]) == to
  {
    var values := Values(c, from, to, ticks);
    var writes := WritesFrom(previous, values);
    ValuesMarch(c, from, to, ticks);
    RampEnds(c, from, to, ticks);
    WritesAmong(previous, values);
    MarchingWrites(previous, values, from, to, StepOf(c));
    if writes != [] {
      MarchAdvances(writes, from, to, StepOf(c), |writes| - 1);
      QuotientBound(if from <= to then to - from else from - to, |writes| - 1, StepOf(c));
    }
  }

  lemma {:induction false} WritesStep(last: int, values: seq<int>, i: nat, made: seq<int>)
    requires i < |values|
    ensures made + WritesFrom(last, values[i..]) ==
            if values[i] == last then made + WritesFrom(last, values[i + 1..])
            else (made + [values[i]]) + WritesFrom(values[i], values[i + 1..])
  {
    assert values[i..][0] == values[i] && values[i..][1..] == values[i + 1..];
  }

  // ----------------------------------------------------------------- the command

  /** `Ramped` counts the writes made, `Undone` tells whether the previous value
    * was put back and seen. */
  datatype Outcome = Refused | Unread | Preview(writes: nat) | Ramped(writes: nat) | Undone(restored: bool)

  predicate InTime(durationMs: nat) { TickMs <= durationMs <= LongestMs }

  /** The writes of a ramp that is accepted. */
  function RampPlan(c: ZoomControl, previous: int, from: real, to: real, durationMs: nat): Option<seq<int>> {
    var start, end := FactorToRaw(c, from), FactorToRaw(c, to);
    if !InTime(durationMs) || start.None? || end.None? then None
    else Some(WritesFrom(previous, Values(c, start.value, end.value, (durationMs + TickMs - 1) / TickMs)))
  }

  /** The width of a step: a step of zero counts as one. */
  function Stride(c: ZoomControl): nat { if c.step == 0 then 1 else c.step }

  /** A factor is accepted exactly when its hundredths, rounded to the nearest
    * integer, lie in the range of the control and a whole number of steps above
    * its minimum. */
  lemma {:induction false} FactorExact(c: ZoomControl, factor: real, raw: int)
    ensures FactorToRaw(c, factor) == Some(raw) <==>
              && raw == Round(factor * 100.0) && c.minimum <= raw <= c.maximum
              && exists k :: raw == c.minimum + k * Stride(c)
    ensures -0.5 <= Round(factor * 100.0) as real - factor * 100.0 <= 0.5
  {
    if exists k :: raw == c.minimum + k * Stride(c) {
      var k :| raw == c.minimum + k * Stride(c);
      SignedMultipleMod(k, Stride(c));
    }
    if (raw - c.minimum) % Stride(c) == 0 {
      assert raw == c.minimum + ((raw - c.minimum) / Stride(c)) * Stride(c);
    }
  }

  /** Every planned value is the step at or below the point on the straight line,
    * up to rounding. */
  lemma {:induction false} RampAccuracy(c: ZoomControl, from: int, to: int, tick: nat, ticks: nat)
    requires Aligned(c, from) && Aligned(c, to) && tick <= ticks && ticks > 0
    ensures var line := from as real + (to - from) as real * (tick as real / ticks as real);
            var raw := RawAtTick(c, from, to, tick, ticks) as real;
            line - 0.5 - Stride(c) as real < raw <= line + 0.5
  {
    var line := Interpolated(from, to, tick, ticks);
    var x := Round(line);
    InterpolatedMonotone(from, to, tick, tick, ticks);
    RoundInteger(c.minimum);
    RoundMonotone(c.minimum as real, line);
    assert -0.5 <= x as real - line <= 0.5;
    SnapBelow(c, x);
  }

  lemma {:induction false} SnapBelow(c: ZoomControl, x: int)
    requires c.minimum <= x
    ensures x - Stride(c) < Snap(c, x) <= x
  {
    var d := Stride(c);
    var n := x - c.minimum;
    assert n == (n / d) * d + n % d;
  }

  /** A ramp is accepted exactly when its duration is from 50 ms to a minute and
    * both factors are; it takes the fewest ticks of 50 ms that cover the duration,
    * makes the writes of that many ticks, and leaves the control at its end. */
  lemma {:induction false} RampPlanExact(c: ZoomControl, previous: int, from: real, to: real, durationMs: nat,
          ticks: nat)
    requires (ticks - 1) * 50 < durationMs <= ticks * 50
    ensures var plan := RampPlan(c, previous, from, to, durationMs);
            var start, end := FactorToRaw(c, from), FactorToRaw(c, to);
            && (plan.Some? <==> 50 <= durationMs <= 60_000 && start.Some? && end.Some?)
            && (plan.Some? ==>
                  && ticks > 0 && plan.value == WritesFrom(previous, Values(c, start.value, end.value, ticks))
                  && (if plan.value == [] then previous else plan.value[|plan.value| - 1]) == end.value)
  {
    var start, end := FactorToRaw(c, from), FactorToRaw(c, to);
    if RampPlan(c, previous, from, to, durationMs).Some? {
      assert (durationMs + TickMs - 1) / TickMs == ticks;
      RampWrites(c, previous, start.value, end.value, ticks);
    }
  }

  function Readable(readings: seq<bool>): bool { readings == [] || readings[0] }

  /** A zoom node: what it holds, and how it answers the coming writes and
    * readings; a write that fails stores nothing, and one may store another
    * value. */
  datatype Answer = Stores | Skews(value: int) | Fails

  function AnswerAt(answers: seq<Answer>, i: nat): Answer { if i < |answers| then answers[i] else Stores }

  function After<T>(script: seq<T>, n: nat): seq<T> { if n <= |script| then script[n..] else [] }

  lemma {:induction false} AfterAfter<T>(script: seq<T>, n: nat)
    ensures After(After(script, n), 1) == After(script, n + 1)
  {
  }

  lemma {:induction false} AnswerAfter(answers: seq<Answer>, n: nat)
    ensures AnswerAt(After(answers, n), 0) == AnswerAt(answers, n)
  {
  }

  /** None of the first `n` writes fails. */
  predicate Succeed(answers: seq<Answer>, n: nat) { forall i :: 0 <= i < n ==> !AnswerAt(answers, i).Fails? }

  /** What the node holds after these writes. */
  function HeldAfter(raw: int, writes: seq<int>, answers: seq<Answer>): int {
    if writes == [] then raw
    else match AnswerAt(answers, |writes| - 1)
      case Skews(value) => value
      case Stores => writes[|writes| - 1]
      case Fails => HeldAfter(raw, writes[..|writes| - 1], answers)
  }

  /** One more write that does not fail. */
  lemma {:induction false} HeldStep(raw: int, made: seq<int>, value: int, answers: seq<Answer>)
    requires Succeed(answers, |made|) && !AnswerAt(answers, |made|).Fails?
    ensures Succeed(answers, |made| + 1)
    ensures HeldAfter(raw, made + [value], answers) ==
            if AnswerAt(answers, |made|).Skews? then AnswerAt(answers, |made|).value else value
  {
  }

  class ZoomNode {
    const control: ZoomControl
    var raw: int
    var answers: seq<Answer>
    var readings: seq<bool>
    var log: seq<int>

    constructor (control: ZoomControl, raw: int, answers: seq<Answer>, readings: seq<bool>)
      ensures this.control == control && this.raw == raw && this.answers == answers && this.readings == readings
              && log == []
    {
      this.control, this.raw, this.answers, this.readings, this.log := control, raw, answers, readings, [];
    }

    method Get() returns (value: Option<int>)
      modifies this`readings
      ensures value == if Readable(old(readings)) then Some(raw) else None
      ensures readings == After(old(readings), 1)
    {
      value := if Readable(readings) then Some(raw) else None;
      if readings != [] { readings := readings[1..]; }
    }

    method Set(value: int) returns (ok: bool)
      modifies this`raw, this`answers, this`log
      ensures ok <==> !AnswerAt(old(answers), 0).Fails?
      ensures answers == After(old(answers), 1)
      ensures match AnswerAt(old(answers), 0)
              case Stores => raw == value && log == old(log) + [value]
              case Skews(stored) => raw == stored && log == old(log) + [value]
              case Fails => raw == old(raw) && log == old(log)
    {
      var answer := Stores;
      if answers != [] { answer, answers := answers[0], answers[1..]; }
      if answer.Fails? { return false; }
      raw := if answer.Skews? then answer.value else value;
      log := log + [value];
      ok := true;
    }

    /** Counts the writes a ramp would make. */
    method PlannedWrites(from: int, to: int, ticks: nat) returns (planned: nat)
      requires ticks > 0
      ensures planned == |WritesFrom(raw, Values(control, from, to, ticks))|
    {
      planned := 0;
      var last := raw;
      var values := Values(control, from, to, ticks);
      assert values[0..] == values;
      var tick := 0;
      while tick <= ticks
        invariant 0 <= tick <= ticks + 1
        invariant |WritesFrom(raw, values)| == planned + |WritesFrom(last, values[tick..])|
      {
        assert values[tick..][0] == values[tick] && values[tick..][1..] == values[tick + 1..];
        var value := RawAtTick(control, from, to, tick, ticks);
        if last != value { planned, last := planned + 1, value; }
        tick := tick + 1;
      }
    }

    /** Writes the values tick by tick, up to the first failure. */
    method WriteTicks(from: int, to: int, ticks: nat) returns (ok: bool, writes: nat)
      requires ticks > 0
      modifies this`raw, this`answers, this`log
      ensures var plan := WritesFrom(old(raw), Values(control, from, to, ticks));
              && writes <= |plan| && log == old(log) + plan[..writes]
              && (ok <==> writes == |plan|) && Succeed(old(answers), writes)
              && raw == HeldAfter(old(raw), plan[..writes], old(answers))
              && (!ok ==> AnswerAt(old(answers), writes).Fails?)
              && answers == After(old(answers), if ok then writes else writes + 1)
    {
      ghost var values := Values(control, from, to, ticks);
      ghost var all := WritesFrom(raw, values);
      ghost var made: seq<int> := [];
      ghost var script := answers;
      assert values[0..] == values;
      var last := raw;
      var tick := 0;
      writes, ok := 0, true;
      while tick <= ticks
        invariant 0 <= tick <= ticks + 1 && ok && writes == |made|
        invariant log == old(log) + made && answers == After(script, writes) && Succeed(script, writes)
        invariant raw == HeldAfter(old(raw), made, script)
        invariant all == made + WritesFrom(last, values[tick..])
      {
        var value := RawAtTick(control, from, to, tick, ticks);
        WritesStep(last, values, tick, made);
        AnswerAfter(script, writes);
        AfterAfter(script, writes);
        if last != value {
          assert all[..writes] == made;
          ok := Set(value);
          if !ok { return; }
          HeldStep(old(raw), made, value, script);
          writes, last, made := writes + 1, value, made + [value];
        }
        tick := tick + 1;
      }
      assert values[tick..] == [] && made + [] == made && all[..writes] == all;
    }

    /** A ramp that is refused, cannot be read, or is only previewed changes nothing,
      * and a preview counts the writes of the real run.  Otherwise it makes the
      * planned writes up to the first that fails.  It succeeds exactly when none
      * does and the control is then read at its end; else it puts the previous
      * value back, whatever failed, and says so exactly when that write answered
      * and the value was seen again. */
    method RunZoomRamp(from: real, to: real, durationMs: nat, dryRun: bool)
      returns (outcome: Outcome, ghost writes: nat)
      modifies this`raw, this`answers, this`readings, this`log
      ensures outcome.Unread? <==> InTime(durationMs) && !Readable(old(readings))
      ensures outcome.Refused? <==> RampPlan(control, old(raw), from, to, durationMs).None? && !outcome.Unread?
      ensures outcome.Refused? || outcome.Unread? || outcome.Preview? ==> raw == old(raw) && log == old(log)
      ensures !outcome.Refused? && !outcome.Unread? ==> (outcome.Preview? <==> dryRun)
      ensures outcome.Preview? ==> outcome.writes == |RampPlan(control, old(raw), from, to, durationMs).value|
      ensures outcome.Ramped? || outcome.Undone? ==>
                var plan := RampPlan(control, old(raw), from, to, durationMs).value;
                && writes <= |plan| && Succeed(old(answers), writes)
                && (writes < |plan| ==> AnswerAt(old(answers), writes).Fails?)
                && (outcome.Ramped? <==>
                      && writes == |plan| && Readable(After(old(readings), 1))
                      && HeldAfter(old(raw), plan, old(answers)) == FactorToRaw(control, to).value)
      ensures outcome.Ramped? ==>
                var plan := RampPlan(control, old(raw), from, to, durationMs).value;
                outcome.writes == |plan| && log == old(log) + plan && raw == FactorToRaw(control, to).value
      ensures outcome.Undone? ==>
                var plan := RampPlan(control, old(raw), from, to, durationMs).value;
                var put := AnswerAt(old(answers), if writes < |plan| then writes + 1 else writes);
                var seen := After(old(readings), if writes < |plan| then 1 else 2);
                && raw == (match put
                           case Stores => old(raw)
                           case Skews(value) => value
                           case Fails => HeldAfter(old(raw), plan[..writes], old(answers)))
                && log == old(log) + plan[..writes] + (if put.Fails? then [] else [old(raw)])
                && (outcome.restored <==> !put.Fails? && Readable(seen) && raw == old(raw))
    {
      writes := 0;
      if !InTime(durationMs) { return Refused, 0; }
      var ticks := (durationMs + TickMs - 1) / TickMs;
      ghost var script, shown := answers, readings;
      var known := Get();
      if known.None? { return Unread, 0; }
      var previous := known.value;
      var start, end := FactorToRaw(control, from), FactorToRaw(control, to);
      if start.None? || end.None? { return Refused, 0; }
      if dryRun {
        var planned := PlannedWrites(start.value, end.value, ticks);
        return Preview(planned), 0;
      }
      var ok, made := WriteTicks(start.value, end.value, ticks);
      writes := made;
      ghost var plan := WritesFrom(previous, Values(control, start.value, end.value, ticks));
      assert plan[..|plan|] == plan;
      AfterAfter(shown, 1);
      if ok {
        var observed := Get();
        if observed == Some(end.value) { return Ramped(made), made; }
      }
      AnswerAfter(script, if ok then made else made + 1);
      var put := Set(previous);
      if !put { return Undone(false), made; }
      var seen := Get();
      outcome := Undone(seen == Some(previous));
    }
  }
}
