/** Scalar vendor-control codecs: how one named field lives inside the bytes of
  * a selector, and the lens laws that decide when a write can be undone. */
module Codec {
  import opened Wrappers

  type Byte = x: int | 0 <= x < 256

  datatype ByteOrder = Little | Big

  datatype Kind = Boolean | Unsigned | Signed | Enum

  datatype Algorithm = Sum8 | Xor8

  datatype Tail = Preserve | Zero | Fixed(hex: seq<Byte>) | Template(hex: seq<Byte>) | Computed(algorithm: Algorithm)

  datatype Entry = Entry(name: string, value: int)

  /** `mask` is present for read-modify-write controls; `values` are the named
    * values in name order; `range` is the verified numeric range. */
  datatype Control = Control(
    name: string,
    length: nat,
    offset: nat,
    width: nat,
    order: ByteOrder,
    kind: Kind,
    values: seq<Entry>,
    mask: Option<nat>,
    range: Option<Range>,
    tail: Tail)

  datatype Range = Range(minimum: int, maximum: int, step: Option<int>)

  /** A semantic value, and equally the reading of a textual input. */
  datatype Value = Flag(on: bool) | Name(name: string) | Number(number: int)

  /** The part of profile validation the codec relies on. */
  predicate Validated(c: Control) {
    && c.width in {1, 2, 4, 8} && (c.kind.Boolean? ==> c.width == 1)
    && c.offset + c.width <= c.length
    && (forall i, j :: 0 <= i < j < |c.values| ==> c.values[i].name != c.values[j].name)
    && (c.mask.Some? ==>
        c.kind.Enum? && c.tail.Preserve? && c.mask.value < Power(c.width) && c.mask.value < 0x8000_0000_0000_0000
                         && forall e :: e in c.values ==> 0 <= e.value && And(e.value, c.mask.value) == e.value)
    && (c.range.Some? ==>
        (c.kind.Unsigned? || c.kind.Signed?) && (c.range.value.step.Some? ==> c.range.value.step.value > 0))
    && (c.tail.Fixed? ==> |c.tail.hex| == c.length - c.offset - c.width)
    && (c.tail.Template? ==> |c.tail.hex| == c.length)
    && (c.tail.Computed? ==> c.length == c.offset + c.width + 1)
  }

  // -------------------------------------------------------- integers and bytes

  function Power(n: nat): (p: nat)
    ensures p >= 1
  {
    if n == 0 then 1 else 256 * Power(n - 1)
  }

  function Reversed(s: seq<Byte>): (r: seq<Byte>)
    ensures |r| == |s|
  {
    if s == [] then [] else Reversed(s[1..]) + [s[0]]
  }

  function FromLittle(bytes: seq<Byte>): (n: nat)
    ensures n < Power(|bytes|)
  {
    if bytes == [] then 0 else bytes[0] + 256 * FromLittle(bytes[1..])
  }

  function ToLittle(n: nat, width: nat): (r: seq<Byte>)
    ensures |r| == width
  {
    if width == 0 then [] else [n % 256] + ToLittle(n / 256, width - 1)
  }

  lemma {:induction false} FromToLittle(n: nat, width: nat)
    requires n < Power(width)
    ensures FromLittle(ToLittle(n, width)) == n
    decreases width
  {
    if width > 0 {
      assert ToLittle(n, width)[1..] == ToLittle(n / 256, width - 1);
      FromToLittle(n / 256, width - 1);
    }
  }

  lemma {:induction false} ToFromLittle(bytes: seq<Byte>)
    ensures ToLittle(FromLittle(bytes), |bytes|) == bytes
  {
    if bytes != [] {
      ToFromLittle(bytes[1..]);
      assert FromLittle(bytes) % 256 == bytes[0] && FromLittle(bytes) / 256 == FromLittle(bytes[1..]);
    }
  }

  lemma {:induction false} ReversedAppend(s: seq<Byte>, b: Byte)
    ensures Reversed(s + [b]) == [b] + Reversed(s)
  {
    if s == [] {
      assert s + [b] == [b] && [b][1..] == [];
    } else {
      assert (s + [b])[1..] == s[1..] + [b];
      ReversedAppend(s[1..], b);
    }
  }

  lemma {:induction false} ReversedTwice(s: seq<Byte>)
    ensures Reversed(Reversed(s)) == s
  {
    if s != [] {
      ReversedTwice(s[1..]);
      ReversedAppend(Reversed(s[1..]), s[0]);
    }
  }

  function Arranged(order: ByteOrder, bytes: seq<Byte>): (r: seq<Byte>)
    ensures |r| == |bytes|
  {
    if order.Little? then bytes else Reversed(bytes)
  }

  /** The stored integer: two's complement below eight bytes, and never beyond
    * the signed 64-bit range.  Eight-byte values with the top bit set are
    * refused even for signed controls. */
  function ReadInteger(bytes: seq<Byte>, order: ByteOrder, signed: bool): Option<int> {
    var little := Arranged(order, bytes);
    var n := FromLittle(little);
    if signed && 0 < |bytes| < 8 && little[|little| - 1] >= 128 then Some(n - Power(|bytes|))
    else if n < 0x8000_0000_0000_0000 then Some(n)
    else None
  }

  predicate Fits(value: int, width: nat, signed: bool)
    requires width > 0
  {
    if signed then -128 * Power(width - 1) <= value < 128 * Power(width - 1)
    else 0 <= value < Power(width)
  }

  function WriteInteger(value: int, width: nat, order: ByteOrder, signed: bool): Option<seq<Byte>>
    requires width > 0
  {
    if !Fits(value, width, signed) then None
    else Some(Arranged(order, ToLittle(if value < 0 then value + Power(width) else value, width)))
  }

  lemma {:induction false} TopByte(bytes: seq<Byte>)
    requires bytes != []
    ensures bytes[|bytes| - 1] >= 128 <==> FromLittle(bytes) >= 128 * Power(|bytes| - 1)
  {
    if |bytes| > 1 { TopByte(bytes[1..]); }
  }

  lemma {:induction false} ArrangedTwice(order: ByteOrder, bytes: seq<Byte>)
    ensures Arranged(order, Arranged(order, bytes)) == bytes
  {
    ReversedTwice(bytes);
  }

  lemma PowerBounds()
    ensures Power(1) == 256 && Power(2) == 0x1_0000 && Power(4) == 0x1_0000_0000
    ensures Power(7) == 0x100_0000_0000_0000 && Power(8) == 0x1_0000_0000_0000_0000
  {
    assert Power(3) == 0x100_0000 && Power(5) == 0x100_0000_0000 && Power(6) == 0x1_0000_0000_0000;
  }

  /** Reading back a written integer gives it back, but for negative eight-byte
    * values, which can be written and never read. */
  lemma {:induction false} ReadWritten(value: int, width: nat, order: ByteOrder, signed: bool)
    requires width in {1, 2, 4, 8} && Fits(value, width, signed)
    requires signed || value < 0x8000_0000_0000_0000
    ensures ReadInteger(WriteInteger(value, width, order, signed).value, order, signed) ==
            if width == 8 && value < 0 then None else Some(value)
  {
    PowerBounds();
    var n := if value < 0 then value + Power(width) else value;
    var little := ToLittle(n, width);
    assert Power(width) == 256 * Power(width - 1);
    FromToLittle(n, width);
    ArrangedTwice(order, little);
    TopByte(little);
  }

  /** And writing what was read gives the same bytes. */
  lemma {:induction false} WriteRead(bytes: seq<Byte>, order: ByteOrder, signed: bool)
    requires |bytes| in {1, 2, 4, 8} && ReadInteger(bytes, order, signed).Some?
    ensures WriteInteger(ReadInteger(bytes, order, signed).value, |bytes|, order, signed) == Some(bytes)
  {
    PowerBounds();
    var little := Arranged(order, bytes);
    var n := FromLittle(little);
    assert Power(|bytes|) == 256 * Power(|bytes| - 1);
    TopByte(little);
    ToFromLittle(little);
    ArrangedTwice(order, bytes);
  }

  // ----------------------------------------------------------------- bit masks

  predicate Bit(n: nat, k: nat)
    decreases k
  {
    if k == 0 then n % 2 == 1 else Bit(n / 2, k - 1)
  }

  lemma {:induction false} ZeroBit(k: nat)
    ensures !Bit(0, k)
    decreases k
  {
    if k > 0 { ZeroBit(k - 1); }
  }

  lemma {:induction false} SameBits(a: nat, b: nat, bits: nat)
    requires a < Two(bits) && b < Two(bits)
    requires forall k :: 0 <= k < bits ==> Bit(a, k) == Bit(b, k)
    ensures a == b
    decreases bits
  {
    if bits > 0 {
      assert Bit(a, 0) == Bit(b, 0);
      forall k | 0 <= k < bits - 1 ensures Bit(a / 2, k) == Bit(b / 2, k) {
        assert Bit(a, k + 1) == Bit(b, k + 1);
      }
      SameBits(a / 2, b / 2, bits - 1);
    }
  }

  predicate SameByteBits(a: Byte, b: Byte) {
    forall k :: 0 <= k < 8 ==> Bit(a, k) == Bit(b, k)
  }

  lemma {:induction false} ByteBits(a: Byte, b: Byte)
    requires SameByteBits(a, b)
    ensures a == b
  {
    ByteIsEightBits();
    SameBits(a, b, 8);
  }

  lemma {:induction false} ByteIsEightBits()
    ensures Two(8) == 256
  {
    PowerIsTwo(1);
    PowerBounds();
  }

  function And(a: nat, b: nat): nat {
    if a == 0 then 0 else (if a % 2 == 1 && b % 2 == 1 then 1 else 0) + 2 * And(a / 2, b / 2)
  }

  /** The bits of `raw` inside `mask` and those of `previous` outside it. */
  function Merge(previous: nat, raw: nat, mask: nat): nat
    decreases previous + raw
  {
    if previous == 0 && raw == 0 then 0
    else (if mask % 2 == 1 then raw % 2 else previous % 2) + 2 * Merge(previous / 2, raw / 2, mask / 2)
  }

  lemma {:induction false} AndHalves(a: nat, b: nat)
    ensures And(a, b) == (if a % 2 == 1 && b % 2 == 1 then 1 else 0) + 2 * And(a / 2, b / 2)
    ensures And(a, b) % 2 == (if a % 2 == 1 && b % 2 == 1 then 1 else 0)
    ensures And(a, b) / 2 == And(a / 2, b / 2)
  {
    BitAndRest(And(a, b), if a % 2 == 1 && b % 2 == 1 then 1 else 0, And(a / 2, b / 2));
  }

  lemma {:induction false} BitAndRest(n: nat, bit: nat, rest: nat)
    requires bit < 2 && n == bit + 2 * rest
    ensures n % 2 == bit && n / 2 == rest
  {
  }

  lemma {:induction false} MergeHalves(p: nat, r: nat, m: nat)
    ensures Merge(p, r, m) == (if m % 2 == 1 then r % 2 else p % 2) + 2 * Merge(p / 2, r / 2, m / 2)
    ensures Merge(p, r, m) % 2 == (if m % 2 == 1 then r % 2 else p % 2)
    ensures Merge(p, r, m) / 2 == Merge(p / 2, r / 2, m / 2)
  {
    BitAndRest(Merge(p, r, m), if m % 2 == 1 then r % 2 else p % 2, Merge(p / 2, r / 2, m / 2));
  }

  /** Reading the masked bits of a merge gives the merged-in value. */
  lemma {:induction false} AndMerge(p: nat, r: nat, m: nat)
    ensures And(Merge(p, r, m), m) == And(r, m)
    decreases p + r
  {
    MergeHalves(p, r, m);
    AndHalves(Merge(p, r, m), m);
    AndHalves(r, m);
    if p != 0 || r != 0 { AndMerge(p / 2, r / 2, m / 2); }
  }

  /** Merging a value's own masked bits back in changes nothing. */
  lemma {:induction false} MergeOwn(p: nat, m: nat)
    ensures Merge(p, And(p, m), m) == p
    decreases p
  {
    MergeHalves(p, And(p, m), m);
    AndHalves(p, m);
    if p != 0 {
      MergeOwn(p / 2, m / 2);
    }
  }

  /** A second merge under the same mask forgets the first. */
  lemma {:induction false} MergeMerge(p: nat, r: nat, s: nat, m: nat)
    ensures Merge(Merge(p, r, m), s, m) == Merge(p, s, m)
    decreases p + r + s
  {
    MergeHalves(p, r, m);
    MergeHalves(Merge(p, r, m), s, m);
    MergeHalves(p, s, m);
    if p != 0 || r != 0 || s != 0 {
      MergeMerge(p / 2, r / 2, s / 2, m / 2);
    }
  }

  lemma {:induction false} MergeBound(p: nat, r: nat, m: nat, bits: nat, bound: nat)
    requires bound == Two(bits) && p < bound && r < bound
    ensures Merge(p, r, m) < bound
    decreases bits
  {
    if bits > 0 {
      MergeHalves(p, r, m);
      MergeBound(p / 2, r / 2, m / 2, bits - 1, Two(bits - 1));
    }
  }

  function Two(n: nat): nat { if n == 0 then 1 else 2 * Two(n - 1) }

  lemma {:induction false} PowerIsTwo(n: nat)
    ensures Power(n) == Two(8 * n)
  {
    if n > 0 {
      PowerIsTwo(n - 1);
      var k := 8 * (n - 1);
      assert Two(k + 8) == 2 * Two(k + 7) && Two(k + 7) == 2 * Two(k + 6) && Two(k + 6) == 2 * Two(k + 5)
          && Two(k + 5) == 2 * Two(k + 4);
      assert Two(k + 4) == 2 * Two(k + 3) && Two(k + 3) == 2 * Two(k + 2) && Two(k + 2) == 2 * Two(k + 1)
          && Two(k + 1) == 2 * Two(k);
    }
  }

  /** Bits two controls do not share: writing one leaves the other as it was. */
  lemma {:induction false} MergeElsewhere(p: nat, r: nat, m: nat, other: nat)
    requires And(m, other) == 0
    ensures And(Merge(p, r, m), other) == And(p, other)
    decreases p + r
  {
    MergeHalves(p, r, m);
    AndHalves(Merge(p, r, m), other);
    AndHalves(p, other);
    AndHalves(m, other);
    if p != 0 || r != 0 { MergeElsewhere(p / 2, r / 2, m / 2, other / 2); }
  }

  // -------------------------------------------------------------------- codec

  function FieldOf(c: Control, payload: seq<Byte>): (r: seq<Byte>)
    requires |payload| == c.length && c.offset + c.width <= c.length
    ensures |r| == c.width
  {
    payload[c.offset..c.offset + c.width]
  }

  function WithField(c: Control, payload: seq<Byte>, field: seq<Byte>): (r: seq<Byte>)
    requires |payload| == c.length && c.offset + c.width <= c.length && |field| == c.width
    ensures |r| == c.length && FieldOf(c, r) == field
    ensures forall i :: 0 <= i < c.length && !(c.offset <= i < c.offset + c.width) ==> r[i] == payload[i]
  {
    payload[..c.offset] + field + payload[c.offset + c.width..]
  }

  /** The raw integer a payload holds for this control. */
  function Raw(c: Control, payload: seq<Byte>): Option<int>
    requires Validated(c) && |payload| == c.length
  {
    var raw := ReadInteger(FieldOf(c, payload), c.order, c.kind.Signed?);
    if raw.Some? && c.mask.Some? && raw.value >= 0 then Some(And(raw.value, c.mask.value)) else raw
  }

  function FirstNamed(values: seq<Entry>, raw: int): Option<string> {
    if values == [] then None
    else if values[0].value == raw then Some(values[0].name)
    else FirstNamed(values[1..], raw)
  }

  function Lookup(values: seq<Entry>, name: string): Option<int> {
    if values == [] then None
    else if values[0].name == name then Some(values[0].value)
    else Lookup(values[1..], name)
  }

  /** How a raw integer reads: the first name of an enum value, else the number. */
  function Meaning(c: Control, raw: int): Value {
    match c.kind
    case Boolean => Flag(raw != 0)
    case Enum => (var name := FirstNamed(c.values, raw); if name.Some? then Name(name.value) else Number(raw))
    case Unsigned => Number(raw)
    case Signed => Number(raw)
  }

  function Decode(c: Control, payload: seq<Byte>): Option<Value>
    requires Validated(c)
  {
    if |payload| != c.length then None
    else
      var raw := Raw(c, payload);
      if raw.None? then None else Some(Meaning(c, raw.value))
  }

  function Parse(c: Control, input: Value): Option<int> {
    match c.kind
    case Boolean => if input.Flag? then Some(if input.on then 1 else 0) else None
    case Enum => if input.Name? then Lookup(c.values, input.name) else None
    case Unsigned => if input.Number? then Some(input.number) else None
    case Signed => if input.Number? then Some(input.number) else None
  }

  predicate InRange(c: Control, raw: int)
    requires Validated(c)
  {
    c.range.Some? ==>
      var r := c.range.value;
      r.minimum <= raw <= r.maximum && (r.step.Some? ==> (raw - r.minimum) % r.step.value == 0)
  }

  function XorBits(a: nat, b: nat): nat {
    if a == 0 then b else (if a % 2 == b % 2 then 0 else 1) + 2 * XorBits(a / 2, b / 2)
  }

  lemma {:induction false} XorBound(a: nat, b: nat, bits: nat, bound: nat)
    requires bound == Two(bits) && a < bound && b < bound
    ensures XorBits(a, b) < bound
    decreases bits
  {
    if a != 0 { XorBound(a / 2, b / 2, bits - 1, Two(bits - 1)); }
  }

  function Xor(a: Byte, b: Byte): Byte {
    ByteIsEightBits();
    XorBound(a, b, 8, 256);
    XorBits(a, b)
  }

  lemma {:induction false} XorBit(a: nat, b: nat, k: nat)
    ensures Bit(XorBits(a, b), k) <==> Bit(a, k) != Bit(b, k)
    decreases k
  {
    if a == 0 {
      ZeroBit(k);
    } else {
      BitAndRest(XorBits(a, b), if a % 2 == b % 2 then 0 else 1, XorBits(a / 2, b / 2));
      if k > 0 { XorBit(a / 2, b / 2, k - 1); }
    }
  }

  function Absorbed(algorithm: Algorithm, sum: Byte, byte: Byte): Byte {
    match algorithm
    case Sum8 => (sum + byte) % 256
    case Xor8 => Xor(sum, byte)
  }

  /** The running checksum, byte after byte. */
  function Folded(algorithm: Algorithm, sum: Byte, bytes: seq<Byte>): Byte
    decreases |bytes|
  {
    if bytes == [] then sum else Folded(algorithm, Absorbed(algorithm, sum, bytes[0]), bytes[1..])
  }

  function Checksum(algorithm: Algorithm, bytes: seq<Byte>): Byte { Folded(algorithm, 0, bytes) }

  function Total(bytes: seq<Byte>): nat { if bytes == [] then 0 else bytes[0] + Total(bytes[1..]) }

  /** How many of the bytes have bit `k`. */
  function Ones(bytes: seq<Byte>, k: nat): nat {
    if bytes == [] then 0 else (if Bit(bytes[0], k) then 1 else 0) + Ones(bytes[1..], k)
  }

  /** The total of the bytes to eight bits, or the parity of each bit. */
  predicate Sums(algorithm: Algorithm, bytes: seq<Byte>, sum: Byte) {
    match algorithm
    case Sum8 => sum == Total(bytes) % 256
    case Xor8 => forall k :: 0 <= k < 8 ==> (Bit(sum, k) <==> Ones(bytes, k) % 2 == 1)
  }

  lemma {:induction false} WrapOnce(n: nat, more: nat)
    ensures (n % 256 + more) % 256 == (n + more) % 256
  {
  }

  lemma {:induction false} FoldedTotal(sum: Byte, bytes: seq<Byte>)
    ensures Folded(Sum8, sum, bytes) == (sum + Total(bytes)) % 256
    decreases |bytes|
  {
    if bytes != [] {
      FoldedTotal(Absorbed(Sum8, sum, bytes[0]), bytes[1..]);
      WrapOnce(sum + bytes[0], Total(bytes[1..]));
    }
  }

  lemma {:induction false} FoldedBit(sum: Byte, bytes: seq<Byte>, k: nat)
    ensures Bit(Folded(Xor8, sum, bytes), k) <==> (Bit(sum, k) <==> Ones(bytes, k) % 2 == 0)
    decreases |bytes|
  {
    if bytes != [] {
      XorBit(sum, bytes[0], k);
      FoldedBit(Absorbed(Xor8, sum, bytes[0]), bytes[1..], k);
    }
  }

  /** The running checksum is the one byte with that total, or that parity. */
  lemma {:induction false} ChecksumExact(algorithm: Algorithm, bytes: seq<Byte>, sum: Byte)
    ensures Sums(algorithm, bytes, sum) <==> sum == Checksum(algorithm, bytes)
  {
    match algorithm
    case Sum8 => FoldedTotal(0, bytes);
    case Xor8 =>
      forall k | 0 <= k < 8 ensures Bit(Checksum(Xor8, bytes), k) <==> Ones(bytes, k) % 2 == 1 {
        ZeroBit(k);
        FoldedBit(0, bytes, k);
      }
      if Sums(algorithm, bytes, sum) { ByteBits(sum, Checksum(Xor8, bytes)); }
  }

  function Zeros(n: nat): (r: seq<Byte>)
    ensures |r| == n && forall i :: 0 <= i < n ==> r[i] == 0
  {
    seq(n, _ => 0)
  }

  /** The payload around the field, before the field is written. */
  function Scaffold(c: Control, current: seq<Byte>): (r: seq<Byte>)
    requires Validated(c) && |current| == c.length
    ensures |r| == c.length
  {
    match c.tail
    case Preserve => current
    case Zero => Zeros(c.length)
    case Computed(_) => Zeros(c.length)
    case Fixed(hex) => Zeros(c.offset + c.width) + hex
    case Template(hex) => hex
  }

  function Seal(c: Control, payload: seq<Byte>): (r: seq<Byte>)
    requires Validated(c) && |payload| == c.length
    ensures |r| == c.length
  {
    if c.tail.Computed? then payload[..c.length - 1] + [Checksum(c.tail.algorithm, payload[..c.length - 1])]
    else payload
  }

  /** The complete payload for one raw value over a baseline. */
  function EncodeRaw(c: Control, raw: int, current: seq<Byte>): (r: Option<seq<Byte>>)
    requires Validated(c) && |current| == c.length
    ensures r.Some? ==> |r.value| == c.length
  {
    var previous := ReadInteger(FieldOf(c, current), c.order, false);
    if !InRange(c, raw) || (c.mask.Some? && (previous.None? || raw < 0)) then None
    else
      var merged := if c.mask.Some? then Merge(previous.value, raw, c.mask.value) else raw;
      var field := WriteInteger(merged, c.width, c.order, c.kind.Signed?);
      if field.None? then None else Some(Seal(c, WithField(c, Scaffold(c, current), field.value)))
  }

  function Encode(c: Control, input: Value, current: seq<Byte>): (r: Option<seq<Byte>>)
    requires Validated(c)
    ensures r.Some? ==> |r.value| == c.length == |current|
  {
    var raw := Parse(c, input);
    if raw.None? || |current| != c.length then None else EncodeRaw(c, raw.value, current)
  }

  // ---------------------------------------------------------------- lens laws

  lemma {:induction false} NamedLooksUp(values: seq<Entry>, raw: int)
    requires forall i, j :: 0 <= i < j < |values| ==> values[i].name != values[j].name
    ensures var name := FirstNamed(values, raw); name.Some? ==> Lookup(values, name.value) == Some(raw)
    ensures FirstNamed(values, raw).Some? <==> exists e :: e in values && e.value == raw
  {
    if values != [] {
      NamedLooksUp(values[1..], raw);
      var name := FirstNamed(values[1..], raw);
      if name.Some? { FirstNamedMember(values[1..], raw); }
      if values[0].value == raw { assert values[0] in values; }
    }
  }

  lemma {:induction false} FirstNamedMember(values: seq<Entry>, raw: int)
    requires FirstNamed(values, raw).Some?
    ensures exists i :: 0 <= i < |values| && values[i].name == FirstNamed(values, raw).value
  {
    if values[0].value != raw {
      FirstNamedMember(values[1..], raw);
      var i :| 0 <= i < |values| - 1 && values[1..][i].name == FirstNamed(values[1..], raw).value;
      assert values[i + 1].name == FirstNamed(values, raw).value;
    } else {
      assert values[0].name == FirstNamed(values, raw).value;
    }
  }

  lemma {:induction false} LookupMember(values: seq<Entry>, name: string)
    requires Lookup(values, name).Some?
    ensures exists e :: e in values && e.value == Lookup(values, name).value
  {
    if values[0].name != name { LookupMember(values[1..], name); } else { assert values[0] in values; }
  }

  lemma {:induction false} SealKeepsField(c: Control, payload: seq<Byte>)
    requires Validated(c) && |payload| == c.length
    ensures FieldOf(c, Seal(c, payload)) == FieldOf(c, payload)
  {}

  /** The values a profile admits: inside the verified range and a whole number of
    * steps above its minimum. */
  ghost predicate Admits(range: Option<Range>, raw: int) {
    range.Some? ==>
      && range.value.minimum <= raw <= range.value.maximum
      && (range.value.step.Some? ==> exists k :: raw == range.value.minimum + k * range.value.step.value)
  }

  lemma {:induction false} TimesMonotone(x: int, y: int, d: nat)
    requires x <= y
    ensures x * d <= y * d
  {
  }

  lemma {:induction false} MultipleMod(k: int, d: nat)
    requires d > 0
    ensures (k * d) % d == 0
  {
    var n := k * d;
    assert n == (n / d) * d + n % d;
    if k > n / d { TimesMonotone(n / d + 1, k, d); }
    if k < n / d { TimesMonotone(k + 1, n / d, d); }
  }

  lemma {:induction false} StepsExact(raw: int, minimum: int, step: nat)
    requires step > 0
    ensures (raw - minimum) % step == 0 <==> exists k :: raw == minimum + k * step
  {
    if (raw - minimum) % step == 0 {
      assert raw == minimum + ((raw - minimum) / step) * step;
    }
    if k :| raw == minimum + k * step { MultipleMod(k, step); }
  }

  lemma {:induction false} AdmitsExact(c: Control, raw: int)
    requires Validated(c)
    ensures InRange(c, raw) <==> Admits(c.range, raw)
  {
    if c.range.Some? && c.range.value.step.Some? {
      StepsExact(raw, c.range.value.minimum, c.range.value.step.value);
    }
  }

  lemma {:induction false} MaskedAccepts(c: Control, raw: int, current: seq<Byte>)
    requires Validated(c) && |current| == c.length && c.mask.Some? && exists e :: e in c.values && e.value == raw
    ensures EncodeRaw(c, raw, current).Some? <==> ReadInteger(FieldOf(c, current), c.order, false).Some?
  {
    if ReadInteger(FieldOf(c, current), c.order, false).Some? { MergedFits(c, current, raw); }
  }

  lemma {:induction false} PlainAccepts(c: Control, raw: int, current: seq<Byte>)
    requires Validated(c) && |current| == c.length && c.mask.None?
    ensures EncodeRaw(c, raw, current).Some? <==> Admits(c.range, raw) && Fits(raw, c.width, c.kind.Signed?)
  {
    AdmitsExact(c, raw);
  }

  /** A value is encoded exactly when the baseline has the length of the control,
    * the value is one of its kind and admitted by its range, and it fits the
    * width; under a mask, when the field found can be read. */
  lemma {:induction false} EncodeExact(c: Control, input: Value, current: seq<Byte>)
    requires Validated(c)
    ensures Encode(c, input, current).Some? <==>
              && |current| == c.length && Parse(c, input).Some? && Admits(c.range, Parse(c, input).value)
              && (if c.mask.Some? then ReadInteger(FieldOf(c, current), c.order, false).Some?
                  else if c.kind.Signed? then
                    -128 * Power(c.width - 1) <= Parse(c, input).value < 128 * Power(c.width - 1)
                  else 0 <= Parse(c, input).value < Power(c.width))
  {
    if Parse(c, input).Some? && |current| == c.length {
      if c.mask.Some? {
        LookupMember(c.values, input.name);
        MaskedAccepts(c, Parse(c, input).value, current);
      } else {
        PlainAccepts(c, Parse(c, input).value, current);
      }
    }
  }

  /** What a raw value can be for its meaning to parse back to it. */
  predicate Nameable(c: Control, raw: int) {
    match c.kind
    case Boolean => raw == 0 || raw == 1
    case Enum => exists e :: e in c.values && e.value == raw
    case Unsigned => true
    case Signed => true
  }

  lemma {:induction false} MeaningParses(c: Control, raw: int)
    requires Validated(c)
    ensures Parse(c, Meaning(c, raw)) == Some(raw) <==> Nameable(c, raw)
  {
    if c.kind.Enum? { NamedLooksUp(c.values, raw); }
  }

  lemma {:induction false} ParsedIsNameable(c: Control, input: Value)
    requires Validated(c) && Parse(c, input).Some?
    ensures Nameable(c, Parse(c, input).value)
  {
    if c.kind.Enum? { LookupMember(c.values, input.name); }
  }

  /** Reading after writing: the payload means what was asked for.  Negative
    * eight-byte signed values are the one family that does not read back. */
  lemma {:induction false} ReadAfterWrite(c: Control, input: Value, current: seq<Byte>)
    requires Validated(c) && Encode(c, input, current).Some?
    requires Parse(c, input).value < 0x8000_0000_0000_0000
    ensures Decode(c, Encode(c, input, current).value) ==
            if c.width == 8 && Parse(c, input).value < 0 then None else Some(Meaning(c, Parse(c, input).value))
  {
    var raw := Parse(c, input).value;
    var previous := ReadInteger(FieldOf(c, current), c.order, false);
    PowerBounds();
    var merged := if c.mask.Some? then Merge(previous.value, raw, c.mask.value) else raw;
    if c.mask.Some? {
      LookupMember(c.values, input.name);
      MergedFits(c, current, raw);
      AndMerge(previous.value, raw, c.mask.value);
      assert And(raw, c.mask.value) == raw;
    }
    ReadWritten(merged, c.width, c.order, c.kind.Signed?);
    var field := WriteInteger(merged, c.width, c.order, c.kind.Signed?).value;
    SealKeepsField(c, WithField(c, Scaffold(c, current), field));
  }

  lemma {:induction false} MergedFits(c: Control, current: seq<Byte>, raw: nat)
    requires Validated(c) && |current| == c.length && c.mask.Some?
    requires ReadInteger(FieldOf(c, current), c.order, false).Some?
    requires exists e :: e in c.values && e.value == raw
    ensures var previous := ReadInteger(FieldOf(c, current), c.order, false).value;
            var merged := Merge(previous, raw, c.mask.value);
            merged < Power(c.width) && merged < 0x8000_0000_0000_0000
  {
    PowerBounds();
    var previous := ReadInteger(FieldOf(c, current), c.order, false).value;
    PowerIsTwo(c.width);
    MaskedBound(raw, c.mask.value);
    MergeBound(previous, raw, c.mask.value, 8 * c.width, Power(c.width));
    if c.width == 8 {
      assert Two(64) == 2 * Two(63);
      MergeBound(previous, raw, c.mask.value, 63, Two(63));
    }
  }

  lemma {:induction false} MaskedBound(raw: nat, mask: nat)
    ensures And(raw, mask) <= mask
    decreases raw
  {
    AndHalves(raw, mask);
    if raw != 0 {
      MaskedBound(raw / 2, mask / 2);
    }
  }

  /** Byte `i` outside the field of a payload written over `current`. */
  predicate AroundAt(c: Control, current: seq<Byte>, payload: seq<Byte>, i: nat)
    requires Validated(c) && |current| == |payload| == c.length
    requires i < c.length && !(c.offset <= i < c.offset + c.width)
  {
    match c.tail
    case Preserve => payload[i] == current[i]
    case Zero => payload[i] == 0
    case Fixed(hex) => payload[i] == if i < c.offset then 0 else hex[i - c.offset - c.width]
    case Template(hex) => payload[i] == hex[i]
    case Computed(algorithm) =>
      if i < c.length - 1 then payload[i] == 0 else Sums(algorithm, payload[..i], payload[i])
  }

  /** Outside its field the payload is what the tail policy says, byte for byte. */
  predicate Around(c: Control, current: seq<Byte>, payload: seq<Byte>)
    requires Validated(c) && |current| == |payload| == c.length
  {
    forall i :: 0 <= i < c.length && !(c.offset <= i < c.offset + c.width) ==> AroundAt(c, current, payload, i)
  }

  /** The bytes a control can be put back to: a nameable value in the verified
    * range, inside a tail of the shape the control writes. */
  predicate Faithful(c: Control, b: seq<Byte>)
    requires Validated(c)
  {
    && |b| == c.length && Raw(c, b).Some?
    && Nameable(c, Raw(c, b).value) && InRange(c, Raw(c, b).value) && Around(c, b, b)
  }

  lemma {:induction false} WithFieldAt(c: Control, payload: seq<Byte>, field: seq<Byte>, i: nat)
    requires |payload| == c.length && c.offset + c.width <= c.length && |field| == c.width && i < c.length
    ensures WithField(c, payload, field)[i] == if c.offset <= i < c.offset + c.width then field[i - c.offset]
            else payload[i]
  {
  }

  lemma {:induction false} SealAt(c: Control, payload: seq<Byte>, i: nat)
    requires Validated(c) && |payload| == c.length && i < c.length
    ensures Seal(c, payload)[i] ==
            if c.tail.Computed? && i == c.length - 1 then Checksum(c.tail.algorithm, payload[..c.length - 1])
            else payload[i]
  {
  }

  lemma {:induction false} SealedLast(c: Control, current: seq<Byte>, placed: seq<Byte>, payload: seq<Byte>)
    requires Validated(c) && |current| == |placed| == |payload| == c.length && c.tail.Computed?
    requires payload[..c.length - 1] == placed[..c.length - 1]
    ensures payload[c.length - 1] == Seal(c, placed)[c.length - 1] <==> AroundAt(c, current, payload, c.length - 1)
  {
    ChecksumExact(c.tail.algorithm, payload[..c.length - 1], payload[c.length - 1]);
  }

  lemma {:induction false} FieldAt(c: Control, payload: seq<Byte>, i: nat)
    requires |payload| == c.length && c.offset <= i < c.offset + c.width <= c.length
    ensures FieldOf(c, payload)[i - c.offset] == payload[i]
  {
    assert payload[c.offset..c.offset + c.width][i - c.offset] == payload[i];
  }

  lemma {:induction false} PlacedAt(c: Control, current: seq<Byte>, field: seq<Byte>, payload: seq<Byte>, i: nat)
    requires Validated(c) && |current| == |payload| == c.length && |field| == c.width && FieldOf(c, payload) == field
    requires i < c.length && !(c.tail.Computed? && i == c.length - 1)
    ensures var placed := WithField(c, Scaffold(c, current), field);
            && Seal(c, placed)[i] == placed[i]
            && (payload[i] == placed[i] <==>
                  (c.offset <= i < c.offset + c.width || AroundAt(c, current, payload, i)))
  {
    SealAt(c, WithField(c, Scaffold(c, current), field), i);
    WithFieldAt(c, Scaffold(c, current), field, i);
    if c.offset <= i < c.offset + c.width {
      FieldAt(c, payload, i);
    }
  }

  lemma {:induction false} AroundIsSealed(c: Control, current: seq<Byte>, field: seq<Byte>, payload: seq<Byte>)
    requires Validated(c) && |current| == |payload| == c.length && |field| == c.width && FieldOf(c, payload) == field
    requires Around(c, current, payload)
    ensures payload == Seal(c, WithField(c, Scaffold(c, current), field))
  {
    var placed := WithField(c, Scaffold(c, current), field);
    forall i | 0 <= i < c.length && !(c.tail.Computed? && i == c.length - 1)
      ensures payload[i] == placed[i] == Seal(c, placed)[i]
    {
      PlacedAt(c, current, field, payload, i);
    }
    if c.tail.Computed? { SealedLast(c, current, placed, payload); }
  }

  lemma {:induction false} SealedIsAround(c: Control, current: seq<Byte>, field: seq<Byte>)
    requires Validated(c) && |current| == c.length && |field| == c.width
    ensures Around(c, current, Seal(c, WithField(c, Scaffold(c, current), field)))
  {
    var placed := WithField(c, Scaffold(c, current), field);
    var payload := Seal(c, placed);
    SealKeepsField(c, placed);
    forall i | 0 <= i < c.length && !(c.offset <= i < c.offset + c.width) ensures AroundAt(c, current, payload, i) {
      if c.tail.Computed? && i == c.length - 1 {
        SealedLast(c, current, placed, payload);
      } else {
        PlacedAt(c, current, field, payload, i);
      }
    }
  }

  /** The one payload with a given field that is as the tail policy says: the
    * scaffold with the field in place and sealed. */
  lemma {:induction false} AroundExact(c: Control, current: seq<Byte>, field: seq<Byte>, payload: seq<Byte>)
    requires Validated(c) && |current| == |payload| == c.length && |field| == c.width && FieldOf(c, payload) == field
    ensures payload == Seal(c, WithField(c, Scaffold(c, current), field)) <==> Around(c, current, payload)
  {
    SealedIsAround(c, current, field);
    if Around(c, current, payload) { AroundIsSealed(c, current, field, payload); }
  }

  /** Every byte outside the field of an encoded payload. */
  lemma {:induction false} EncodedAround(c: Control, input: Value, current: seq<Byte>)
    requires Validated(c) && Encode(c, input, current).Some?
    ensures Around(c, current, Encode(c, input, current).value)
  {
    var raw := Parse(c, input).value;
    var field := WriteInteger(Merged(c, raw, current), c.width, c.order, c.kind.Signed?).value;
    SealedIsAround(c, current, field);
  }

  /** Writing the raw value a payload already holds. */
  lemma {:induction false} EncodeOwnRaw(c: Control, b: seq<Byte>)
    requires Validated(c) && |b| == c.length && Raw(c, b).Some?
    ensures EncodeRaw(c, Raw(c, b).value, b) ==
            if InRange(c, Raw(c, b).value) then Some(Seal(c, WithField(c, Scaffold(c, b), FieldOf(c, b)))) else None
  {
    WriteRead(FieldOf(c, b), c.order, c.kind.Signed?);
    if c.mask.Some? {
      MergeOwn(ReadInteger(FieldOf(c, b), c.order, false).value, c.mask.value);
    }
  }

  /** Putting a decoded value back over its own bytes restores them exactly when
    * those bytes are faithful. */
  lemma {:induction false} PutBackExact(c: Control, b: seq<Byte>)
    requires Validated(c) && Decode(c, b).Some?
    ensures Encode(c, Decode(c, b).value, b) == Some(b) <==> Faithful(c, b)
  {
    var raw := Raw(c, b).value;
    MeaningParses(c, raw);
    EncodeOwnRaw(c, b);
    AroundExact(c, b, FieldOf(c, b), b);
    if !Nameable(c, raw) && c.kind.Boolean? && Encode(c, Flag(true), b).Some? {
      PowerBounds();
      ReadWritten(1, c.width, c.order, false);
      SealKeepsField(c, WithField(c, Scaffold(c, b), WriteInteger(1, c.width, c.order, false).value));
    }
    if !Nameable(c, raw) && c.kind.Enum? {
      NamedLooksUp(c.values, raw);
    }
  }

  lemma {:induction false} ScaffoldStable(c: Control, b: seq<Byte>, field: seq<Byte>, next: seq<Byte>)
    requires Validated(c) && |b| == c.length && |field| == |next| == c.width
    ensures var p := Seal(c, WithField(c, Scaffold(c, b), field));
            WithField(c, Scaffold(c, p), next) == WithField(c, Scaffold(c, b), next)
  {}

  /** What the field holds once a raw value is merged in. */
  function Merged(c: Control, raw: int, b: seq<Byte>): int
    requires Validated(c) && |b| == c.length
  {
    var previous := ReadInteger(FieldOf(c, b), c.order, false);
    if c.mask.Some? && previous.Some? && raw >= 0 then Merge(previous.value, raw, c.mask.value) else raw
  }

  lemma {:induction false} MergedReads(c: Control, raw: int, b: seq<Byte>)
    requires Validated(c) && |b| == c.length && EncodeRaw(c, raw, b).Some? && c.mask.Some?
    requires exists e :: e in c.values && e.value == raw
    ensures ReadInteger(FieldOf(c, EncodeRaw(c, raw, b).value), c.order, false) == Some(Merged(c, raw, b))
  {
    MergedFits(c, b, raw);
    PowerBounds();
    ReadWritten(Merged(c, raw, b), c.width, c.order, false);
    SealKeepsField(c, WithField(c, Scaffold(c, b), WriteInteger(Merged(c, raw, b), c.width, c.order, false).value));
  }

  lemma {:induction false} EncodeRawTwice(c: Control, raw: int, again: int, b: seq<Byte>)
    requires Validated(c) && |b| == c.length && EncodeRaw(c, raw, b).Some?
    requires c.mask.Some? ==> exists e :: e in c.values && e.value == raw
    ensures EncodeRaw(c, again, EncodeRaw(c, raw, b).value) == EncodeRaw(c, again, b)
  {
    var p := EncodeRaw(c, raw, b).value;
    if c.mask.Some? && again >= 0 {
      MergedReads(c, raw, b);
      MergeMerge(ReadInteger(FieldOf(c, b), c.order, false).value, raw, again, c.mask.value);
      assert Merged(c, again, p) == Merged(c, again, b);
    } else if c.mask.Some? {
      MergedReads(c, raw, b);
    }
    var next := Merged(c, again, b);
    if Fits(next, c.width, c.kind.Signed?) {
      ScaffoldStable(c, b, WriteInteger(Merged(c, raw, b), c.width, c.order, c.kind.Signed?).value,
                     WriteInteger(next, c.width, c.order, c.kind.Signed?).value);
    }
  }

  /** A later write forgets an earlier one to the same control. */
  lemma {:induction false} LastWriteWins(c: Control, first: Value, second: Value, b: seq<Byte>)
    requires Validated(c) && Encode(c, first, b).Some?
    ensures Encode(c, second, Encode(c, first, b).value) == Encode(c, second, b)
  {
    if Parse(c, second).Some? {
      if c.mask.Some? { LookupMember(c.values, first.name); }
      EncodeRawTwice(c, Parse(c, first).value, Parse(c, second).value, b);
    }
  }

  /** A value that decodes again is within the signed 64-bit range. */
  lemma {:induction false} DecodableFits(c: Control, input: Value, b: seq<Byte>)
    requires Validated(c) && Encode(c, input, b).Some? && Decode(c, Encode(c, input, b).value).Some?
    ensures Parse(c, input).value < 0x8000_0000_0000_0000
  {
    var raw := Parse(c, input).value;
    PowerBounds();
    if c.mask.Some? {
      LookupMember(c.values, input.name);
      MaskedBound(raw, c.mask.value);
    } else if c.width == 8 && !c.kind.Signed? {
      var field := WriteInteger(raw, c.width, c.order, false).value;
      SealKeepsField(c, WithField(c, Scaffold(c, b), field));
      ArrangedTwice(c.order, ToLittle(raw, 8));
      FromToLittle(raw, 8);
    }
  }

  /** A write whose value already reads the same changes no byte exactly when
    * the bytes it starts from are faithful: this is when a no-op may be skipped. */
  lemma {:induction false} SkippableExact(c: Control, input: Value, b: seq<Byte>)
    requires Validated(c) && Encode(c, input, b).Some?
    requires Decode(c, b).Some? && Decode(c, Encode(c, input, b).value) == Decode(c, b)
    ensures Encode(c, input, b) == Some(b) <==> Faithful(c, b)
  {
    DecodableFits(c, input, b);
    ReadAfterWrite(c, input, b);
    ParsedIsNameable(c, input);
    MeaningParses(c, Parse(c, input).value);
    PutBackExact(c, b);
  }

  /** Two fields that share a selector without sharing a bit: masks of one
    * integer that do not overlap, or disjoint byte ranges under `Preserve`. */
  predicate Apart(c: Control, other: Control) {
    && c.length == other.length && c.tail.Preserve?
    && (|| c.offset + c.width <= other.offset
        || other.offset + other.width <= c.offset
        || (&& c.offset == other.offset && c.width == other.width && c.order == other.order
            && c.mask.Some? && other.mask.Some? && And(c.mask.value, other.mask.value) == 0))
  }

  predicate ApartBytes(c: Control, other: Control) {
    c.offset + c.width <= other.offset || other.offset + other.width <= c.offset
  }

  lemma {:induction false} BytesElsewhere(c: Control, other: Control, raw: int, b: seq<Byte>)
    requires Validated(c) && Validated(other) && |b| == c.length == other.length && c.tail.Preserve?
             && ApartBytes(c, other)
    requires EncodeRaw(c, raw, b).Some?
    ensures FieldOf(other, EncodeRaw(c, raw, b).value) == FieldOf(other, b)
  {
    var field := WriteInteger(Merged(c, raw, b), c.width, c.order, c.kind.Signed?).value;
    assert EncodeRaw(c, raw, b) == Some(WithField(c, b, field));
    OtherFieldKept(c, other, b, field);
  }

  lemma {:induction false} OtherFieldKept(c: Control, other: Control, b: seq<Byte>, field: seq<Byte>)
    requires |b| == c.length == other.length && c.offset + c.width <= c.length
             && other.offset + other.width <= other.length
    requires |field| == c.width && ApartBytes(c, other)
    ensures FieldOf(other, WithField(c, b, field)) == FieldOf(other, b)
  {
    forall k | 0 <= k < other.width ensures FieldOf(other, WithField(c, b, field))[k] == FieldOf(other, b)[k] {
      WithFieldAt(c, b, field, other.offset + k);
    }
  }

  lemma {:induction false} BitsElsewhere(c: Control, other: Control, raw: int, b: seq<Byte>)
    requires Validated(c) && Validated(other) && |b| == c.length == other.length
    requires c.offset == other.offset && c.width == other.width && c.order == other.order
    requires c.mask.Some? && other.mask.Some? && And(c.mask.value, other.mask.value) == 0
    requires EncodeRaw(c, raw, b).Some? && exists e :: e in c.values && e.value == raw
    ensures Raw(other, EncodeRaw(c, raw, b).value) == Raw(other, b)
  {
    MergedReads(c, raw, b);
    MergeElsewhere(ReadInteger(FieldOf(c, b), c.order, false).value, raw, c.mask.value, other.mask.value);
  }

  lemma {:induction false} MaskedNeighbourUnchanged(c: Control, other: Control, input: Value, b: seq<Byte>)
    requires Validated(c) && Validated(other) && Apart(c, other) && !ApartBytes(c, other) && Encode(c, input, b).Some?
    ensures Decode(other, Encode(c, input, b).value) == Decode(other, b)
  {
    LookupMember(c.values, input.name);
    BitsElsewhere(c, other, Parse(c, input).value, b);
  }

  /** Writing one field leaves what any field apart from it decodes to. */
  lemma {:induction false} NeighbourUnchanged(c: Control, other: Control, input: Value, b: seq<Byte>)
    requires Validated(c) && Validated(other) && Apart(c, other) && Encode(c, input, b).Some?
    ensures Decode(other, Encode(c, input, b).value) == Decode(other, b)
  {
    if ApartBytes(c, other) {
      BytesElsewhere(c, other, Parse(c, input).value, b);
    } else {
      MaskedNeighbourUnchanged(c, other, input, b);
    }
  }

  /** A boolean byte holding 2 reads as on and cannot be put back; a control
    * with a fixed tail loses any other tail. */
  lemma {:induction false} UnfaithfulBytes() returns (flag: Control, bytes: seq<Byte>)
    ensures Validated(flag) && Decode(flag, bytes) == Some(Flag(true))
    ensures Encode(flag, Flag(true), bytes).Some? && Encode(flag, Flag(true), bytes) != Some(bytes)
  {
    flag := Control("flag", 1, 0, 1, Little, Boolean, [], None, None, Preserve);
    bytes := [2];
    assert bytes[0..1] == bytes && bytes[1..] == [];
    assert FromLittle(bytes) == 2;
    assert ReadInteger(bytes, Little, false) == Some(2);
    PowerBounds();
    PutBackExact(flag, bytes);
    assert Raw(flag, bytes) == Some(2);
  }
}
