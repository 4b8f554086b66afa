/** A payload bit by bit: which bits putting a value back restores, and which it
  * leaves as it found them. */
module CodecBits {
  import opened Wrappers
  import opened Codec

  lemma {:induction false} BitBeyondByte(n: nat, k: nat)
    ensures Bit(n, k + 8) == Bit(n / 256, k)
  {
    assert Bit(n, k + 8) == Bit(n / 2, k + 7) == Bit(n / 4, k + 6);
    assert Bit(n / 4, k + 6) == Bit(n / 8, k + 5) == Bit(n / 16, k + 4);
    assert Bit(n / 16, k + 4) == Bit(n / 32, k + 3) == Bit(n / 64, k + 2);
    assert Bit(n / 64, k + 2) == Bit(n / 128, k + 1) == Bit(n / 256, k);
  }

  lemma {:induction false} BitOfSum(a: nat, rest: nat, s: nat, k: nat)
    requires k < s
    ensures Bit(a + Two(s) * rest, k) == Bit(a, k)
    decreases s
  {
    var half := Two(s - 1) * rest;
    assert Two(s) * rest == 2 * half;
    if k > 0 {
      assert (a + 2 * half) / 2 == a / 2 + half;
      BitOfSum(a / 2, rest, s - 1, k - 1);
    }
  }

  lemma {:induction false} BitOfByte(n: nat, k: nat)
    requires k < 8
    ensures Bit(n % 256, k) == Bit(n, k)
  {
    assert Two(8) == 256 by { PowerIsTwo(1); PowerBounds(); }
    BitOfSum(n % 256, n / 256, 8, k);
  }

  /** Bit `k` of byte `j` of a little-endian integer. */
  lemma {:induction false} LittleBit(n: nat, width: nat, j: nat, k: nat)
    requires j < width && k < 8
    ensures Bit(ToLittle(n, width)[j], k) == Bit(n, 8 * j + k)
    decreases width
  {
    if j == 0 {
      BitOfByte(n, k);
    } else {
      LittleBit(n / 256, width - 1, j - 1, k);
      BitBeyondByte(n, 8 * (j - 1) + k);
    }
  }

  lemma {:induction false} ReadBit(bytes: seq<Byte>, j: nat, k: nat)
    requires j < |bytes| && k < 8
    ensures Bit(FromLittle(bytes), 8 * j + k) == Bit(bytes[j], k)
  {
    ToFromLittle(bytes);
    LittleBit(FromLittle(bytes), |bytes|, j, k);
  }

  lemma {:induction false} MergeBit(p: nat, r: nat, m: nat, k: nat)
    ensures Bit(Merge(p, r, m), k) == if Bit(m, k) then Bit(r, k) else Bit(p, k)
    decreases k
  {
    MergeHalves(p, r, m);
    if k > 0 { MergeBit(p / 2, r / 2, m / 2, k - 1); }
  }

  lemma {:induction false} AndBit(a: nat, b: nat, k: nat)
    ensures Bit(And(a, b), k) == (Bit(a, k) && Bit(b, k))
    decreases k
  {
    AndHalves(a, b);
    if k > 0 { AndBit(a / 2, b / 2, k - 1); }
  }

  lemma {:induction false} TopBit(n: nat, bits: nat)
    requires n < Two(bits + 1)
    ensures Bit(n, bits) <==> n >= Two(bits)
    decreases bits
  {
    if bits > 0 { TopBit(n / 2, bits - 1); }
  }

  lemma {:induction false} ReversedAt(s: seq<Byte>, j: nat)
    requires j < |s|
    ensures Reversed(s)[j] == s[|s| - 1 - j]
    decreases |s|
  {
    if j < |s| - 1 { ReversedAt(s[1..], j); }
  }

  // -------------------------------------------------- what a value put back covers

  /** The place of byte `i` of a payload in the integer of the field. */
  function Place(c: Control, i: nat): nat
    requires c.offset <= i < c.offset + c.width
  {
    if c.order.Little? then i - c.offset else c.offset + c.width - 1 - i
  }

  /** The bits a write of this control decides: all of them unless the tail is
    * preserved, else those of the field, inside the mask where there is one. */
  predicate Covers(c: Control, i: nat, k: nat) {
    || !c.tail.Preserve?
    || (c.offset <= i < c.offset + c.width && (c.mask.Some? ==> Bit(c.mask.value, 8 * Place(c, i) + k)))
  }

  lemma {:induction false} FieldBit(c: Control, payload: seq<Byte>, i: nat, k: nat)
    requires |payload| == c.length && c.offset + c.width <= c.length && c.offset <= i < c.offset + c.width && k < 8
    ensures Bit(FromLittle(Arranged(c.order, FieldOf(c, payload))), 8 * Place(c, i) + k) == Bit(payload[i], k)
  {
    var field := FieldOf(c, payload);
    assert field[i - c.offset] == payload[i];
    if c.order.Big? {
      ReversedAt(field, Place(c, i));
    }
    ReadBit(Arranged(c.order, field), Place(c, i), k);
  }

  lemma {:induction false} WrittenBit(c: Control, n: nat, i: nat, k: nat)
    requires c.offset <= i < c.offset + c.width && k < 8
    ensures Bit(Arranged(c.order, ToLittle(n, c.width))[i - c.offset], k) == Bit(n, 8 * Place(c, i) + k)
  {
    if c.order.Big? {
      ReversedAt(ToLittle(n, c.width), i - c.offset);
    }
    LittleBit(n, c.width, Place(c, i), k);
  }

  function Complement(value: int, width: nat): nat
    requires value + Power(width) >= 0
  {
    if value < 0 then value + Power(width) else value
  }

  lemma {:induction false} WrittenComplement(value: int, width: nat, order: ByteOrder, signed: bool)
    requires width > 0 && Fits(value, width, signed)
    ensures value + Power(width) >= 0
    ensures WriteInteger(value, width, order, signed) ==
            Some(Arranged(order, ToLittle(Complement(value, width), width)))
  {
    assert Power(width) == 256 * Power(width - 1);
  }

  lemma {:induction false} Encodable(c: Control, input: Value, current: seq<Byte>)
    requires Validated(c) && Encode(c, input, current).Some?
    ensures Parse(c, input).Some? && (c.mask.Some? ==> Parse(c, input).value >= 0)
    ensures var merged := Merged(c, Parse(c, input).value, current);
            && Fits(merged, c.width, c.kind.Signed?) && merged + Power(c.width) >= 0
            && Encode(c, input, current).value ==
               Seal(c, WithField(c, Scaffold(c, current),
                                 Arranged(c.order, ToLittle(Complement(merged, c.width), c.width))))
  {
    var merged := Merged(c, Parse(c, input).value, current);
    assert EncodeRaw(c, Parse(c, input).value, current).Some? && Fits(merged, c.width, c.kind.Signed?);
    WrittenComplement(merged, c.width, c.order, c.kind.Signed?);
  }

  lemma {:induction false} EncodedField(c: Control, input: Value, current: seq<Byte>, i: nat, k: nat)
    requires Validated(c) && Encode(c, input, current).Some? && c.offset <= i < c.offset + c.width && k < 8
    ensures var merged := Merged(c, Parse(c, input).value, current);
            && merged + Power(c.width) >= 0
            && Bit(Encode(c, input, current).value[i], k) ==
               Bit(Complement(merged, c.width), 8 * Place(c, i) + k)
  {
    Encodable(c, input, current);
    var n := Complement(Merged(c, Parse(c, input).value, current), c.width);
    var field := Arranged(c.order, ToLittle(n, c.width));
    SealAt(c, WithField(c, Scaffold(c, current), field), i);
    WithFieldAt(c, Scaffold(c, current), field, i);
    WrittenBit(c, n, i, k);
  }

  lemma {:induction false} MergedBit(c: Control, raw: nat, current: seq<Byte>, i: nat, k: nat)
    requires Validated(c) && |current| == c.length && c.mask.Some?
    requires ReadInteger(FieldOf(c, current), c.order, false).Some?
    requires c.offset <= i < c.offset + c.width && k < 8
    ensures var at := 8 * Place(c, i) + k;
            && Merged(c, raw, current) >= 0
            && Bit(Merged(c, raw, current), at) == if Bit(c.mask.value, at) then Bit(raw, at) else Bit(current[i], k)
  {
    FieldBit(c, current, i, k);
    MergeBit(FromLittle(Arranged(c.order, FieldOf(c, current))), raw, c.mask.value, 8 * Place(c, i) + k);
  }

  /** The field of an encoded payload bit by bit: inside the mask, or everywhere
    * without one, the two's complement of the raw value; outside it what was
    * there before. */
  lemma {:induction false} EncodedBit(c: Control, input: Value, current: seq<Byte>, i: nat, k: nat)
    requires Validated(c) && Encode(c, input, current).Some?
    requires c.offset <= i < c.offset + c.width && k < 8
    ensures var raw, at := Parse(c, input).value, 8 * Place(c, i) + k;
            && raw + Power(c.width) >= 0
            && Bit(Encode(c, input, current).value[i], k) ==
               if c.mask.Some? && !Bit(c.mask.value, at) then Bit(current[i], k) else Bit(Complement(raw, c.width), at)
  {
    Encodable(c, input, current);
    EncodedField(c, input, current, i, k);
    if c.mask.Some? { MergedBit(c, Parse(c, input).value, current, i, k); }
  }

  /** Putting a faithful baseline back over bytes found instead: a tail that is
    * not preserved leaves nothing of them. */
  lemma {:induction false} PutBackOverTail(c: Control, b: seq<Byte>, g: seq<Byte>)
    requires Validated(c) && Faithful(c, b) && |g| == c.length && !c.tail.Preserve?
    ensures Encode(c, Decode(c, b).value, g) == Some(b)
  {
    PutBackExact(c, b);
  }

  lemma {:induction false} PutBackRaw(c: Control, b: seq<Byte>, g: seq<Byte>)
    requires Validated(c) && Faithful(c, b) && |g| == c.length
    ensures Encode(c, Decode(c, b).value, g) == EncodeRaw(c, Raw(c, b).value, g)
  {
    MeaningParses(c, Raw(c, b).value);
  }

  lemma {:induction false} PutBackPlain(c: Control, b: seq<Byte>, g: seq<Byte>)
    requires Validated(c) && Faithful(c, b) && |g| == c.length && c.tail.Preserve? && c.mask.None?
    ensures Encode(c, Decode(c, b).value, g) == Some(WithField(c, g, FieldOf(c, b)))
  {
    PutBackRaw(c, b, g);
    WriteRead(FieldOf(c, b), c.order, c.kind.Signed?);
  }

  /** A masked field found unreadable refuses the value. */
  predicate Unreadable(c: Control, g: seq<Byte>)
    requires Validated(c) && |g| == c.length
  {
    c.mask.Some? && ReadInteger(FieldOf(c, g), c.order, false).None?
  }

  lemma {:induction false} PutBackMasked(c: Control, b: seq<Byte>, g: seq<Byte>)
    requires Validated(c) && Faithful(c, b) && |g| == c.length && c.mask.Some?
    requires ReadInteger(FieldOf(c, g), c.order, false).Some?
    ensures var n := FromLittle(Arranged(c.order, FieldOf(c, g)));
            var own := And(FromLittle(Arranged(c.order, FieldOf(c, b))), c.mask.value);
            Encode(c, Decode(c, b).value, g) ==
            Some(WithField(c, g, Arranged(c.order, ToLittle(Merge(n, own, c.mask.value), c.width))))
  {
    PutBackRaw(c, b, g);
    MergedFits(c, g, Raw(c, b).value);
  }

  /** Bit `k` of byte `i` after a masked field of `g` took the masked bits of `b`. */
  lemma {:induction false} MaskedBit(c: Control, b: seq<Byte>, g: seq<Byte>, i: nat, k: nat)
    requires Validated(c) && |b| == |g| == c.length && c.mask.Some?
    requires c.offset <= i < c.offset + c.width && k < 8
    ensures var n := FromLittle(Arranged(c.order, FieldOf(c, g)));
            var own := And(FromLittle(Arranged(c.order, FieldOf(c, b))), c.mask.value);
            Bit(Arranged(c.order, ToLittle(Merge(n, own, c.mask.value), c.width))[i - c.offset], k) ==
            if Covers(c, i, k) then Bit(b[i], k) else Bit(g[i], k)
  {
    var n := FromLittle(Arranged(c.order, FieldOf(c, g)));
    var m := FromLittle(Arranged(c.order, FieldOf(c, b)));
    var own := And(m, c.mask.value);
    WrittenBit(c, Merge(n, own, c.mask.value), i, k);
    MergeBit(n, own, c.mask.value, 8 * Place(c, i) + k);
    AndBit(m, c.mask.value, 8 * Place(c, i) + k);
    FieldBit(c, g, i, k);
    FieldBit(c, b, i, k);
  }

  /** The exact bits of a value put back over other bytes. */
  lemma {:induction false} PutBackBit(c: Control, b: seq<Byte>, g: seq<Byte>, i: nat, k: nat)
    requires Validated(c) && Faithful(c, b) && |g| == c.length && !Unreadable(c, g)
    requires i < c.length && k < 8
    ensures var p := Encode(c, Decode(c, b).value, g);
            p.Some? && Bit(p.value[i], k) == if Covers(c, i, k) then Bit(b[i], k) else Bit(g[i], k)
  {
    if !c.tail.Preserve? {
      PutBackOverTail(c, b, g);
    } else if c.mask.None? {
      PutBackPlainBit(c, b, g, i, k);
    } else {
      PutBackMaskedBit(c, b, g, i, k);
    }
  }

  lemma {:induction false} PutBackPlainByte(c: Control, b: seq<Byte>, g: seq<Byte>, i: nat)
    requires Validated(c) && Faithful(c, b) && |g| == c.length && c.tail.Preserve? && c.mask.None? && i < c.length
    ensures var p := Encode(c, Decode(c, b).value, g);
            p.Some? && p.value[i] == if c.offset <= i < c.offset + c.width then b[i] else g[i]
  {
    PutBackPlain(c, b, g);
    WithFieldAt(c, g, FieldOf(c, b), i);
    if c.offset <= i < c.offset + c.width { FieldAt(c, b, i); }
  }

  lemma {:induction false} PutBackPlainBit(c: Control, b: seq<Byte>, g: seq<Byte>, i: nat, k: nat)
    requires Validated(c) && Faithful(c, b) && |g| == c.length && c.tail.Preserve? && c.mask.None?
    requires i < c.length && k < 8
    ensures var p := Encode(c, Decode(c, b).value, g);
            p.Some? && Bit(p.value[i], k) == if Covers(c, i, k) then Bit(b[i], k) else Bit(g[i], k)
  {
    PutBackPlainByte(c, b, g, i);
  }

  lemma {:induction false} PutBackMaskedBit(c: Control, b: seq<Byte>, g: seq<Byte>, i: nat, k: nat)
    requires Validated(c) && Faithful(c, b) && |g| == c.length && c.mask.Some? && !Unreadable(c, g)
    requires i < c.length && k < 8
    ensures var p := Encode(c, Decode(c, b).value, g);
            p.Some? && Bit(p.value[i], k) == if Covers(c, i, k) then Bit(b[i], k) else Bit(g[i], k)
  {
    PutBackMasked(c, b, g);
    var n := FromLittle(Arranged(c.order, FieldOf(c, g)));
    var own := And(FromLittle(Arranged(c.order, FieldOf(c, b))), c.mask.value);
    WithFieldAt(c, g, Arranged(c.order, ToLittle(Merge(n, own, c.mask.value), c.width)), i);
    if c.offset <= i < c.offset + c.width { MaskedBit(c, b, g, i, k); }
  }

  /** It is refused exactly when a masked field cannot be read. */
  lemma {:induction false} PutBackRefused(c: Control, b: seq<Byte>, g: seq<Byte>)
    requires Validated(c) && Faithful(c, b) && |g| == c.length
    ensures Encode(c, Decode(c, b).value, g).None? <==> Unreadable(c, g)
    ensures Unreadable(c, g) ==> c.width == 8
  {
    PowerBounds();
    PutBackRaw(c, b, g);
    if !Unreadable(c, g) { PutBackBit(c, b, g, c.offset, 0); }
  }

  /** Two payloads that agree in every bit the control does not decide. */
  predicate SameOutside(c: Control, g: seq<Byte>, b: seq<Byte>)
    requires |g| == |b| == c.length
  {
    forall i, k :: 0 <= i < c.length && 0 <= k < 8 && !Covers(c, i, k) ==> Bit(g[i], k) == Bit(b[i], k)
  }

  /** The top bit of an eight-byte field. */
  lemma {:induction false} TopOfField(c: Control, payload: seq<Byte>)
    requires Validated(c) && |payload| == c.length && c.width == 8
    ensures var i := if c.order.Little? then c.offset + 7 else c.offset;
            Bit(payload[i], 7) <==> FromLittle(Arranged(c.order, FieldOf(c, payload))) >= 0x8000_0000_0000_0000
  {
    var i := if c.order.Little? then c.offset + 7 else c.offset;
    FieldBit(c, payload, i, 7);
    LongBounds();
    TopBit(FromLittle(Arranged(c.order, FieldOf(c, payload))), 63);
  }

  lemma {:induction false} LongBounds()
    ensures Two(63) == 0x8000_0000_0000_0000 && Two(64) == Power(8)
  {
    PowerBounds();
    PowerIsTwo(8);
    assert Two(64) == 2 * Two(63);
  }

  lemma {:induction false} UnreadableDiffers(c: Control, b: seq<Byte>, g: seq<Byte>)
    requires Validated(c) && Faithful(c, b) && |g| == c.length && Unreadable(c, g)
    ensures !SameOutside(c, g, b)
  {
    PutBackRefused(c, b, g);
    TopOfField(c, g);
    TopOfField(c, b);
    LongBounds();
    TopBit(c.mask.value, 63);
    var i := if c.order.Little? then c.offset + 7 else c.offset;
    assert Place(c, i) == 7 && !Covers(c, i, 7);
  }

  /** Putting a faithful baseline back over other bytes restores it if and only
    * if those bytes agree with it in every bit the control does not decide. */
  lemma {:induction false} PutBackOverExact(c: Control, b: seq<Byte>, g: seq<Byte>)
    requires Validated(c) && Faithful(c, b) && |g| == c.length
    ensures Encode(c, Decode(c, b).value, g) == Some(b) <==> SameOutside(c, g, b)
  {
    PutBackRefused(c, b, g);
    if Unreadable(c, g) {
      UnreadableDiffers(c, b, g);
    } else {
      var p := Encode(c, Decode(c, b).value, g).value;
      forall i, k | 0 <= i < c.length && 0 <= k < 8
        ensures Bit(p[i], k) == if Covers(c, i, k) then Bit(b[i], k) else Bit(g[i], k)
      {
        PutBackBit(c, b, g, i, k);
      }
      if SameOutside(c, g, b) {
        forall i | 0 <= i < c.length ensures p[i] == b[i] {
          assert SameByteBits(p[i], b[i]);
          ByteBits(p[i], b[i]);
        }
        assert p == b;
      }
    }
  }

  /** In bytes: outside an unmasked field the two agree everywhere; a masked
    * field also agrees once its masked bits are blanked; a tail the control
    * writes itself asks for nothing. */
  lemma {:induction false} SameOutsideInBytes(c: Control, g: seq<Byte>, b: seq<Byte>)
    requires Validated(c) && |g| == |b| == c.length
    ensures SameOutside(c, g, b) <==>
            (c.tail.Preserve? ==>
               && (forall i :: 0 <= i < c.length && !(c.offset <= i < c.offset + c.width) ==> g[i] == b[i])
               && (c.mask.Some? ==> Blanked(c, g) == Blanked(c, b)))
  {
    if c.tail.Preserve? {
      SameOutsideField(c, g, b);
      if c.mask.Some? { SameOutsideMask(c, g, b); }
    }
  }

  predicate SameBytesOutside(c: Control, g: seq<Byte>, b: seq<Byte>)
    requires |g| == |b| == c.length
  {
    forall i :: 0 <= i < c.length && !(c.offset <= i < c.offset + c.width) ==> g[i] == b[i]
  }

  predicate SameBitsInside(c: Control, g: seq<Byte>, b: seq<Byte>)
    requires |g| == |b| == c.length && c.offset + c.width <= c.length
  {
    forall i, k :: c.offset <= i < c.offset + c.width && 0 <= k < 8 && !Covers(c, i, k) ==> Bit(g[i], k) == Bit(b[i], k)
  }

  lemma {:induction false} SameOutsideField(c: Control, g: seq<Byte>, b: seq<Byte>)
    requires Validated(c) && |g| == |b| == c.length && c.tail.Preserve?
    ensures SameOutside(c, g, b) <==> SameBytesOutside(c, g, b) && SameBitsInside(c, g, b)
    ensures c.mask.None? ==> SameBitsInside(c, g, b)
  {
    if SameOutside(c, g, b) {
      forall i | 0 <= i < c.length && !(c.offset <= i < c.offset + c.width) ensures g[i] == b[i] {
        forall k | 0 <= k < 8 ensures Bit(g[i], k) == Bit(b[i], k) { assert !Covers(c, i, k); }
        assert SameByteBits(g[i], b[i]);
        ByteBits(g[i], b[i]);
      }
    }
  }

  /** The integer a field holds once its masked bits are blanked. */
  function Blanked(c: Control, payload: seq<Byte>): nat
    requires Validated(c) && |payload| == c.length && c.mask.Some?
  {
    Merge(FromLittle(Arranged(c.order, FieldOf(c, payload))), 0, c.mask.value)
  }

  lemma {:induction false} SameOutsideMask(c: Control, g: seq<Byte>, b: seq<Byte>)
    requires Validated(c) && |g| == |b| == c.length && c.tail.Preserve? && c.mask.Some?
    ensures SameBitsInside(c, g, b) <==> Blanked(c, g) == Blanked(c, b)
  {
    if SameBitsInside(c, g, b) {
      forall at | 0 <= at < 8 * c.width ensures Bit(Blanked(c, g), at) == Bit(Blanked(c, b), at) {
        BlankedSame(c, g, b, at);
      }
      BlankedBound(c, g);
      BlankedBound(c, b);
      SameBits(Blanked(c, g), Blanked(c, b), 8 * c.width);
    }
    if Blanked(c, g) == Blanked(c, b) {
      forall i, k | c.offset <= i < c.offset + c.width && 0 <= k < 8 && !Covers(c, i, k)
        ensures Bit(g[i], k) == Bit(b[i], k)
      {
        BlankedBit(c, g, i, k);
        BlankedBit(c, b, i, k);
      }
    }
  }

  lemma {:induction false} BlankedBound(c: Control, payload: seq<Byte>)
    requires Validated(c) && |payload| == c.length && c.mask.Some?
    ensures Blanked(c, payload) < Two(8 * c.width)
  {
    PowerIsTwo(c.width);
    MergeBound(FromLittle(Arranged(c.order, FieldOf(c, payload))), 0, c.mask.value, 8 * c.width, Power(c.width));
  }

  lemma {:induction false} BlankedSame(c: Control, g: seq<Byte>, b: seq<Byte>, at: nat)
    requires Validated(c) && |g| == |b| == c.length && c.tail.Preserve? && c.mask.Some?
    requires SameBitsInside(c, g, b) && at < 8 * c.width
    ensures Bit(Blanked(c, g), at) == Bit(Blanked(c, b), at)
  {
    var i := if c.order.Little? then c.offset + at / 8 else c.offset + c.width - 1 - at / 8;
    assert 8 * Place(c, i) + at % 8 == at;
    BlankedBit(c, g, i, at % 8);
    BlankedBit(c, b, i, at % 8);
  }

  lemma {:induction false} BlankedBit(c: Control, payload: seq<Byte>, i: nat, k: nat)
    requires Validated(c) && |payload| == c.length && c.tail.Preserve? && c.mask.Some?
    requires c.offset <= i < c.offset + c.width && k < 8
    ensures var at := 8 * Place(c, i) + k;
            Bit(Blanked(c, payload), at) == if Covers(c, i, k) then Bit(0, at) else Bit(payload[i], k)
  {
    MergeBit(FromLittle(Arranged(c.order, FieldOf(c, payload))), 0, c.mask.value, 8 * Place(c, i) + k);
    FieldBit(c, payload, i, k);
  }
}
