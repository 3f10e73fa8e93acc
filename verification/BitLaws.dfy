/** The signals of BitCodec.dfy without its walk: a frame is one number, a field is a division and a remainder of it,
    and every bit that a write changes or keeps is given by its place. */
module BitLaws {
  import opened Arithmetic
  import opened BitCodec
  import D = SignalDecoder

  // ----- Numbers and their bits -----

  lemma {:induction false} BitOfNumber(x: nat, k: nat)
    ensures RawBit(x, k) <==> (x / Pow2(k)) % 2 == 1
    decreases k
  {
    if k > 0 {
      BitOfNumber(x / 2, k - 1);
      HalvedQuotient(x, Pow2(k - 1));
    }
  }

  lemma HalvedQuotient(x: nat, m: nat)
    requires m > 0
    ensures (x / 2) / m == x / (2 * m)
  {
    var q, r := (x / 2) / m, (x / 2) % m;
    assert x / 2 == m * q + r;
    assert x == (2 * m) * q + (2 * r + x % 2);
    Division(x, 2 * m, q, 2 * r + x % 2);
  }

  lemma {:induction false} ShiftIsDivision(x: nat, k: nat)
    ensures D.Shift(x, k) == x / Pow2(k)
    decreases k
  {
    if k > 0 {
      ShiftIsDivision(x / 2, k - 1);
      HalvedQuotient(x, Pow2(k - 1));
    }
  }

  /** A bit of a frame is a binary digit of one of its bytes. */
  lemma BitExactly(data: seq<Byte>, p: nat)
    requires p < 8 * |data|
    ensures Bit(data, p) <==> (D.Number(data[p / 8]) / Pow2(p % 8)) % 2 == 1
  {
    hide BitOf, RawBit, D.Number, Pow2;
    D.ByteBits(data[p / 8], p % 8);
    BitOfNumber(D.Number(data[p / 8]), p % 8);
  }

  // ----- Which fields fit -----

  /** The place of a bit in network order, its byte's most significant bit first. */
  function Place(p: nat): nat { 8 * (p / 8) + 7 - p % 8 }

  lemma FitsExactly(f: Field, bytes: nat)
    ensures Fits(f, bytes) <==>
      && 1 <= f.length <= 64
      && (if f.order == LittleEndian then f.start else Place(f.start)) + f.length <= 8 * bytes
  {
  }

  // ----- Reading is dividing -----

  /** A little-endian field in the frame as a number whose first byte is the least significant. */
  lemma IntelExactly(data: seq<Byte>, f: Field)
    requires Fits(f, |data|) && f.order == LittleEndian
    ensures FieldValue(data, f) == (D.FromBytes(data) / Pow2(f.start)) % Pow2(f.length)
  {
    D.ShiftAndMask(data, f);
    ShiftIsDivision(D.FromBytes(data), f.start);
  }

  function Reversed(data: seq<Byte>): (r: seq<Byte>)
    ensures |r| == |data| && forall k :: 0 <= k < |data| ==> r[k] == data[|data| - 1 - k]
  {
    seq(|data|, k requires 0 <= k < |data| => data[|data| - 1 - k])
  }

  /** A Motorola field in the frame as a number whose first byte is the most significant. */
  lemma MotorolaExactly(data: seq<Byte>, f: Field)
    requires Fits(f, |data|) && f.order == BigEndian
    ensures Place(f.start) + f.length <= 8 * |data|
    ensures FieldValue(data, f) ==
            (D.FromBytes(Reversed(data)) / Pow2(8 * |data| - Place(f.start) - f.length)) % Pow2(f.length)
  {
    hide Bit, RawBit, D.FromBytes, Reversed, Pow2, FieldValue;
    var whole := D.FromBytes(Reversed(data));
    var below := 8 * |data| - Place(f.start) - f.length;
    var shifted := D.Shift(whole, below);
    forall k | 0 <= k < f.length - 0 ensures FieldBit(data, f, 0 + k) == RawBit(shifted, k) {
      D.ShiftedBit(whole, below, k);
      D.NumberBits(Reversed(data), below + k);
      MirroredBit(data, below + k);
    }
    ValueOfBits(data, f, 0, shifted);
    ShiftIsDivision(whole, below);
    D.FieldValueIs(data, f);
  }

  /** Reversing the bytes turns the places of the bits around. */
  lemma MirroredBit(data: seq<Byte>, q: nat)
    requires q < 8 * |data|
    ensures var p := Network(8 * |data| - 1 - q); p < 8 * |data| && Bit(Reversed(data), q) == Bit(data, p)
  {
    hide BitOf;
    var t := 8 * |data| - 1 - q;
    assert t / 8 == |data| - 1 - q / 8 && t % 8 == 7 - q % 8;
    NetworkBound(t, |data|);
  }

  // ----- Writing, bit by bit -----

  /** What `set_signal` makes of every bit of the frame. A little-endian field that does not fit leaves the frame as it
      was; a Motorola field is written as far as the frame goes. */
  lemma WriteExactly(data: seq<Byte>, f: Field, raw: nat, p: nat)
    requires p < 8 * |data|
    ensures |AfterSet(data, f, raw)| == |data|
    ensures f.order == LittleEndian ==>
              (Bit(AfterSet(data, f, raw), p) <==>
               if 1 <= f.length <= 64 && f.start + f.length <= 8 * |data| && f.start <= p < f.start + f.length
               then (raw / Pow2(p - f.start)) % 2 == 1 else Bit(data, p))
    ensures f.order == BigEndian ==>
              (Bit(AfterSet(data, f, raw), p) <==>
               if 1 <= f.length <= 64 && Place(f.start) <= Place(p) < Place(f.start) + f.length
               then (raw / Pow2(Place(f.start) + f.length - 1 - Place(p))) % 2 == 1 else Bit(data, p))
  {
    hide Bit, RawBit, Pow2, Written;
    var n := StepsMade(f, |data|);
    if n > 0 {
      WrittenBit(data, f, raw, n, p);
    }
    NetworkBound(p, |data|);
    var slot := Slot(f.order, p);
    if Base(f) <= slot < Base(f) + f.length {
      BitOfNumber(raw, Weight(f, slot - Base(f)));
    }
  }

  // ----- A frame in pieces -----

  /** The bits from `first` on, as a number. */
  function Bits(data: seq<Byte>, first: nat, count: nat): nat {
    (D.FromBytes(data) / Pow2(first)) % Pow2(count)
  }

  lemma {:induction false} PowersAdd(a: nat, b: nat)
    ensures Pow2(a + b) == Pow2(a) * Pow2(b)
  {
    if a > 0 {
      PowersAdd(a - 1, b);
      Associate(2, Pow2(a - 1), Pow2(b));
    }
  }

  lemma Associate(x: nat, y: nat, z: nat)
    ensures x * (y * z) == (x * y) * z
  {
  }

  lemma QuotientTwice(x: nat, a: nat, b: nat)
    requires a > 0 && b > 0
    ensures a * b > 0 && (x / a) / b == x / (a * b) && x % (a * b) == x % a + a * ((x / a) % b)
  {
    var y, s := x / a, x % a;
    var q, r := y / b, y % b;
    Room(a, b, r, s);
    assert x == (a * b) * q + (a * r + s) by {
      Recombined(x, a, y, s);
      Recombined(y, b, q, r);
      Expand(a, b * q, r);
      Associate(a, b, q);
    }
    Division(x, a * b, q, a * r + s);
  }

  lemma Recombined(x: nat, a: nat, q: nat, r: nat)
    requires a > 0 && q == x / a && r == x % a
    ensures x == a * q + r
  {
  }

  lemma Expand(a: nat, p: nat, r: nat)
    ensures a * (p + r) == a * p + a * r
  {
  }

  lemma Room(a: nat, b: nat, r: nat, s: nat)
    requires r < b && s < a
    ensures 0 <= a * r + s < a * b
  {
    assert a * r <= a * (b - 1);
  }

  /** Two pieces side by side. */
  lemma BitsJoin(data: seq<Byte>, first: nat, low: nat, high: nat)
    ensures Bits(data, first, low + high) == Bits(data, first, low) + Pow2(low) * Bits(data, first + low, high)
  {
    hide Pow2, D.FromBytes;
    var x := D.FromBytes(data);
    PowersAdd(low, high);
    PowersAdd(first, low);
    QuotientTwice(x / Pow2(first), Pow2(low), Pow2(high));
    QuotientTwice(x, Pow2(first), Pow2(low));
  }

  lemma BitsBounded(data: seq<Byte>, first: nat, count: nat)
    ensures 0 <= Bits(data, first, count) < Pow2(count)
  {
    hide Pow2;
  }

  /** A field that runs upwards, or down within one byte, is such a piece. */
  lemma FieldIsBits(data: seq<Byte>, f: Field)
    requires Fits(f, |data|) && (f.order == BigEndian ==> f.length <= f.start % 8 + 1)
    ensures FieldValue(data, f) ==
            Bits(data, if f.order == LittleEndian then f.start else f.start + 1 - f.length, f.length)
  {
    hide Bit, RawBit, Pow2, D.FromBytes, FieldValue;
    var first := if f.order == LittleEndian then f.start else f.start + 1 - f.length;
    var shifted := D.Shift(D.FromBytes(data), first);
    forall k | 0 <= k < f.length - 0 ensures FieldBit(data, f, 0 + k) == RawBit(shifted, k) {
      D.ShiftedBit(D.FromBytes(data), first, k);
      PieceBit(data, f, first, k);
      D.NumberBits(data, first + k);
    }
    ValueOfBits(data, f, 0, shifted);
    ShiftIsDivision(D.FromBytes(data), first);
    D.FieldValueIs(data, f);
  }

  lemma PieceBit(data: seq<Byte>, f: Field, first: nat, k: nat)
    requires Fits(f, |data|) && (f.order == BigEndian ==> f.length <= f.start % 8 + 1) && k < f.length
    requires first == if f.order == LittleEndian then f.start else f.start + 1 - f.length
    ensures first + k < 8 * |data| && FieldBit(data, f, k) == Bit(data, first + k)
  {
    hide Bit;
    if f.order == BigEndian {
      var p := f.start + 1 - f.length + k;
      assert p / 8 == f.start / 8 && p % 8 == f.start % 8 + 1 - f.length + k;
      NetworkTwice(p);
    }
  }

  /** A byte is eight of these bits. */
  lemma ByteIsBits(data: seq<Byte>, k: nat)
    requires k < |data|
    ensures D.Number(data[k]) == Bits(data, 8 * k, 8)
  {
    hide BitOf, RawBit, D.Number, D.FromBytes, Pow2, FieldBit, FieldValue;
    var f := Field(8 * k, 8, LittleEndian);
    forall j | 0 <= j < f.length - 0 ensures FieldBit(data, f, 0 + j) == RawBit(D.Number(data[k]), j) {
      assert (8 * k + j) / 8 == k && (8 * k + j) % 8 == j;
      PieceBit(data, f, 8 * k, j);
      D.ByteBits(data[k], j);
    }
    ValueOfBits(data, f, 0, D.Number(data[k]));
    D.FieldValueIs(data, f);
    FieldIsBits(data, f);
    ByteRange(data[k]);
  }

  lemma ByteRange(b: Byte)
    ensures Pow2(8) == 256 && D.Number(b) < 256
  {
    assert Pow2(4) == 16;
  }

  /** Bits that are all clear are worth nothing. */
  lemma {:induction false} ClearBits(data: seq<Byte>, first: nat, count: nat)
    requires 1 <= count <= 64 && first + count <= 8 * |data|
    requires forall p :: first <= p < first + count ==> !Bit(data, p)
    ensures Bits(data, first, count) == 0
  {
    hide Bit, RawBit, Pow2, D.FromBytes, FieldBit, FieldValue;
    var f := Field(first, count, LittleEndian);
    forall k | 0 <= k < count - 0 ensures FieldBit(data, f, 0 + k) == RawBit(0, k) {
      PieceBit(data, f, first, k);
      NoBits(k);
    }
    ValueOfBits(data, f, 0, 0);
    D.FieldValueIs(data, f);
    FieldIsBits(data, f);
  }

  lemma {:induction false} NoBits(k: nat)
    ensures !RawBit(0, k)
  {
    if k > 0 { NoBits(k - 1); }
  }
}
