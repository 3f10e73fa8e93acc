/** The signal decoder of scripts/ecan_signal_decoder.py, written separately from the driver's: a list of
    bit positions computed once, one shift and mask for little-endian fields, a walk for Motorola fields.
    It reads the same values as `get_signal` and `sign_extend`. */
module SignalDecoder {
  import opened Arithmetic
  import opened BitCodec

  // ----- Two's complement -----

  const WORD: nat := 0x1_0000_0000_0000_0000

  /** Bitwise exclusive or. */
  function Xor(a: nat, b: nat): nat
    decreases a + b
  {
    if a == 0 && b == 0 then 0 else Unit(a % 2 != b % 2) + 2 * Xor(a / 2, b / 2)
  }

  lemma {:induction false} XorZero(a: nat)
    ensures Xor(a, 0) == a
  {
    if a > 0 {
      XorZero(a / 2);
    }
  }

  /** Exclusive or with one bit adds or subtracts that bit. */
  lemma {:induction false} XorOneBit(a: nat, k: nat)
    ensures RawBit(a, k) ==> a >= Pow2(k)
    ensures Xor(a, Pow2(k)) == if RawBit(a, k) then a - Pow2(k) else a + Pow2(k)
    decreases k
  {
    var b := Pow2(k);
    if k == 0 {
      XorZero(a / 2);
      assert Xor(a, 1) == Unit(a % 2 != 1) + 2 * Xor(a / 2, 0);
    } else {
      XorOneBit(a / 2, k - 1);
      assert b % 2 == 0 && b / 2 == Pow2(k - 1);
      assert Xor(a, b) == Unit(a % 2 != 0) + 2 * Xor(a / 2, Pow2(k - 1));
    }
  }

  function AsSigned(word: nat): int
    requires word < WORD
  {
    if word < WORD / 2 then word else word - WORD
  }

  /** What sign extension means: the word less 2^length when its sign bit is set, as a signed word. */
  function SignExtended(value: nat, length: nat): int
    requires value < WORD && 1 <= length <= 64
  {
    AsSigned(if RawBit(value, length - 1) then (value - Pow2(length)) % WORD else value)
  }

  /** `sign_extend`: flip the sign bit and subtract it, in 64-bit arithmetic. `ok` is false where it throws. */
  method SignExtend(value: nat, length: nat) returns (result: int, ok: bool)
    requires value < WORD
    ensures ok == (1 <= length <= 64)
    ensures ok ==> result == SignExtended(value, length)
  {
    hide Xor, RawBit;
    if length == 0 || length > 64 { return 0, false; }
    ok := true;
    if length == 64 {
      FullWord(value);
      return AsSigned(value), true;
    }
    var sign := Pow2(length - 1);
    XorOneBit(value, length - 1);
    FlipAndSubtract(value, sign, RawBit(value, length - 1));
    result := AsSigned((Xor(value, sign) - sign) % WORD);
  }

  lemma FlipAndSubtract(value: nat, sign: nat, flip: bool)
    requires value < WORD && (flip ==> value >= sign)
    ensures ((if flip then value - sign else value + sign) - sign) % WORD ==
            if flip then (value - 2 * sign) % WORD else value
  {
    if !flip {
      Division(value, WORD, 0, value);
    }
  }

  /** A full word needs no extension. */
  lemma FullWord(value: nat)
    requires value < WORD
    ensures SignExtended(value, 64) == AsSigned(value)
  {
    WordIsPower();
    Division(value - WORD, WORD, -1, value);
  }

  lemma {:induction false} PowerGrows(a: nat, b: nat)
    requires a <= b
    ensures Pow2(a) <= Pow2(b)
  {
    if a < b {
      PowerGrows(a, b - 1);
    }
  }

  lemma WordIsPower()
    ensures Pow2(64) == WORD && Pow2(63) == WORD / 2
  {
    assert Pow2(8) == 256;
    assert Pow2(16) == 65536;
    assert Pow2(24) == 0x100_0000;
    assert Pow2(32) == 0x1_0000_0000;
    assert Pow2(40) == 0x100_0000_0000;
    assert Pow2(48) == 0x1_0000_0000_0000;
    assert Pow2(56) == 0x100_0000_0000_0000;
  }

  /** The top bit of a bounded number. */
  lemma {:induction false} TopBit(raw: nat, n: nat)
    requires n >= 1 && raw < Pow2(n)
    ensures RawBit(raw, n - 1) <==> raw >= Pow2(n - 1)
    decreases n
  {
    if n > 1 {
      TopBit(raw / 2, n - 1);
    }
  }

  /** A field value, sign-extended, is the same number modulo the field's size, in the signed range. */
  lemma SignExtendIsTwosComplement(value: nat, length: nat)
    requires 1 <= length <= 64 && value < Pow2(length)
    ensures value < WORD
    ensures SignExtended(value, length) == if value < Pow2(length - 1) then value else value - Pow2(length)
  {
    PowerGrows(length, 64);
    WordIsPower();
    TopBit(value, length);
    PowerGrows(length - 1, 63);
    if value >= Pow2(length - 1) {
      Division(value - Pow2(length), WORD, -1, value - Pow2(length) + WORD);
    }
  }

  // ----- Bytes as a number -----

  /** `int.from_bytes(data, "little")`. */
  function FromBytes(data: seq<Byte>): nat {
    if data == [] then 0 else Number(data[0]) + 256 * FromBytes(data[1..])
  }

  function Number(b: Byte): nat { b as nat }

  /** x >> k */
  function Shift(x: nat, k: nat): nat {
    if k == 0 then x else Shift(x / 2, k - 1)
  }

  lemma {:induction false} ShiftedBit(x: nat, k: nat, p: nat)
    ensures RawBit(Shift(x, k), p) == RawBit(x, k + p)
    decreases k
  {
    if k > 0 {
      ShiftedBit(x / 2, k - 1, p);
    }
  }

  /** A number from its bits, least significant first. */
  function FromBits(bits: seq<bool>): nat {
    if bits == [] then 0 else Unit(bits[0]) + 2 * FromBits(bits[1..])
  }

  lemma {:induction false} FromBitsAt(bits: seq<bool>, k: nat)
    requires k < |bits|
    ensures RawBit(FromBits(bits), k) == bits[k]
    decreases k
  {
    var rest := FromBits(bits[1..]);
    assert (Unit(bits[0]) + 2 * rest) / 2 == rest;
    if k > 0 {
      FromBitsAt(bits[1..], k - 1);
    }
  }

  function BitsOf(b: Byte): seq<bool> {
    [BitOf(b, 0), BitOf(b, 1), BitOf(b, 2), BitOf(b, 3), BitOf(b, 4), BitOf(b, 5), BitOf(b, 6), BitOf(b, 7)]
  }

  lemma ByteSum(b: Byte)
    ensures Number(b) ==
            Unit(BitOf(b, 0)) + 2 * Unit(BitOf(b, 1)) + 4 * Unit(BitOf(b, 2)) + 8 * Unit(BitOf(b, 3)) +
            16 * Unit(BitOf(b, 4)) + 32 * Unit(BitOf(b, 5)) + 64 * Unit(BitOf(b, 6)) + 128 * Unit(BitOf(b, 7))
  {
  }

  lemma FourBits(s: seq<bool>)
    requires |s| >= 4
    ensures FromBits(s) == Unit(s[0]) + 2 * Unit(s[1]) + 4 * Unit(s[2]) + 8 * Unit(s[3]) + 16 * FromBits(s[4..])
  {
    hide Unit;
    assert s[1..][1..] == s[2..] && s[2..][1..] == s[3..] && s[3..][1..] == s[4..];
    assert FromBits(s[2..]) == Unit(s[2]) + 2 * FromBits(s[3..]);
  }

  lemma UnrolledBits(s: seq<bool>)
    requires |s| == 8
    ensures FromBits(s) == Unit(s[0]) + 2 * Unit(s[1]) + 4 * Unit(s[2]) + 8 * Unit(s[3]) + 16 * Unit(s[4]) +
                           32 * Unit(s[5]) + 64 * Unit(s[6]) + 128 * Unit(s[7])
  {
    hide Unit;
    FourBits(s);
    FourBits(s[4..]);
    assert s[4..][4..] == [];
  }

  lemma ByteBits(b: Byte, k: nat)
    requires k < 8
    ensures RawBit(Number(b), k) == BitOf(b, k)
  {
    hide BitOf, BitsOf, RawBit, FromBits, Number;
    ByteIsItsBits(b);
    BitsAt(b, k);
    FromBitsAt(BitsOf(b), k);
  }

  lemma ByteIsItsBits(b: Byte)
    ensures Number(b) == FromBits(BitsOf(b))
  {
    hide BitOf, FromBits, Number;
    ByteSum(b);
    UnrolledBits(BitsOf(b));
  }

  lemma BitsAt(b: Byte, k: nat)
    requires k < 8
    ensures |BitsOf(b)| == 8 && BitsOf(b)[k] == BitOf(b, k)
  {
    hide BitOf;
    if k == 0 {} else if k == 1 {} else if k == 2 {} else if k == 3 {}
    else if k == 4 {} else if k == 5 {} else if k == 6 {}
  }

  lemma {:induction false} NumberBits(data: seq<Byte>, p: nat)
    requires p < 8 * |data|
    ensures RawBit(FromBytes(data), p) == Bit(data, p)
    decreases |data|
  {
    var first, rest := Number(data[0]), FromBytes(data[1..]);
    if p < 8 {
      LowBitsOnly(first, rest, p);
      ByteBits(data[0], p);
    } else {
      NumberBits(data[1..], p - 8);
      assert Pow2(8) == 256;
      DropLow(first, rest, 8, p - 8);
    }
  }

  /** The low bits of a number are not touched by a multiple of 256. */
  lemma LowBitsOnly(low: nat, rest: nat, p: nat)
    requires p < 8
    ensures RawBit(low + 256 * rest, p) == RawBit(low, p)
  {
    ScaledAddition(low, rest, p, 8);
    assert Pow2(8) == 256;
  }

  lemma {:induction false} ScaledAddition(low: nat, rest: nat, p: nat, n: nat)
    requires p < n
    ensures RawBit(low + Pow2(n) * rest, p) == RawBit(low, p)
    decreases p
  {
    Halves(low, Pow2(n - 1), rest);
    if p > 0 {
      ScaledAddition(low / 2, rest, p - 1, n - 1);
    }
  }

  lemma {:induction false} DropLow(low: nat, rest: nat, n: nat, p: nat)
    requires low < Pow2(n)
    ensures RawBit(low + Pow2(n) * rest, n + p) == RawBit(rest, p)
    decreases n
  {
    if n > 0 {
      Halves(low, Pow2(n - 1), rest);
      DropLow(low / 2, rest, n - 1, p);
    }
  }

  lemma Halves(low: nat, m: nat, rest: nat)
    ensures (low + (2 * m) * rest) % 2 == low % 2 && (low + (2 * m) * rest) / 2 == low / 2 + m * rest
  {
    var product := m * rest;
    assert (2 * m) * rest == 2 * product;
  }

  // ----- The decoder -----

  /** `_positions`: most significant bit first. */
  method Positions(f: Field) returns (positions: seq<nat>)
    ensures |positions| == f.length
    ensures forall i :: 0 <= i < f.length ==> positions[i] == Position(f, Weight(f, f.length - 1 - i))
  {
    hide Network;
    if f.order == LittleEndian {
      return seq(f.length, i requires 0 <= i < f.length => f.start + f.length - 1 - i);
    }
    positions := [];
    var position := f.start;
    Walk(f, 0, 0);
    for i := 0 to f.length
      invariant |positions| == i && position == Position(f, i)
      invariant forall j :: 0 <= j < i ==> positions[j] == Position(f, j)
    {
      positions := positions + [position];
      MotorolaNext(f, i);
      position := if position % 8 == 0 then position + 15 else position - 1;
    }
  }

  /** `max(positions) // 8` */
  method LastByte(positions: seq<nat>) returns (last: nat)
    requires positions != []
    ensures forall i :: 0 <= i < |positions| ==> positions[i] / 8 <= last
    ensures exists i :: 0 <= i < |positions| && positions[i] / 8 == last
  {
    var greatest, at := positions[0], 0;
    for i := 1 to |positions|
      invariant 0 <= at < |positions| && positions[at] == greatest
      invariant forall j :: 0 <= j < i ==> positions[j] <= greatest
    {
      if positions[i] > greatest { greatest, at := positions[i], i; }
    }
    last := greatest / 8;
  }

  /** The byte check of the decoder is the range check of the walk. */
  lemma LastByteIsRangeCheck(f: Field, positions: seq<nat>, last: nat, bytes: nat)
    requires f.length >= 1 && |positions| == f.length
    requires forall i :: 0 <= i < f.length ==> positions[i] == Position(f, Weight(f, f.length - 1 - i))
    requires forall i :: 0 <= i < |positions| ==> positions[i] / 8 <= last
    requires exists i :: 0 <= i < |positions| && positions[i] / 8 == last
    ensures last < bytes <==> Inside(f, bytes)
  {
    hide Base;
    var i :| 0 <= i < |positions| && positions[i] / 8 == last;
    SameByte(f, Weight(f, f.length - 1 - i));
    SameByte(f, f.length - 1);
    var top := if f.order == LittleEndian then 0 else f.length - 1;
    assert positions[top] == Position(f, f.length - 1);
  }

  lemma SameByte(f: Field, i: nat)
    ensures Position(f, i) / 8 == (Base(f) + i) / 8
  {
    hide Base;
  }

  /** What decoding a field means: its value in the frame, in two's complement when signed. */
  function Decoded(data: seq<Byte>, f: Field, signed: bool): int
    requires Inside(f, |data|)
  {
    var raw := FieldValue(data, f);
    if signed && raw >= Pow2(f.length - 1) then raw - Pow2(f.length) else raw
  }

  /** `decode`, with scaling over the reals; None when the frame is too short. */
  method Decode(data: seq<Byte>, f: Field, signed: bool, factor: real, offset: real)
    returns (present: bool, value: real)
    requires f.length >= 1
    ensures present == Inside(f, |data|)
    ensures present ==> value == Decoded(data, f, signed) as real * factor + offset
  {
    hide Network, RawBit, Position, FieldValue, Bit;
    var positions := Positions(f);
    var last := LastByte(positions);
    LastByteIsRangeCheck(f, positions, last, |data|);
    if last >= |data| { return false, 0.0; }
    var raw: int;
    if f.order == LittleEndian {
      raw := Shift(FromBytes(data), f.start) % Pow2(f.length);
      ShiftAndMask(data, f);
    } else {
      raw := WalkPositions(data, f, positions);
    }
    ValueBounded(data, f, 0);
    FieldValueIs(data, f);
    TopBit(raw, f.length);
    if signed && RawBit(raw, f.length - 1) { raw := raw - Pow2(f.length); }
    present, value := true, raw as real * factor + offset;
  }

  lemma FieldValueIs(data: seq<Byte>, f: Field)
    requires Inside(f, |data|)
    ensures FieldValue(data, f) == ValueFrom(data, f, 0)
  {
  }

  /** One shift and one mask read a little-endian field. */
  lemma ShiftAndMask(data: seq<Byte>, f: Field)
    requires Inside(f, |data|) && f.order == LittleEndian
    ensures Shift(FromBytes(data), f.start) % Pow2(f.length) == FieldValue(data, f)
  {
    hide Bit, RawBit;
    var shifted := Shift(FromBytes(data), f.start);
    forall k | 0 <= k < f.length - 0 ensures FieldBit(data, f, 0 + k) == RawBit(shifted, k) {
      ShiftedBit(FromBytes(data), f.start, k);
      NumberBits(data, f.start + k);
    }
    ValueOfBits(data, f, 0, shifted);
  }

  /** The Motorola branch: fold the bits at the listed positions. */
  method WalkPositions(data: seq<Byte>, f: Field, positions: seq<nat>) returns (raw: nat)
    requires Inside(f, |data|) && |positions| == f.length
    requires forall i :: 0 <= i < f.length ==> positions[i] == Position(f, Weight(f, f.length - 1 - i))
    ensures raw == FieldValue(data, f)
  {
    hide Network, BitOf, Position;
    raw := 0;
    for i := 0 to f.length
      invariant raw == ValueFrom(data, f, f.length - i)
    {
      var position := positions[i];
      Walk(f, Weight(f, f.length - 1 - i), |data|);
      var bit := BitOf(data[position / 8], position % 8);
      assert bit == FieldBit(data, f, f.length - 1 - i);
      raw := 2 * raw + Unit(bit);
    }
  }

  /** Both decoders of the repository read the same number from every frame. */
  lemma DecodersAgree(data: seq<Byte>, f: Field)
    requires Fits(f, |data|)
    ensures FieldValue(data, f) < WORD
    ensures Decoded(data, f, false) == FieldValue(data, f)
    ensures Decoded(data, f, true) == SignExtended(FieldValue(data, f), f.length)
  {
    ValueBounded(data, f, 0);
    SignExtendIsTwosComplement(FieldValue(data, f), f.length);
  }
}
