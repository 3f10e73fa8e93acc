/** The Hyundai CAN-FD checksum of src/hyundai_canfd_codec.cpp: a CCITT CRC (generator 0x1021) over the
    payload from its third byte on and the low two address bytes, XORed with a constant per frame size,
    stored little-endian in the first two bytes. */
module Crc {
  import opened Arithmetic
  import P = PandaFraming

  type Word = bv16

  // ----- The shift register, a linear map over GF(2) -----

  /** Addition over GF(2). */
  function Plus(a: Word, b: Word): Word { a ^ b }

  lemma PlusZero(a: Word, b: Word)
    ensures Plus(a, b) == 0 <==> a == b
  {
  }

  lemma PlusCancels(a: Word, b: Word, x: Word)
    requires Plus(a, x) == Plus(b, x)
    ensures a == b
  {
  }

  const GENERATOR: Word := 0x1021

  predicate Top(c: Word) { c & 0x8000 != 0 }

  function Up(c: Word): Word { c << 1 }

  /** One step of the shift register. */
  function Step(c: Word): Word {
    if Top(c) then Plus(Up(c), GENERATOR) else Up(c)
  }

  function Steps(c: Word, n: nat): Word {
    if n == 0 then c else Step(Steps(c, n - 1))
  }

  lemma StepLinear(a: Word, b: Word)
    ensures Step(Plus(a, b)) == Plus(Step(a), Step(b))
  {
    hide Top, Up, Plus, GENERATOR;
    TopLinear(a, b);
    UpLinear(a, b);
    PlusRearranged(Up(a), Up(b), GENERATOR);
  }

  lemma TopLinear(a: Word, b: Word)
    ensures Top(Plus(a, b)) == (Top(a) != Top(b))
  {
  }

  lemma UpLinear(a: Word, b: Word)
    ensures Up(Plus(a, b)) == Plus(Up(a), Up(b))
  {
  }

  lemma PlusRearranged(a: Word, b: Word, g: Word)
    ensures Plus(Plus(a, g), b) == Plus(Plus(a, b), g) == Plus(a, Plus(b, g))
    ensures Plus(Plus(a, g), Plus(b, g)) == Plus(a, b)
  {
  }

  /** Nothing but zero steps to zero. */
  lemma StepKernel(c: Word)
    requires Step(c) == 0
    ensures c == 0
  {
  }

  lemma {:induction false} StepsLinear(a: Word, b: Word, n: nat)
    ensures Steps(Plus(a, b), n) == Plus(Steps(a, n), Steps(b, n))
  {
    hide Step, Plus;
    if n > 0 {
      StepsLinear(a, b, n - 1);
      StepLinear(Steps(a, n - 1), Steps(b, n - 1));
    }
  }

  lemma {:induction false} StepsKernel(c: Word, n: nat)
    requires Steps(c, n) == 0
    ensures c == 0
  {
    hide Step, Plus;
    if n > 0 {
      StepKernel(Steps(c, n - 1));
      StepsKernel(c, n - 1);
    }
  }

  lemma {:induction false} StepsAdd(c: Word, m: nat, n: nat)
    ensures Steps(Steps(c, m), n) == Steps(c, m + n)
  {
    hide Step, Plus;
    if n > 0 {
      StepsAdd(c, m, n - 1);
    }
  }

  /** The register never forgets: distinct states stay distinct. */
  lemma StepsInjective(a: Word, b: Word, n: nat)
    requires Steps(a, n) == Steps(b, n)
    ensures a == b
  {
    hide *;
    StepsLinear(a, b, n);
    PlusZero(Steps(a, n), Steps(b, n));
    StepsKernel(Plus(a, b), n);
    PlusZero(a, b);
  }

  // ----- Bytes -----

  function High(b: Byte): Word { (b as Word) << 8 }

  function Low(b: Byte): Word { b as Word }

  function LowByte(c: Word): Byte { (c & 0xFF) as Byte }

  function HighByte(c: Word): Byte { (c >> 8) as Byte }

  function Join(low: Byte, high: Byte): Word { Low(low) | High(high) }

  lemma BytesOfWord(c: Word)
    ensures Join(LowByte(c), HighByte(c)) == c
  {
  }

  lemma WordOfBytes(a: Byte, b: Byte)
    ensures LowByte(Join(a, b)) == a && HighByte(Join(a, b)) == b
  {
  }

  function Absorb(c: Word, b: Byte): Word { Steps(Plus(c, High(b)), 8) }

  /** `crc_step` */
  method CrcStep(crc: Word, byte: Byte) returns (r: Word)
    ensures r == Absorb(crc, byte)
  {
    hide Plus, High;
    r := Plus(crc, High(byte));
    for i := 0 to 8
      invariant r == Steps(Plus(crc, High(byte)), i)
    {
      r := Step(r);
    }
  }

  /** A low byte reaches the top of the register after eight steps, without feedback. */
  lemma LowIsHighLater(b: Byte)
    ensures Steps(Low(b), 8) == High(b)
  {
    hide Step, Low, High;
    EightSteps(b);
    var c := Low(b);
    assert Steps(c, 1) == Step(c);
    assert Steps(c, 2) == Step(Step(c));
    assert Steps(c, 4) == Step(Step(Steps(c, 2)));
    assert Steps(c, 6) == Step(Step(Steps(c, 4)));
  }

  lemma EightSteps(b: Byte)
    ensures Step(Step(Step(Step(Step(Step(Step(Step(Low(b)))))))) ) == High(b)
  {
  }

  /** Two bytes are absorbed as one word. */
  lemma AbsorbTwo(c: Word, b1: Byte, b2: Byte)
    ensures Absorb(Absorb(c, b1), b2) == Steps(Plus(Plus(c, High(b1)), Low(b2)), 16)
  {
    hide Step, Steps, High, Low, Plus;
    var x := Plus(c, High(b1));
    LowIsHighLater(b2);
    StepsLinear(x, Low(b2), 8);
    StepsAdd(Plus(x, Low(b2)), 8, 8);
  }

  /** A word determines its bytes. */
  lemma WordBytes(b1: Byte, b2: Byte, d1: Byte, d2: Byte, c: Word)
    requires Plus(Plus(c, High(b1)), Low(b2)) == Plus(Plus(c, High(d1)), Low(d2))
    ensures b1 == d1 && b2 == d2
  {
  }

  /** From one state, different byte pairs lead to different states. */
  lemma PairsInjective(c: Word, b1: Byte, b2: Byte, d1: Byte, d2: Byte)
    requires Absorb(Absorb(c, b1), b2) == Absorb(Absorb(c, d1), d2)
    ensures b1 == d1 && b2 == d2
  {
    hide *;
    AbsorbTwo(c, b1, b2);
    AbsorbTwo(c, d1, d2);
    StepsInjective(Plus(Plus(c, High(b1)), Low(b2)), Plus(Plus(c, High(d1)), Low(d2)), 16);
    WordBytes(b1, b2, d1, d2, c);
  }

  lemma AbsorbInjective(c: Word, d: Word, b: Byte)
    requires Absorb(c, b) == Absorb(d, b)
    ensures c == d
  {
    hide Step, Steps, High, Plus;
    StepsInjective(Plus(c, High(b)), Plus(d, High(b)), 8);
    PlusCancels(c, d, High(b));
  }

  function Fold(c: Word, s: seq<Byte>): Word
    decreases |s|
  {
    if s == [] then c else Fold(Absorb(c, s[0]), s[1..])
  }

  lemma {:induction false} FoldConcat(c: Word, s: seq<Byte>, t: seq<Byte>)
    ensures Fold(c, s + t) == Fold(Fold(c, s), t)
    decreases |s|
  {
    hide Absorb;
    if s == [] {
      assert s + t == t;
    } else {
      assert (s + t)[1..] == s[1..] + t;
      FoldConcat(Absorb(c, s[0]), s[1..], t);
    }
  }

  /** Whatever follows, a difference in the register survives. */
  lemma {:induction false} FoldInjective(c: Word, d: Word, s: seq<Byte>)
    requires Fold(c, s) == Fold(d, s)
    ensures c == d
    decreases |s|
  {
    hide Absorb;
    if s != [] {
      FoldInjective(Absorb(c, s[0]), Absorb(d, s[0]), s[1..]);
      AbsorbInjective(c, d, s[0]);
    }
  }

  // ----- The checksum -----

  predicate Supported(size: nat) {
    size == 8 || size == 16 || size == 24 || size == 32
  }

  function SizeConstant(size: nat): Word
    requires Supported(size)
  {
    if size == 8 then 0x5F29 else if size == 16 then 0x041D else if size == 24 then 0x819D else 0x9F5B
  }

  function AddressLow(address: bv32): Byte { (address & 0xFF) as Byte }

  function AddressHigh(address: bv32): Byte { ((address >> 8) & 0xFF) as Byte }

  function Low16(address: bv32): bv32 { address & 0xFFFF }

  function AddressBytes(address: bv32): seq<Byte> { [AddressLow(address), AddressHigh(address)] }

  function Checksum(address: bv32, data: seq<Byte>): Word
    requires Supported(|data|)
  {
    Plus(Fold(0, data[2..] + AddressBytes(address)), SizeConstant(|data|))
  }

  /** `checksum`; `ok` is false where the source throws. */
  method ComputeChecksum(address: bv32, data: seq<Byte>) returns (crc: Word, ok: bool)
    ensures ok == Supported(|data|)
    ensures ok ==> crc == Checksum(address, data)
  {
    hide Absorb, AddressLow, AddressHigh, Plus;
    crc := 0;
    if |data| < 3 || |data| > 64 { return 0, false; }
    for i := 2 to |data|
      invariant crc == Fold(0, data[2..i])
    {
      FoldConcat(0, data[2..i], [data[i]]);
      assert data[2..i] + [data[i]] == data[2..i + 1];
      assert Fold(crc, [data[i]]) == Absorb(crc, data[i]);
      crc := CrcStep(crc, data[i]);
    }
    assert data[2..|data|] == data[2..];
    AddressAbsorbed(data, address);
    crc := CrcStep(crc, AddressLow(address));
    crc := CrcStep(crc, AddressHigh(address));
    match |data| {
      case 8 => crc := Plus(crc, 0x5F29);
      case 16 => crc := Plus(crc, 0x041D);
      case 24 => crc := Plus(crc, 0x819D);
      case 32 => crc := Plus(crc, 0x9F5B);
      case _ => return crc, false;
    }
    ok := true;
  }

  /** The checksum a frame carries. */
  function Received(data: seq<Byte>): Word
    requires |data| >= 2
  {
    Join(data[0], data[1])
  }

  predicate Accepts(address: bv32, data: seq<Byte>) {
    Supported(|data|) && Received(data) == Checksum(address, data)
  }

  /** `checksum_valid` */
  method ChecksumValid(f: P.Frame) returns (valid: bool)
    requires P.WellFormed(f)
    ensures valid == (f.size <= P.CAPACITY && Accepts(f.address, f.data[..f.size]))
  {
    hide Checksum, Join, LowByte, HighByte, Plus;
    if f.size != 8 && f.size != 16 && f.size != 24 && f.size != 32 { return false; }
    var received := Join(f.data[0], f.data[1]);
    var crc, ok := ComputeChecksum(f.address, f.data[..f.size]);
    valid := received == crc;
  }

  /** `write_checksum` */
  method WriteChecksum(address: bv32, data: array<Byte>)
    requires Supported(data.Length)
    modifies data
    ensures data[..] == Sealed(address, old(data[..]))
  {
    hide Checksum, Join, LowByte, HighByte, Plus;
    var crc, ok := ComputeChecksum(address, data[..]);
    data[0] := LowByte(crc);
    data[1] := HighByte(crc);
  }

  /** A payload with its checksum written in. */
  function Sealed(address: bv32, data: seq<Byte>): (r: seq<Byte>)
    requires Supported(|data|)
    ensures |r| == |data|
  {
    data[0 := LowByte(Checksum(address, data))][1 := HighByte(Checksum(address, data))]
  }

  /** A sealed payload is accepted, and keeps every byte but the first two. */
  lemma SealedIsAccepted(address: bv32, data: seq<Byte>)
    requires Supported(|data|)
    ensures Accepts(address, Sealed(address, data)) && Sealed(address, data)[2..] == data[2..]
  {
    hide Fold, LowByte, HighByte, Join, Plus, SizeConstant;
    assert Sealed(address, data)[2..] == data[2..];
    BytesOfWord(Checksum(address, data));
  }

  // ----- What a receiver detects -----

  /** Accepted frames with the same content carry the same checksum: a change confined to the checksum
      bytes is rejected. */
  lemma ChecksumBytesMatter(address: bv32, a: seq<Byte>, b: seq<Byte>)
    requires |a| == |b| && Accepts(address, a) && a != b && a[2..] == b[2..]
    ensures !Accepts(address, b)
  {
    hide Fold, LowByte, HighByte, Join, Plus, SizeConstant;
    WordOfBytes(a[0], a[1]);
    WordOfBytes(b[0], b[1]);
    if Received(a) == Received(b) {
      Reassembled(a, b, 0);
    }
  }

  /** Frames that agree in the checksum bytes are both accepted only if their registers agree. */
  lemma SameRegister(address: bv32, a: seq<Byte>, b: seq<Byte>)
    requires |a| == |b| && Accepts(address, a) && Accepts(address, b) && a[..2] == b[..2]
    ensures Fold(0, a[2..]) == Fold(0, b[2..])
  {
    hide Fold, Join, AddressBytes, Plus, SizeConstant;
    assert a[0] == a[..2][0] && a[1] == a[..2][1] && b[0] == b[..2][0] && b[1] == b[..2][1];
    var tail := AddressBytes(address);
    FoldConcat(0, a[2..], tail);
    FoldConcat(0, b[2..], tail);
    PlusCancels(Fold(0, a[2..] + tail), Fold(0, b[2..] + tail), SizeConstant(|a|));
    FoldInjective(Fold(0, a[2..]), Fold(0, b[2..]), tail);
  }

  /** Any change of one byte, or of two adjacent bytes, from index 2 on is rejected. */
  lemma AdjacentBytesDetected(address: bv32, a: seq<Byte>, b: seq<Byte>, k: nat)
    requires |a| == |b| && 2 <= k && k + 2 <= |a| && a != b
    requires a[..k] == b[..k] && a[k + 2..] == b[k + 2..]
    requires Accepts(address, a)
    ensures !Accepts(address, b)
  {
    hide Accepts, Fold, Absorb;
    if Accepts(address, b) {
      assert a[..2] == a[..k][..2] && b[..2] == b[..k][..2];
      AcceptedSize(address, a);
      SameRegister(address, a, b);
      var c := Fold(0, a[2..k]);
      assert a[2..k] == a[..k][2..] && b[2..k] == b[..k][2..];
      PairThenRest(a, k);
      PairThenRest(b, k);
      FoldInjective(Absorb(Absorb(c, a[k]), a[k + 1]), Absorb(Absorb(c, b[k]), b[k + 1]), a[k + 2..]);
      PairsInjective(c, a[k], a[k + 1], b[k], b[k + 1]);
      Reassembled(a, b, k);
    }
  }

  lemma Reassembled(a: seq<Byte>, b: seq<Byte>, k: nat)
    requires k + 2 <= |a| == |b| && a[k] == b[k] && a[k + 1] == b[k + 1]
    requires a[..k] == b[..k] && a[k + 2..] == b[k + 2..]
    ensures a == b
  {
    assert a == a[..k] + [a[k], a[k + 1]] + a[k + 2..];
    assert b == b[..k] + [b[k], b[k + 1]] + b[k + 2..];
  }

  lemma AcceptedSize(address: bv32, a: seq<Byte>)
    requires Accepts(address, a)
    ensures Supported(|a|)
  {
  }

  lemma PairThenRest(a: seq<Byte>, k: nat)
    requires 2 <= k && k + 2 <= |a|
    ensures Fold(0, a[2..]) == Fold(Absorb(Absorb(Fold(0, a[2..k]), a[k]), a[k + 1]), a[k + 2..])
  {
    hide Absorb;
    var c := Fold(0, a[2..k]);
    assert a[2..] == a[2..k] + a[k..];
    FoldConcat(0, a[2..k], a[k..]);
    assert a[k..][1..] == a[k + 1..] && a[k + 1..][1..] == a[k + 2..];
    assert Fold(c, a[k..]) == Fold(Absorb(c, a[k]), a[k + 1..]);
  }

  /** The same bytes under another address are accepted exactly when the low 16 address bits agree, so
      under any other address below 2^16 they are rejected. */
  lemma OtherAddressDetected(address: bv32, other: bv32, a: seq<Byte>)
    requires Accepts(address, a)
    ensures Accepts(other, a) <==> Low16(address) == Low16(other)
  {
    hide Fold, Absorb, Received, Plus, SizeConstant, AddressLow, AddressHigh, AddressBytes, Low16;
    var c := Fold(0, a[2..]);
    AddressAbsorbed(a, address);
    AddressAbsorbed(a, other);
    AddressBytesAre(address, other);
    if Accepts(other, a) {
      PlusCancels(Fold(0, a[2..] + AddressBytes(address)), Fold(0, a[2..] + AddressBytes(other)), SizeConstant(|a|));
      PairsInjective(c, AddressLow(address), AddressHigh(address), AddressLow(other), AddressHigh(other));
    }
  }

  lemma FoldOne(c: Word, b: Byte)
    ensures Fold(c, [b]) == Absorb(c, b)
  {
    hide Absorb;
    assert [b][1..] == [];
  }

  lemma AddressAbsorbed(a: seq<Byte>, address: bv32)
    requires |a| >= 2
    ensures Fold(0, a[2..] + AddressBytes(address)) ==
            Absorb(Absorb(Fold(0, a[2..]), AddressLow(address)), AddressHigh(address))
  {
    hide Absorb, AddressLow, AddressHigh, Plus;
    var c := Fold(0, a[2..]);
    FoldConcat(0, a[2..], AddressBytes(address));
    assert AddressBytes(address)[1..] == [AddressHigh(address)];
    FoldOne(Absorb(c, AddressLow(address)), AddressHigh(address));
  }

  function JoinAddress(low: Byte, high: Byte): bv32 { (low as bv32) | ((high as bv32) << 8) }

  lemma AddressParts(address: bv32)
    ensures JoinAddress(AddressLow(address), AddressHigh(address)) == Low16(address)
  {
  }

  lemma PartsOfLow16(address: bv32)
    ensures AddressLow(address) == AddressLow(Low16(address)) && AddressHigh(address) == AddressHigh(Low16(address))
  {
  }

  /** Equal low 16 bits, equal address bytes. */
  lemma AddressBytesAre(address: bv32, other: bv32)
    ensures AddressLow(address) == AddressLow(other) && AddressHigh(address) == AddressHigh(other) <==>
            Low16(address) == Low16(other)
  {
    hide AddressLow, AddressHigh, Low16, JoinAddress;
    AddressParts(address);
    AddressParts(other);
    PartsOfLow16(address);
    PartsOfLow16(other);
  }
}
