/** Signal packing of include/ioniq5_ecan/bit_codec.hpp, and the second reading of the same layout in
    scripts/ecan_signal_decoder.py.

    Bit p of a frame is bit p % 8 of byte p / 8. A little-endian field takes consecutive bits upwards from
    its start, least significant first. A big-endian (Motorola) field starts at its most significant bit
    and walks down each byte, continuing at the top of the next one. */
module BitCodec {
  import opened Arithmetic

  datatype ByteOrder = LittleEndian | BigEndian

  datatype Field = Field(start: nat, length: nat, order: ByteOrder)

  const MAXIMUM_LENGTH: nat := 64

  // ----- Bits of a byte, a frame and a number -----

  /** 1 << k for a byte. */
  function Mask(k: nat): Byte
    requires k < 8
  {
    if k == 0 then 1 else if k == 1 then 2 else if k == 2 then 4 else if k == 3 then 8
    else if k == 4 then 16 else if k == 5 then 32 else if k == 6 then 64 else 128
  }

  predicate BitOf(b: Byte, k: nat)
    requires k < 8
  {
    b & Mask(k) != 0
  }

  function SetBit(b: Byte, k: nat, on: bool): Byte
    requires k < 8
  {
    (b & !Mask(k)) | (if on then Mask(k) else 0)
  }

  lemma SetBitBits(b: Byte, k: nat, on: bool, j: nat)
    requires k < 8 && j < 8
    ensures BitOf(SetBit(b, k, on), j) == if j == k then on else BitOf(b, j)
  {
    MasksDiffer(j, k);
    SetMask(b, Mask(k), on, Mask(j));
  }

  lemma MasksDiffer(j: nat, k: nat)
    requires j < 8 && k < 8
    ensures Mask(j) != 0
    ensures j != k ==> Mask(j) & Mask(k) == 0
  {
  }

  lemma SetMask(b: Byte, m: Byte, on: bool, n: Byte)
    requires n != 0 && (n == m || n & m == 0)
    ensures ((b & !m) | (if on then m else 0)) & n != 0 <==> if n == m then on else b & n != 0
  {
  }

  lemma ByteByBits(a: Byte, b: Byte)
    requires forall k :: 0 <= k < 8 ==> BitOf(a, k) == BitOf(b, k)
    ensures a == b
  {
    assert BitOf(a, 0) == BitOf(b, 0) && BitOf(a, 1) == BitOf(b, 1) && BitOf(a, 2) == BitOf(b, 2) &&
           BitOf(a, 3) == BitOf(b, 3) && BitOf(a, 4) == BitOf(b, 4) && BitOf(a, 5) == BitOf(b, 5) &&
           BitOf(a, 6) == BitOf(b, 6) && BitOf(a, 7) == BitOf(b, 7);
  }

  predicate Bit(data: seq<Byte>, p: nat)
    requires p < 8 * |data|
  {
    BitOf(data[p / 8], p % 8)
  }

  /** A frame is its bits. */
  lemma FrameByBits(a: seq<Byte>, b: seq<Byte>)
    requires |a| == |b| && forall p :: 0 <= p < 8 * |a| ==> Bit(a, p) == Bit(b, p)
    ensures a == b
  {
    forall i | 0 <= i < |a| ensures a[i] == b[i] {
      forall k | 0 <= k < 8 ensures BitOf(a[i], k) == BitOf(b[i], k) {
        assert Bit(a, 8 * i + k) == Bit(b, 8 * i + k);
      }
      ByteByBits(a[i], b[i]);
    }
  }

  /** (raw >> i) & 1 */
  predicate RawBit(raw: nat, i: nat) {
    if i == 0 then raw % 2 == 1 else RawBit(raw / 2, i - 1)
  }

  // ----- The walk of a field -----

  /** Bits in network order: the most significant bit of each byte first. */
  function Network(p: nat): nat {
    8 * (p / 8) + 7 - p % 8
  }

  lemma NetworkTwice(p: nat)
    ensures Network(Network(p)) == p
  {
    assert Network(p) / 8 == p / 8 && Network(p) % 8 == 7 - p % 8;
  }

  /** The number that grows by one at each step of a field's walk. */
  function Slot(order: ByteOrder, p: nat): nat {
    if order == LittleEndian then p else Network(p)
  }

  function Base(f: Field): nat { Slot(f.order, f.start) }

  /** The bit that step i of the walk visits. */
  function Position(f: Field, i: nat): nat { Slot(f.order, Base(f) + i) }

  /** The bit of the raw value that step i carries. */
  function Weight(f: Field, i: nat): nat
    requires i < f.length
  {
    if f.order == LittleEndian then i else f.length - 1 - i
  }

  predicate InWalk(f: Field, p: nat) {
    Base(f) <= Slot(f.order, p) < Base(f) + f.length
  }

  predicate ValidLength(f: Field) { 1 <= f.length <= MAXIMUM_LENGTH }

  /** The whole walk lies in the frame. */
  predicate Inside(f: Field, bytes: nat) {
    1 <= f.length && Base(f) + f.length <= 8 * bytes
  }

  predicate Fits(f: Field, bytes: nat) {
    ValidLength(f) && Inside(f, bytes)
  }

  /** One step down a byte, or on to the top of the next byte. */
  function MotorolaStep(p: nat): nat {
    if p % 8 == 0 then p + 15 else p - 1
  }

  /** The Motorola walk moves one place in network order at each step. */
  lemma MotorolaIsNetworkOrder(p: nat)
    ensures Network(MotorolaStep(p)) == Network(p) + 1
  {
    if p % 8 != 0 {
      assert (p - 1) / 8 == p / 8 && (p - 1) % 8 == p % 8 - 1;
    } else {
      assert (p + 15) / 8 == p / 8 + 1 && (p + 15) % 8 == 7;
    }
  }

  lemma MotorolaNext(f: Field, i: nat)
    requires f.order == BigEndian
    ensures MotorolaStep(Position(f, i)) == Position(f, i + 1)
  {
    var p := Position(f, i);
    NetworkTwice(Base(f) + i);
    MotorolaIsNetworkOrder(p);
    NetworkTwice(MotorolaStep(p));
  }

  /** Positions, steps and the range check agree. */
  lemma Walk(f: Field, i: nat, bytes: nat)
    ensures Slot(f.order, Position(f, i)) == Base(f) + i
    ensures Position(f, i) < 8 * bytes <==> Base(f) + i < 8 * bytes
    ensures Position(f, 0) == f.start
  {
    hide Network;
    NetworkTwice(Base(f) + i);
    NetworkTwice(f.start);
    NetworkBound(Base(f) + i, bytes);
  }

  /** Network order permutes the bits of each byte. */
  lemma NetworkBound(p: nat, bytes: nat)
    ensures Network(p) / 8 == p / 8
    ensures Network(p) < 8 * bytes <==> p < 8 * bytes
  {
  }

  // ----- Writing -----

  function WriteStep(data: seq<Byte>, f: Field, raw: nat, i: nat): (r: seq<Byte>)
    requires i < f.length && Position(f, i) < 8 * |data|
    ensures |r| == |data|
  {
    var p := Position(f, i);
    data[p / 8 := SetBit(data[p / 8], p % 8, RawBit(raw, Weight(f, i)))]
  }

  /** The frame after the first n steps. */
  function Written(data: seq<Byte>, f: Field, raw: nat, n: nat): (r: seq<Byte>)
    requires n <= f.length && Base(f) + n <= 8 * |data|
    ensures |r| == |data|
  {
    if n == 0 then data
    else
      Walk(f, n - 1, |data|);
      WriteStep(Written(data, f, raw, n - 1), f, raw, n - 1)
  }

  lemma WriteStepBit(data: seq<Byte>, f: Field, raw: nat, i: nat, p: nat)
    requires i < f.length && Position(f, i) < 8 * |data| && p < 8 * |data|
    ensures Bit(WriteStep(data, f, raw, i), p) ==
            if p == Position(f, i) then RawBit(raw, Weight(f, i)) else Bit(data, p)
  {
    hide RawBit, Position, SetBit, BitOf, Weight;
    var q := Position(f, i);
    SetBitBits(data[q / 8], q % 8, RawBit(raw, Weight(f, i)), p % 8);
    assert p == 8 * (p / 8) + p % 8 && q == 8 * (q / 8) + q % 8;
  }

  /** Exactly the visited bits change, and each gets its bit of the raw value. */
  lemma {:induction false} WrittenBit(data: seq<Byte>, f: Field, raw: nat, n: nat, p: nat)
    requires n <= f.length && Base(f) + n <= 8 * |data| && p < 8 * |data|
    ensures var slot := Slot(f.order, p);
            Bit(Written(data, f, raw, n), p) ==
            if Base(f) <= slot < Base(f) + n then RawBit(raw, Weight(f, slot - Base(f))) else Bit(data, p)
  {
    hide RawBit, Bit, WriteStep, Base, Weight, Network;
    if n > 0 {
      WrittenBit(data, f, raw, n - 1, p);
      Walk(f, n - 1, |data|);
      WriteStepBit(Written(data, f, raw, n - 1), f, raw, n - 1, p);
      if f.order == BigEndian {
        NetworkTwice(p);
      }
    }
  }

  /** How many steps a call makes before it returns or throws: a little-endian field is range-checked
      first, a Motorola field while it is written. */
  function StepsMade(f: Field, bytes: nat): (n: nat)
    ensures n <= f.length && (n == 0 || Base(f) + n <= 8 * bytes)
    ensures Fits(f, bytes) ==> n == f.length
  {
    if !ValidLength(f) || Base(f) >= 8 * bytes then 0
    else if Base(f) + f.length <= 8 * bytes then f.length
    else if f.order == LittleEndian then 0
    else 8 * bytes - Base(f)
  }

  function AfterSet(data: seq<Byte>, f: Field, raw: nat): seq<Byte> {
    if StepsMade(f, |data|) == 0 then data else Written(data, f, raw, StepsMade(f, |data|))
  }

  /** `set_signal`; `ok` is false where the source throws. */
  method SetSignal(data: array<Byte>, f: Field, raw: nat) returns (ok: bool)
    modifies data
    ensures ok == Fits(f, data.Length)
    ensures data[..] == AfterSet(old(data[..]), f, raw)
  {
    hide RawBit, SetBit, Network, BitOf, Mask;
    ghost var before := data[..];
    if f.length == 0 || f.length > 64 { return false; }
    if f.order == LittleEndian {
      if f.start + f.length > data.Length * 8 { return false; }
      for i := 0 to f.length
        invariant data[..] == Written(before, f, raw, i)
      {
        var dst := f.start + i;
        assert dst == Position(f, i);
        data[dst / 8] := SetBit(data[dst / 8], dst % 8, RawBit(raw, i));
      }
      return true;
    }
    var bit := f.start;
    Walk(f, 0, data.Length);
    for i := 0 to f.length
      invariant bit == Position(f, i)
      invariant i == 0 || Base(f) + i <= 8 * data.Length
      invariant data[..] == if i == 0 then before else Written(before, f, raw, i)
    {
      Walk(f, i, data.Length);
      if bit >= data.Length * 8 { return false; }
      var source := f.length - 1 - i;
      data[bit / 8] := SetBit(data[bit / 8], bit % 8, RawBit(raw, source));
      MotorolaNext(f, i);
      bit := if bit % 8 == 0 then bit + 15 else bit - 1;
    }
    ok := true;
  }

  // ----- Reading -----

  /** The bit of the frame that holds bit w of the raw value. */
  predicate FieldBit(data: seq<Byte>, f: Field, w: nat)
    requires Inside(f, |data|) && w < f.length
  {
    var p := Position(f, Weight(f, w));
    p < 8 * |data| && Bit(data, p)
  }

  /** The value of the bits from w upwards. */
  function ValueFrom(data: seq<Byte>, f: Field, w: nat): nat
    requires Inside(f, |data|) && w <= f.length
    decreases f.length - w
  {
    if w == f.length then 0 else Unit(FieldBit(data, f, w)) + 2 * ValueFrom(data, f, w + 1)
  }

  function FieldValue(data: seq<Byte>, f: Field): nat
    requires Inside(f, |data|)
  {
    ValueFrom(data, f, 0)
  }

  lemma StepBit(data: seq<Byte>, f: Field, i: nat)
    requires Inside(f, |data|) && i < f.length
    ensures Position(f, i) < 8 * |data| && Bit(data, Position(f, i)) == FieldBit(data, f, Weight(f, i))
  {
    hide Position, Bit;
    Walk(f, i, |data|);
  }

  /** `get_signal`: least significant bit first for little-endian, most significant first for Motorola. */
  method GetSignal(data: seq<Byte>, f: Field) returns (raw: nat, ok: bool)
    ensures ok == Fits(f, |data|)
    ensures ok ==> raw == FieldValue(data, f)
  {
    hide BitOf, Network, FieldBit, Rest, Pow2;
    raw := 0;
    if f.length == 0 || f.length > 64 { return 0, false; }
    if f.order == LittleEndian {
      if f.start + f.length > |data| * 8 { return 0, false; }
      RestEnds(data, f);
      for i := 0 to f.length
        invariant raw + Rest(data, f, i) == FieldValue(data, f)
      {
        var source := f.start + i;
        var bit := BitOf(data[source / 8], source % 8);
        StepBit(data, f, i);
        RestSteps(data, f, i);
        raw := raw + Unit(bit) * Pow2(i);
      }
      return raw, true;
    }
    var position := f.start;
    Walk(f, 0, |data|);
    for i := 0 to f.length
      invariant position == Position(f, i)
      invariant i == 0 || Base(f) + i <= 8 * |data|
      invariant Fits(f, |data|) ==> raw == ValueFrom(data, f, f.length - i)
    {
      Walk(f, i, |data|);
      if position >= |data| * 8 { return 0, false; }
      var bit := BitOf(data[position / 8], position % 8);
      if Fits(f, |data|) { StepBit(data, f, i); }
      raw := 2 * raw + Unit(bit);
      MotorolaNext(f, i);
      position := if position % 8 == 0 then position + 15 else position - 1;
    }
    ok := true;
  }

  /** What the bits from w upwards contribute to the value. */
  function Rest(data: seq<Byte>, f: Field, w: nat): nat
    requires Inside(f, |data|) && w <= f.length
  {
    Pow2(w) * ValueFrom(data, f, w)
  }

  lemma RestSteps(data: seq<Byte>, f: Field, w: nat)
    requires Inside(f, |data|) && w < f.length
    ensures Rest(data, f, w) == Unit(FieldBit(data, f, w)) * Pow2(w) + Rest(data, f, w + 1)
  {
    hide FieldBit;
    ScaleBit(Pow2(w), Unit(FieldBit(data, f, w)), ValueFrom(data, f, w + 1));
  }

  lemma RestEnds(data: seq<Byte>, f: Field)
    requires Inside(f, |data|)
    ensures Rest(data, f, 0) == FieldValue(data, f) && Rest(data, f, f.length) == 0
  {
  }

  lemma ScaleBit(scale: nat, bit: nat, rest: nat)
    ensures scale * (bit + 2 * rest) == bit * scale + (2 * scale) * rest
  {
  }

  /** Reading is the inverse of the raw value's bits. */
  lemma {:induction false} ValueBits(data: seq<Byte>, f: Field, w: nat, k: nat)
    requires Inside(f, |data|) && w <= f.length && k < f.length - w
    ensures RawBit(ValueFrom(data, f, w), k) == FieldBit(data, f, w + k)
    decreases k
  {
    hide FieldBit;
    var rest := ValueFrom(data, f, w + 1);
    assert (Unit(FieldBit(data, f, w)) + 2 * rest) / 2 == rest;
    if k > 0 {
      ValueBits(data, f, w + 1, k - 1);
    }
  }

  lemma {:induction false} ValueBounded(data: seq<Byte>, f: Field, w: nat)
    requires Inside(f, |data|) && w <= f.length
    ensures ValueFrom(data, f, w) < Pow2(f.length - w)
    decreases f.length - w
  {
    hide FieldBit;
    if w < f.length {
      ValueBounded(data, f, w + 1);
    }
  }

  lemma HalfOfMod(raw: nat, n: nat)
    ensures raw % (2 * Pow2(n)) == raw % 2 + 2 * ((raw / 2) % Pow2(n))
  {
    var m := Pow2(n);
    var q, r := (raw / 2) / m, (raw / 2) % m;
    assert raw == 2 * (raw / 2) + raw % 2;
    assert raw / 2 == m * q + r;
    assert raw == (2 * m) * q + (2 * r + raw % 2);
    Division(raw, 2 * m, q, 2 * r + raw % 2);
  }

  /** The bits from w upwards agree with a number, so the value is that number modulo the field's size. */
  lemma {:induction false} ValueOfBits(data: seq<Byte>, f: Field, w: nat, raw: nat)
    requires Inside(f, |data|) && w <= f.length
    requires forall k :: 0 <= k < f.length - w ==> FieldBit(data, f, w + k) == RawBit(raw, k)
    ensures ValueFrom(data, f, w) == raw % Pow2(f.length - w)
    decreases f.length - w
  {
    hide FieldBit;
    if w < f.length {
      assert FieldBit(data, f, w + 0) == RawBit(raw, 0);
      forall k | 0 <= k < f.length - (w + 1) ensures FieldBit(data, f, w + 1 + k) == RawBit(raw / 2, k) {
        assert FieldBit(data, f, w + (k + 1)) == RawBit(raw, k + 1);
      }
      ValueOfBits(data, f, w + 1, raw / 2);
      HalfOfMod(raw, f.length - w - 1);
    }
  }

  // ----- What packing promises -----

  /** Round trip: reading a written field gives the raw value modulo the field's size. */
  lemma GetAfterSet(data: seq<Byte>, f: Field, raw: nat, after: seq<Byte>)
    requires Fits(f, |data|) && after == AfterSet(data, f, raw)
    ensures |after| == |data| && FieldValue(after, f) == raw % Pow2(f.length)
  {
    hide RawBit, Bit, Network;
    assert after == Written(data, f, raw, f.length);
    forall k | 0 <= k < f.length ensures FieldBit(after, f, 0 + k) == RawBit(raw, k) {
      var step := Weight(f, k);
      Walk(f, step, |data|);
      WrittenBit(data, f, raw, f.length, Position(f, step));
    }
    ValueOfBits(after, f, 0, raw);
  }

  /** Frame: a bit outside the walk is unchanged, whether the call returns or throws. */
  lemma OutsideUnchanged(data: seq<Byte>, f: Field, raw: nat, p: nat)
    requires p < 8 * |data| && !InWalk(f, p)
    ensures |AfterSet(data, f, raw)| == |data| && Bit(AfterSet(data, f, raw), p) == Bit(data, p)
  {
    hide RawBit, Bit, Network, Written;
    var n := StepsMade(f, |data|);
    if n > 0 {
      WrittenBit(data, f, raw, n, p);
    }
  }

  ghost predicate Disjoint(f: Field, g: Field) {
    forall p: nat :: InWalk(f, p) ==> !InWalk(g, p)
  }

  /** A field's value depends on its own bits only. */
  lemma {:induction false} SameBitsSameValue(a: seq<Byte>, b: seq<Byte>, f: Field, w: nat)
    requires |a| == |b| && Inside(f, |a|) && w <= f.length
    requires forall p: nat :: p < 8 * |a| && InWalk(f, p) ==> Bit(a, p) == Bit(b, p)
    ensures ValueFrom(a, f, w) == ValueFrom(b, f, w)
    decreases f.length - w
  {
    hide Bit, Network;
    if w < f.length {
      Walk(f, Weight(f, w), |a|);
      assert InWalk(f, Position(f, Weight(f, w)));
      SameBitsSameValue(a, b, f, w + 1);
    }
  }

  /** Disjoint fields never disturb each other. */
  lemma DisjointFieldsIndependent(data: seq<Byte>, f: Field, g: Field, raw: nat, after: seq<Byte>)
    requires Inside(g, |data|) && Disjoint(f, g) && after == AfterSet(data, f, raw)
    ensures |after| == |data| && FieldValue(after, g) == FieldValue(data, g)
  {
    hide Bit, Network, AfterSet, InWalk;
    AfterSetLength(data, f, raw);
    forall p: nat | p < 8 * |data| && InWalk(g, p) ensures Bit(AfterSet(data, f, raw), p) == Bit(data, p) {
      assert !InWalk(f, p);
      OutsideUnchanged(data, f, raw, p);
    }
    SameBitsSameValue(AfterSet(data, f, raw), data, g, 0);
  }

  lemma AfterSetLength(data: seq<Byte>, f: Field, raw: nat)
    ensures |AfterSet(data, f, raw)| == |data|
  {
  }

  /** Writing back what was read changes nothing. */
  lemma SetAfterGet(data: seq<Byte>, f: Field)
    requires Fits(f, |data|)
    ensures AfterSet(data, f, FieldValue(data, f)) == data
  {
    hide Bit, Network, Written, RawBit;
    var raw := FieldValue(data, f);
    forall p | 0 <= p < 8 * |data| ensures Bit(AfterSet(data, f, raw), p) == Bit(data, p) {
      WrittenBit(data, f, raw, f.length, p);
      if InWalk(f, p) {
        var step := Slot(f.order, p) - Base(f);
        ValueBits(data, f, 0, Weight(f, step));
        NetworkTwice(p);
      }
    }
    FrameByBits(AfterSet(data, f, raw), data);
  }
}
