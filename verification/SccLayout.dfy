/** The host's frames as lists of field writes: the layouts of src/hyundai_canfd_codec.cpp, their
    disjointness, and what a list of disjoint writes does to a payload. */
module SccLayout {
  import opened Arithmetic
  import opened BitCodec
  import C = Crc

  datatype Layout = SccControl | Lfa | LfaCluster | FcaWarning

  function Size(l: Layout): nat { if l == SccControl then 32 else 16 }

  function Fields(l: Layout): nat {
    match l
    case SccControl => 17
    case Lfa => 9
    case LfaCluster => 3
    case FcaWarning => 6
  }

  /** The i-th write of a frame. */
  function FieldAt(l: Layout, i: nat): Field {
    match l
    case SccControl => SccField(i)
    case Lfa => LfaField(i)
    case LfaCluster => ClusterField(i)
    case FcaWarning => FcaField(i)
  }

  function SccField(i: nat): Field {
    if i == 0 then Field(16, 8, LittleEndian)          // counter
    else if i == 1 then Field(24, 11, LittleEndian)    // object distance
    else if i == 2 then Field(45, 2, BigEndian)
    else if i == 3 then Field(46, 1, BigEndian)
    else if i == 4 then Field(55, 8, BigEndian)
    else if i == 5 then Field(66, 1, LittleEndian)
    else if i == 6 then Field(68, 3, LittleEndian)     // control state
    else if i == 7 then Field(76, 1, LittleEndian)     // stopping
    else if i == 8 then Field(88, 3, LittleEndian)
    else if i == 9 then Field(103, 8, BigEndian)       // set speed
    else if i == 10 then Field(105, 3, LittleEndian)
    else if i == 11 then Field(128, 11, LittleEndian)  // acceleration value
    else if i == 12 then Field(140, 11, LittleEndian)  // raw acceleration
    else if i == 13 then Field(158, 7, BigEndian)      // upper jerk limit
    else if i == 14 then Field(166, 7, BigEndian)      // lower jerk limit
    else if i == 15 then Field(176, 3, LittleEndian)
    else Field(184, 1, BigEndian)
  }

  function LfaField(i: nat): Field {
    if i == 0 then Field(16, 8, LittleEndian)          // counter
    else if i == 1 then Field(24, 3, LittleEndian)
    else if i == 2 then Field(27, 3, LittleEndian)
    else if i == 3 then Field(38, 3, LittleEndian)     // steering state
    else if i == 4 then Field(41, 11, LittleEndian)    // torque
    else if i == 5 then Field(52, 2, LittleEndian)     // torque request
    else if i == 6 then Field(60, 4, LittleEndian)
    else if i == 7 then Field(104, 8, LittleEndian)    // damping gain
    else Field(80, 2, LittleEndian)
  }

  function ClusterField(i: nat): Field {
    if i == 0 then Field(16, 8, LittleEndian)
    else if i == 1 then Field(31, 1, LittleEndian)
    else Field(47, 2, LittleEndian)
  }

  function FcaField(i: nat): Field {
    if i == 0 then Field(16, 8, LittleEndian)
    else if i == 1 then Field(24, 2, LittleEndian)
    else if i == 2 then Field(56, 8, LittleEndian)
    else if i == 3 then Field(64, 8, LittleEndian)
    else if i == 4 then Field(72, 8, LittleEndian)
    else Field(80, 8, LittleEndian)
  }

  // ----- The bits of a field that stays in one byte or counts upwards -----

  predicate Plain(f: Field) {
    1 <= f.length <= MAXIMUM_LENGTH && (f.order == BigEndian ==> f.length <= f.start % 8 + 1)
  }

  function First(f: Field): nat
    requires Plain(f)
  {
    if f.order == LittleEndian then f.start else f.start + 1 - f.length
  }

  function End(f: Field): nat
    requires Plain(f)
  {
    if f.order == LittleEndian then f.start + f.length else f.start + 1
  }

  lemma WalkIsInterval(f: Field, p: nat)
    requires Plain(f)
    ensures InWalk(f, p) <==> First(f) <= p < End(f)
  {
    if f.order == BigEndian {
      SameByteOrder(f.start, p, f.length);
    }
  }

  lemma SameByteOrder(s: nat, p: nat, length: nat)
    requires 1 <= length <= s % 8 + 1
    ensures Network(s) <= Network(p) < Network(s) + length <==> s + 1 - length <= p <= s
  {
    if p / 8 < s / 8 {
      assert Network(p) < Network(s);
    } else if p / 8 > s / 8 {
      assert Network(p) >= Network(s) + length;
    }
  }

  lemma PlainFits(f: Field, bytes: nat)
    requires Plain(f) && End(f) <= 8 * bytes
    ensures Fits(f, bytes)
  {
    if f.order == BigEndian {
      LastInByte(f.start, f.length);
      assert f.start / 8 < bytes;
    }
  }

  lemma LastInByte(s: nat, length: nat)
    requires 1 <= length <= s % 8 + 1
    ensures Network(s) + length <= 8 * (s / 8) + 8
  {
  }

  lemma IntervalsDisjoint(f: Field, g: Field)
    requires Plain(f) && Plain(g) && (End(f) <= First(g) || End(g) <= First(f))
    ensures Disjoint(f, g)
  {
    hide InWalk, First, End;
    forall p: nat | InWalk(f, p) ensures !InWalk(g, p) {
      WalkIsInterval(f, p);
      WalkIsInterval(g, p);
    }
  }

  // ----- The layouts are tidy -----

  /** Every write of a frame is inside the payload and behind the checksum. */
  lemma FieldPlain(l: Layout, i: nat)
    requires i < Fields(l)
    ensures Plain(FieldAt(l, i)) && 16 <= First(FieldAt(l, i)) && End(FieldAt(l, i)) <= 8 * Size(l)
  {
  }

  lemma FieldFits(l: Layout, i: nat)
    requires i < Fields(l)
    ensures Fits(FieldAt(l, i), Size(l))
  {
    hide FieldAt;
    FieldPlain(l, i);
    PlainFits(FieldAt(l, i), Size(l));
  }

  lemma SccAscends(i: nat)
    requires i + 1 < 17
    ensures End(SccField(i)) <= First(SccField(i + 1))
  {
  }

  lemma SccOrdered(i: nat, j: nat)
    requires i < j < 17
    ensures End(SccField(i)) <= First(SccField(j))
    decreases j
  {
    hide SccField, Plain;
    SccAscends(j - 1);
    if i < j - 1 {
      SccOrdered(i, j - 1);
      FieldPlain(SccControl, j - 1);
    }
  }

  lemma LfaApart(i: nat, j: nat)
    requires i < j < 9
    ensures End(LfaField(i)) <= First(LfaField(j)) || End(LfaField(j)) <= First(LfaField(i))
  {
  }

  lemma SmallApart(i: nat, j: nat)
    requires i < j
    ensures j < 3 ==> End(ClusterField(i)) <= First(ClusterField(j))
    ensures j < 6 ==> End(FcaField(i)) <= First(FcaField(j))
  {
  }

  /** No two writes of one frame touch the same bit. */
  lemma FieldsDisjoint(l: Layout, i: nat, j: nat)
    requires i < Fields(l) && j < Fields(l) && i != j
    ensures Disjoint(FieldAt(l, i), FieldAt(l, j))
  {
    hide SccField, LfaField, ClusterField, FcaField, Disjoint, First, End, Plain;
    var a, b := if i < j then i else j, if i < j then j else i;
    FieldPlain(l, a);
    FieldPlain(l, b);
    match l {
      case SccControl => SccOrdered(a, b);
      case Lfa => LfaApart(a, b);
      case LfaCluster => SmallApart(a, b);
      case FcaWarning => SmallApart(a, b);
    }
    IntervalsDisjoint(FieldAt(l, i), FieldAt(l, j));
  }

  // ----- A list of writes -----

  function WriteAll(l: Layout, base: seq<Byte>, raws: seq<nat>, n: nat): (r: seq<Byte>)
    requires n <= |raws|
    ensures |r| == |base|
  {
    if n == 0 then base
    else
      AfterSetLength(WriteAll(l, base, raws, n - 1), FieldAt(l, n - 1), raws[n - 1]);
      AfterSet(WriteAll(l, base, raws, n - 1), FieldAt(l, n - 1), raws[n - 1])
  }

  predicate Owned(l: Layout, n: nat, p: nat) {
    exists i :: 0 <= i < n && InWalk(FieldAt(l, i), p)
  }

  /** Each field holds its raw value, whatever is written after it. */
  lemma {:induction false} WriteAllReads(l: Layout, base: seq<Byte>, raws: seq<nat>, n: nat, i: nat)
    requires |base| == Size(l) && i < n <= |raws| && n <= Fields(l)
    ensures Fits(FieldAt(l, i), Size(l))
    ensures FieldValue(WriteAll(l, base, raws, n), FieldAt(l, i)) == raws[i] % Pow2(FieldAt(l, i).length)
    decreases n
  {
    hide FieldAt, AfterSet, FieldValue, Fits, Disjoint, Inside, Size;
    FieldFits(l, i);
    var before := WriteAll(l, base, raws, n - 1);
    if i == n - 1 {
      GetAfterSet(before, FieldAt(l, i), raws[i], WriteAll(l, base, raws, n));
    } else {
      WriteAllReads(l, base, raws, n - 1, i);
      FieldsDisjoint(l, n - 1, i);
      InsideFrame(FieldAt(l, i), Size(l));
      DisjointFieldsIndependent(before, FieldAt(l, n - 1), FieldAt(l, i), raws[n - 1], WriteAll(l, base, raws, n));
    }
  }

  lemma InsideFrame(f: Field, bytes: nat)
    requires Fits(f, bytes)
    ensures Inside(f, bytes)
  {
  }

  /** Bits that no field owns keep their value. */
  lemma {:induction false} WriteAllKeeps(l: Layout, base: seq<Byte>, raws: seq<nat>, n: nat, p: nat)
    requires n <= |raws| && p < 8 * |base| && !Owned(l, n, p)
    ensures Bit(WriteAll(l, base, raws, n), p) == Bit(base, p)
    decreases n
  {
    hide FieldAt, AfterSet, InWalk, Bit;
    if n > 0 {
      assert !Owned(l, n - 1, p);
      WriteAllKeeps(l, base, raws, n - 1, p);
      OutsideUnchanged(WriteAll(l, base, raws, n - 1), FieldAt(l, n - 1), raws[n - 1], p);
    }
  }

  // ----- Sealing -----

  /** Sealing touches the first sixteen bits only. */
  lemma SealKeepsBits(address: bv32, data: seq<Byte>, p: nat)
    requires C.Supported(|data|) && 16 <= p < 8 * |data|
    ensures Bit(C.Sealed(address, data), p) == Bit(data, p)
  {
    hide C.Checksum, C.LowByte, C.HighByte;
    assert p / 8 >= 2;
  }

  lemma SealKeepsField(address: bv32, data: seq<Byte>, f: Field)
    requires C.Supported(|data|) && Fits(f, |data|) && Plain(f) && First(f) >= 16
    ensures FieldValue(C.Sealed(address, data), f) == FieldValue(data, f)
  {
    hide C.Sealed, Bit, First, End, InWalk, Plain;
    forall p: nat | p < 8 * |data| && InWalk(f, p) ensures Bit(C.Sealed(address, data), p) == Bit(data, p) {
      WalkIsInterval(f, p);
      SealKeepsBits(address, data, p);
    }
    SameBitsSameValue(C.Sealed(address, data), data, f, 0);
  }

  /** A sealed list of writes: accepted by the checksum, each field readable, every other bit kept. */
  lemma SealedWrites(l: Layout, address: bv32, base: seq<Byte>, raws: seq<nat>)
    requires |base| == Size(l) && |raws| == Fields(l)
    ensures C.Supported(Size(l))
    ensures C.Accepts(address, C.Sealed(address, WriteAll(l, base, raws, |raws|)))
  {
    hide C.Sealed, C.Accepts, WriteAll;
    C.SealedIsAccepted(address, WriteAll(l, base, raws, |raws|));
  }

  lemma SealedFieldReads(l: Layout, address: bv32, base: seq<Byte>, raws: seq<nat>, i: nat)
    requires |base| == Size(l) && i < |raws| == Fields(l) && C.Supported(Size(l))
    ensures Fits(FieldAt(l, i), Size(l))
    ensures FieldValue(C.Sealed(address, WriteAll(l, base, raws, |raws|)), FieldAt(l, i)) ==
            raws[i] % Pow2(FieldAt(l, i).length)
  {
    hide C.Sealed, WriteAll, FieldAt, FieldValue, Fits, Plain, First, Size;
    FieldPlain(l, i);
    WriteAllReads(l, base, raws, |raws|, i);
    SealKeepsField(address, WriteAll(l, base, raws, |raws|), FieldAt(l, i));
  }

  lemma SealedBitsKept(l: Layout, address: bv32, base: seq<Byte>, raws: seq<nat>, p: nat)
    requires |base| == Size(l) && |raws| == Fields(l) && C.Supported(Size(l))
    requires 16 <= p < 8 * Size(l) && !Owned(l, |raws|, p)
    ensures Bit(C.Sealed(address, WriteAll(l, base, raws, |raws|)), p) == Bit(base, p)
  {
    hide C.Sealed, WriteAll, Bit, Owned;
    SealKeepsBits(address, WriteAll(l, base, raws, |raws|), p);
    WriteAllKeeps(l, base, raws, |raws|, p);
  }
}
