/** The frames of SccCodec.dfy, bit by bit: which bits of the payload hold what, with every position, length and
    constant written out, and what the rest of the frame looks like. `Bits` counts bits from the least significant
    of the first byte on. */
module SccLaws {
  import opened Arithmetic
  import opened BitLaws
  import opened SccLayout
  import opened SccCodec
  import opened B = BitCodec
  import C = Crc
  import D = SignalDecoder
  import L = CrcLaws
  import P = PandaFraming

  // ----- Pieces of a built payload -----

  /** The field at its place, as the plain bits it occupies. */
  lemma Piece(l: Layout, base: seq<Byte>, raws: seq<nat>, i: nat, first: nat, count: nat)
    requires |base| == Size(l) && i < |raws| == Fields(l)
    requires var f := FieldAt(l, i); Plain(f) && first == First(f) && count == f.length
    ensures Bits(Payload(l, base, raws), first, count) == raws[i] % Pow2(count)
  {
    hide Payload, FieldAt, FieldValue, Bits, Pow2, Fits;
    FieldsReadBack(l, base, raws, i);
    FieldPlain(l, i);
    FieldIsBits(Payload(l, base, raws), FieldAt(l, i));
  }

  /** Bits between the fields are the base's. */
  lemma BetweenFields(l: Layout, base: seq<Byte>, raws: seq<nat>, p: nat)
    requires |base| == Size(l) && |raws| == Fields(l) && 16 <= p < 8 * Size(l)
    requires forall i :: 0 <= i < Fields(l) ==>
      Plain(FieldAt(l, i)) && (p < First(FieldAt(l, i)) || End(FieldAt(l, i)) <= p)
    ensures Bit(Payload(l, base, raws), p) == Bit(base, p)
  {
    hide C.Sealed, WriteAll, Bit, InWalk, FieldAt, First, End, Plain, Address;
    forall i | 0 <= i < Fields(l) ensures !InWalk(FieldAt(l, i), p) {
      WalkIsInterval(FieldAt(l, i), p);
    }
    SealedBitsKept(l, Address(l), base, raws, p);
  }

  lemma BlankBit(n: nat, p: nat)
    requires p < 8 * n
    ensures !Bit(Blank(n), p)
  {
  }

  /** A gap of a frame that is built on zeros. */
  lemma Gap(l: Layout, raws: seq<nat>, first: nat, count: nat)
    requires |raws| == Fields(l) && 1 <= count <= 64 && 16 <= first && first + count <= 8 * Size(l)
    requires forall i :: 0 <= i < Fields(l) ==>
      Plain(FieldAt(l, i)) && (first + count <= First(FieldAt(l, i)) || End(FieldAt(l, i)) <= first)
    ensures Bits(Payload(l, Blank(Size(l)), raws), first, count) == 0
  {
    hide Payload, Bit, Bits, FieldAt, First, End, Plain, Blank;
    forall p | first <= p < first + count ensures !Bit(Payload(l, Blank(Size(l)), raws), p) {
      BetweenFields(l, Blank(Size(l)), raws, p);
      BlankBit(Size(l), p);
    }
    ClearBits(Payload(l, Blank(Size(l)), raws), first, count);
  }

  // ----- The frame around the payload -----

  /** A CAN FD frame with a standard identifier, none of the receiver's flags and zeros behind its payload. */
  predicate Framed(f: P.Frame, address: bv32, bus: Byte, size: nat) {
    && f.address == address && f.bus == bus && f.fd && !f.extended && !f.returned && !f.rejected
    && f.size == size <= |f.data| == 64 && forall k :: size <= k < 64 ==> f.data[k] == 0
  }

  lemma FramesExactly(payload: seq<Byte>, bus: Byte)
    ensures |payload| == 32 ==> Framed(FrameOf(SccControl, payload, bus), 0x1A0, bus, 32)
    ensures |payload| == 16 ==> Framed(FrameOf(Lfa, payload, bus), 0x12A, bus, 16)
    ensures |payload| == 16 ==> Framed(FrameOf(LfaCluster, payload, bus), 0x1E0, bus, 16)
    ensures |payload| == 16 ==> Framed(FrameOf(FcaWarning, payload, bus), 0x160, bus, 16)
  {
  }

  lemma Powers()
    ensures Pow2(1) == 2 && Pow2(2) == 4 && Pow2(3) == 8 && Pow2(4) == 16 && Pow2(5) == 32 && Pow2(6) == 64
    ensures Pow2(7) == 128 && Pow2(8) == 256 && Pow2(11) == 2048
  {
    SmallPowers();
    assert Pow2(4) == 2 * Pow2(3);
    assert Pow2(5) == 2 * Pow2(4);
    assert Pow2(6) == 2 * Pow2(5);
  }

  /** Bytes k to n are zero. */
  predicate ZeroBytes(data: seq<Byte>, k: nat, n: nat)
    requires n <= |data|
  {
    forall j :: k <= j < n ==> data[j] == 0
  }

  lemma ZeroByte(l: Layout, raws: seq<nat>, k: nat)
    requires |raws| == Fields(l) && 2 <= k < Size(l)
    requires forall i :: 0 <= i < Fields(l) ==>
      Plain(FieldAt(l, i)) && (8 * k + 8 <= First(FieldAt(l, i)) || End(FieldAt(l, i)) <= 8 * k)
    ensures Payload(l, Blank(Size(l)), raws)[k] == 0
  {
    hide Payload, Bits, FieldAt, First, End, Plain, Blank, D.Number;
    Gap(l, raws, 8 * k, 8);
    ByteIsBits(Payload(l, Blank(Size(l)), raws), k);
    ZeroNumber(Payload(l, Blank(Size(l)), raws)[k]);
  }

  lemma ZeroNumber(b: Byte)
    ensures D.Number(b) == 0 ==> b == 0
  {
  }

  // ----- The cluster frame -----

  /** Byte 2 counts; the highest bit of byte 3 and the lowest of byte 6 say that lane following is on. */
  lemma ClusterExactly(counter: Count, enabled: bool, payload: seq<Byte>)
    requires payload == Payload(LfaCluster, Blank(16), ClusterRaws(counter, enabled))
    ensures |payload| == 16 && C.Accepts(0x1E0, payload)
    ensures D.Number(payload[2]) == counter && D.Number(payload[3]) == (if enabled then 0x80 else 0)
    ensures D.Number(payload[6]) == (if enabled then 1 else 0)
    ensures payload[4] == payload[5] == 0 && ZeroBytes(payload, 7, 16)
  {
    hide Payload, Bits, Pow2, D.Number, C.Accepts;
    var l, raws := LfaCluster, ClusterRaws(counter, enabled);
    var base := Blank(16);
    Powers();
    FramesAreAccepted(l, base, raws, 0);
    Piece(l, base, raws, 0, 16, 8);
    Piece(l, base, raws, 1, 31, 1);
    Piece(l, base, raws, 2, 47, 2);
    Gap(l, raws, 24, 7);
    BitsJoin(payload, 24, 7, 1);
    Gap(l, raws, 40, 7);
    BitsJoin(payload, 47, 1, 1);
    BitsBounded(payload, 47, 1);
    BitsJoin(payload, 40, 7, 1);
    Gap(l, raws, 49, 7);
    BitsJoin(payload, 48, 1, 7);
    ByteIsBits(payload, 2);
    ByteIsBits(payload, 3);
    ByteIsBits(payload, 5);
    ZeroNumber(payload[5]);
    ByteIsBits(payload, 6);
    ZeroByte(l, raws, 4);
    forall k | 7 <= k < 16 ensures payload[k] == 0 { ZeroByte(l, raws, k); }
  }

  // ----- The FCA frame -----

  lemma FcaExactly(counter: Count, payload: seq<Byte>)
    requires payload == Payload(FcaWarning, Blank(16), FcaRaws(counter))
    ensures |payload| == 16 && C.Accepts(0x160, payload)
    ensures D.Number(payload[2]) == counter && D.Number(payload[3]) == 1
    ensures D.Number(payload[7]) == 0x02 && D.Number(payload[8]) == 0xFF && D.Number(payload[9]) == 0xFC
    ensures D.Number(payload[10]) == 0x09
    ensures ZeroBytes(payload, 4, 7) && ZeroBytes(payload, 11, 16)
  {
    hide Payload, Bits, Pow2, D.Number, C.Accepts;
    var l, raws := FcaWarning, FcaRaws(counter);
    var base := Blank(16);
    Powers();
    FramesAreAccepted(l, base, raws, 0);
    Piece(l, base, raws, 0, 16, 8);
    Piece(l, base, raws, 1, 24, 2);
    Piece(l, base, raws, 2, 56, 8);
    Piece(l, base, raws, 3, 64, 8);
    Piece(l, base, raws, 4, 72, 8);
    Piece(l, base, raws, 5, 80, 8);
    Gap(l, raws, 26, 6);
    BitsJoin(payload, 24, 2, 6);
    ByteIsBits(payload, 2);
    ByteIsBits(payload, 3);
    ByteIsBits(payload, 7);
    ByteIsBits(payload, 8);
    ByteIsBits(payload, 9);
    ByteIsBits(payload, 10);
    forall k | 4 <= k < 7 ensures payload[k] == 0 { ZeroByte(l, raws, k); }
    forall k | 11 <= k < 16 ensures payload[k] == 0 { ZeroByte(l, raws, k); }
  }

  // ----- The LFA frame -----

  /** The torque limit of the frame and the offset it is sent with. */
  function TorqueCode(torque: int): (code: nat)
    ensures 3 <= code <= 2045
  {
    1024 + (if torque < -1021 then -1021 else if torque > 1021 then 1021 else torque)
  }

  /** Byte 2 counts, byte 4 says whether lane following is on, the torque code lies in eleven bits from the second of
      byte 5 on, the request in bit 4 of byte 6, and byte 13 is the damping gain. */
  lemma LfaExactly(counter: Count, torque: int, enabled: bool, request: bool, payload: seq<Byte>)
    requires payload == Payload(Lfa, Blank(16), LfaRaws(counter, torque, enabled, request))
    ensures |payload| == 16 && C.Accepts(0x12A, payload)
    ensures D.Number(payload[2]) == counter && D.Number(payload[3]) == 2
    ensures D.Number(payload[4]) == (if enabled then 0x80 else 0x40)
    ensures D.Number(payload[5]) + 256 * D.Number(payload[6]) == 2 * TorqueCode(torque) + (if request then 4096 else 0)
    ensures ZeroBytes(payload, 7, 13) && D.Number(payload[13]) == 100 && ZeroBytes(payload, 14, 16)
  {
    hide Payload, Bits, Pow2, D.Number, C.Accepts;
    var l, raws := Lfa, LfaRaws(counter, torque, enabled, request);
    var base := Blank(16);
    Powers();
    FramesAreAccepted(l, base, raws, 0);
    Piece(l, base, raws, 0, 16, 8);
    ByteIsBits(payload, 2);
    Piece(l, base, raws, 7, 104, 8);
    ByteIsBits(payload, 13);
    LfaState(raws, payload);
    LfaTorque(raws, payload);
    LfaZeros(raws, payload);
  }

  lemma LfaState(raws: seq<nat>, payload: seq<Byte>)
    requires |raws| == 9 && payload == Payload(Lfa, Blank(16), raws)
    requires raws[1] == 2 && raws[2] == 0 && raws[3] < 4
    ensures D.Number(payload[3]) == 2 && D.Number(payload[4]) == 64 * raws[3]
  {
    hide Payload, Bits, Pow2, D.Number;
    Powers();
    Piece(Lfa, Blank(16), raws, 1, 24, 3);
    Piece(Lfa, Blank(16), raws, 2, 27, 3);
    Gap(Lfa, raws, 30, 2);
    BitsJoin(payload, 27, 3, 2);
    BitsJoin(payload, 24, 3, 5);
    ByteIsBits(payload, 3);
    Piece(Lfa, Blank(16), raws, 3, 38, 3);
    Gap(Lfa, raws, 32, 6);
    BitsJoin(payload, 38, 2, 1);
    BitsBounded(payload, 38, 2);
    BitsJoin(payload, 32, 6, 2);
    ByteIsBits(payload, 4);
  }

  lemma LfaTorque(raws: seq<nat>, payload: seq<Byte>)
    requires |raws| == 9 && payload == Payload(Lfa, Blank(16), raws)
    requires raws[3] < 4 && raws[4] < 2048 && raws[5] < 4
    ensures D.Number(payload[5]) + 256 * D.Number(payload[6]) == 2 * raws[4] + 4096 * raws[5]
  {
    hide Payload, Bits, Pow2, D.Number;
    Powers();
    Piece(Lfa, Blank(16), raws, 4, 41, 11);
    BitsJoin(payload, 41, 7, 4);
    LfaLow(raws, payload);
    LfaHigh(raws, payload);
  }

  lemma LfaLow(raws: seq<nat>, payload: seq<Byte>)
    requires |raws| == 9 && payload == Payload(Lfa, Blank(16), raws) && raws[3] < 4
    ensures D.Number(payload[5]) == 2 * Bits(payload, 41, 7)
  {
    hide Payload, Bits, Pow2, D.Number;
    Powers();
    Piece(Lfa, Blank(16), raws, 3, 38, 3);
    BitsJoin(payload, 38, 2, 1);
    BitsBounded(payload, 38, 2);
    BitsJoin(payload, 40, 1, 7);
    ByteIsBits(payload, 5);
  }

  lemma LfaHigh(raws: seq<nat>, payload: seq<Byte>)
    requires |raws| == 9 && payload == Payload(Lfa, Blank(16), raws) && raws[5] < 4
    ensures D.Number(payload[6]) == Bits(payload, 48, 4) + 16 * raws[5]
  {
    hide Payload, Bits, Pow2, D.Number;
    Powers();
    Piece(Lfa, Blank(16), raws, 5, 52, 2);
    Gap(Lfa, raws, 54, 2);
    BitsJoin(payload, 52, 2, 2);
    BitsJoin(payload, 48, 4, 4);
    ByteIsBits(payload, 6);
  }

  lemma LfaZeros(raws: seq<nat>, payload: seq<Byte>)
    requires |raws| == 9 && payload == Payload(Lfa, Blank(16), raws)
    requires raws[6] == 0 && raws[8] == 0
    ensures ZeroBytes(payload, 7, 13) && ZeroBytes(payload, 14, 16)
  {
    hide Payload, Bits, Pow2, D.Number;
    Powers();
    Piece(Lfa, Blank(16), raws, 6, 60, 4);
    Gap(Lfa, raws, 56, 4);
    BitsJoin(payload, 56, 4, 4);
    ByteIsBits(payload, 7);
    ZeroNumber(payload[7]);
    Piece(Lfa, Blank(16), raws, 8, 80, 2);
    Gap(Lfa, raws, 82, 6);
    BitsJoin(payload, 80, 2, 6);
    ByteIsBits(payload, 10);
    ZeroNumber(payload[10]);
    ZeroByte(Lfa, raws, 8);
    ZeroByte(Lfa, raws, 9);
    ZeroByte(Lfa, raws, 11);
    ZeroByte(Lfa, raws, 12);
    ZeroByte(Lfa, raws, 14);
    ZeroByte(Lfa, raws, 15);
  }

  // ----- The SCC frame -----

  /** The code nearest to a number of quanta, the higher one of two. */
  predicate Code(quanta: real, code: nat) { code as real - 0.5 <= quanta < code as real + 0.5 }

  function Limited(x: real, low: real, high: real): real {
    if x < low then low else if x > high then high else x
  }

  /** What the bits of the frame hold: the counter, the constants of the object and the mode, the control state, the
      two stopping bits, and set speed, accelerations and jerk limits in their quanta. */
  predicate SccHolds(payload: seq<Byte>, counter: nat, r: Request) {
    var jerk := Limited(r.jerk, 0.0, 12.7);
    && Bits(payload, 16, 8) == counter && Bits(payload, 24, 11) == 10
    && Bits(payload, 44, 2) == 3 && Bits(payload, 46, 1) == 0 && Bits(payload, 48, 8) == 0x64
    && Bits(payload, 66, 1) == 1
    && Bits(payload, 68, 3) == (if !r.enabled then 0 else if r.gasOverride then 2 else 1)
    && Bits(payload, 76, 1) == Bits(payload, 184, 1) == (if r.stopping then 1 else 0)
    && Bits(payload, 88, 3) == 4 && Bits(payload, 105, 3) == 4 && Bits(payload, 176, 3) == 2
    && Code(Limited(r.setSpeed, 0.0, 255.0), Bits(payload, 96, 8))
    && Code((Limited(r.accelValue, -10.23, 10.24) + 10.23) * 100.0, Bits(payload, 128, 11))
    && Code((Limited(r.accelRaw, -10.23, 10.24) + 10.23) * 100.0, Bits(payload, 140, 11))
    && Code(if r.enabled then jerk * 10.0 else 30.0, Bits(payload, 152, 7))
    && Code(if r.enabled then jerk * 10.0 else 10.0, Bits(payload, 160, 7))
  }

  /** Bits of the template that no write of the builder reaches. */
  predicate Untouched(p: nat) {
    || 35 <= p < 44 || p == 47 || 56 <= p < 66 || p == 67 || 71 <= p < 76 || 77 <= p < 88 || 91 <= p < 96 || p == 104
    || 108 <= p < 128 || p == 139 || p == 151 || p == 159 || 167 <= p < 176 || 179 <= p < 184 || 185 <= p < 256
  }

  lemma SccExactly(base: seq<Byte>, counter: Count, r: Request, payload: seq<Byte>)
    requires |base| == 32 && payload == Payload(SccControl, base, SccRaws(counter, r))
    ensures |payload| == 32 && C.Accepts(0x1A0, payload) && SccHolds(payload, counter, r)
    ensures forall p: nat :: Untouched(p) ==> Bit(payload, p) == Bit(base, p)
  {
    hide Payload, Bits, Pow2, C.Accepts, Code, PhysicalToRaw, Untouched, Bit;
    var raws := SccRaws(counter, r);
    FramesAreAccepted(SccControl, base, raws, 0);
    SccHead(base, raws, payload);
    SccBody(base, raws, payload);
    SccQuantities(base, counter, r, payload);
    forall p: nat | Untouched(p) ensures p < 256 && Bit(payload, p) == Bit(base, p) {
      UntouchedIsBetween(p);
      BetweenFields(SccControl, base, raws, p);
    }
  }

  lemma UntouchedIsBetween(p: nat)
    requires Untouched(p)
    ensures 16 <= p < 256
    ensures forall i :: 0 <= i < 17 ==>
      Plain(FieldAt(SccControl, i)) && (p < First(FieldAt(SccControl, i)) || End(FieldAt(SccControl, i)) <= p)
  {
  }

  lemma SccHead(base: seq<Byte>, raws: seq<nat>, payload: seq<Byte>)
    requires |base| == 32 && |raws| == 17 && payload == Payload(SccControl, base, raws)
    ensures Bits(payload, 16, 8) == raws[0] % 256 && Bits(payload, 24, 11) == raws[1] % 2048
    ensures Bits(payload, 44, 2) == raws[2] % 4 && Bits(payload, 46, 1) == raws[3] % 2
    ensures Bits(payload, 48, 8) == raws[4] % 256 && Bits(payload, 66, 1) == raws[5] % 2
    ensures Bits(payload, 68, 3) == raws[6] % 8 && Bits(payload, 76, 1) == raws[7] % 2
    ensures Bits(payload, 88, 3) == raws[8] % 8
  {
    hide Payload, Bits, Pow2;
    Powers();
    Piece(SccControl, base, raws, 0, 16, 8);
    Piece(SccControl, base, raws, 1, 24, 11);
    Piece(SccControl, base, raws, 2, 44, 2);
    Piece(SccControl, base, raws, 3, 46, 1);
    Piece(SccControl, base, raws, 4, 48, 8);
    Piece(SccControl, base, raws, 5, 66, 1);
    Piece(SccControl, base, raws, 6, 68, 3);
    Piece(SccControl, base, raws, 7, 76, 1);
    Piece(SccControl, base, raws, 8, 88, 3);
  }

  lemma SccBody(base: seq<Byte>, raws: seq<nat>, payload: seq<Byte>)
    requires |base| == 32 && |raws| == 17 && payload == Payload(SccControl, base, raws)
    ensures Bits(payload, 96, 8) == raws[9] % 256 && Bits(payload, 105, 3) == raws[10] % 8
    ensures Bits(payload, 128, 11) == raws[11] % 2048 && Bits(payload, 140, 11) == raws[12] % 2048
    ensures Bits(payload, 152, 7) == raws[13] % 128 && Bits(payload, 160, 7) == raws[14] % 128
    ensures Bits(payload, 176, 3) == raws[15] % 8 && Bits(payload, 184, 1) == raws[16] % 2
  {
    hide Payload, Bits, Pow2;
    Powers();
    Piece(SccControl, base, raws, 9, 96, 8);
    Piece(SccControl, base, raws, 10, 105, 3);
    Piece(SccControl, base, raws, 11, 128, 11);
    Piece(SccControl, base, raws, 12, 140, 11);
    Piece(SccControl, base, raws, 13, 152, 7);
    Piece(SccControl, base, raws, 14, 160, 7);
    Piece(SccControl, base, raws, 15, 176, 3);
    Piece(SccControl, base, raws, 16, 184, 1);
  }

  /** The codes of the physical values fit their fields, so nothing is cut off. */
  lemma SccQuantities(base: seq<Byte>, counter: Count, r: Request, payload: seq<Byte>)
    requires |base| == 32 && payload == Payload(SccControl, base, SccRaws(counter, r))
    ensures Code(Limited(r.setSpeed, 0.0, 255.0), Bits(payload, 96, 8))
    ensures Code((Limited(r.accelValue, -10.23, 10.24) + 10.23) * 100.0, Bits(payload, 128, 11))
    ensures Code((Limited(r.accelRaw, -10.23, 10.24) + 10.23) * 100.0, Bits(payload, 140, 11))
    ensures var jerk := Limited(r.jerk, 0.0, 12.7);
            && Code(if r.enabled then jerk * 10.0 else 30.0, Bits(payload, 152, 7))
            && Code(if r.enabled then jerk * 10.0 else 10.0, Bits(payload, 160, 7))
  {
    hide Payload, Bits, Pow2, Code, PhysicalToRaw;
    SccBody(base, SccRaws(counter, r), payload);
    Powers();
    SpeedCode(Limited(r.setSpeed, 0.0, 255.0));
    AccelerationCode(Limited(r.accelValue, -10.23, 10.24));
    AccelerationCode(Limited(r.accelRaw, -10.23, 10.24));
    JerkCode(UpperJerk(r));
    JerkCode(LowerJerk(r));
  }

  lemma SpeedCode(x: real)
    requires 0.0 <= x <= 255.0
    ensures PhysicalToRaw(x, 1.0, 0.0, 8) < 256 && Code(x, PhysicalToRaw(x, 1.0, 0.0, 8))
  {
    hide Pow2;
    Powers();
  }

  lemma AccelerationCode(x: real)
    requires -10.23 <= x <= 10.24
    ensures PhysicalToRaw(x, 0.01, -10.23, 11) < 2048
    ensures Code((x + 10.23) * 100.0, PhysicalToRaw(x, 0.01, -10.23, 11))
  {
    hide Pow2;
    Powers();
  }

  lemma JerkCode(x: real)
    requires 0.0 <= x <= 12.7
    ensures PhysicalToRaw(x, 0.1, 0.0, 7) < 128 && Code(x * 10.0, PhysicalToRaw(x, 0.1, 0.0, 7))
  {
    hide Pow2;
    Powers();
  }

  // ----- Taking over a stock frame -----

  /** Exactly 32-byte frames with the standard SCC identifier are taken over; the next frame counts on from theirs. */
  lemma TemplateExactly(s: State, f: P.Frame)
    requires P.WellFormed(f)
    ensures StockFrame(f) <==> f.address == 0x1A0 && f.size == 32 && !f.extended
    ensures var t := WithTemplate(s, f);
            && t.template == f.data[..32] && t.hasTemplate && Stock(t) == f.data[..32]
            && t.scc == (if f.data[2] == 0xFF then 0 else D.Number(f.data[2]) + 1)
            && t.lfa == s.lfa && t.cluster == s.cluster && t.fca == s.fca
  {
  }

  // ----- Two complete frames -----

  /** Two accepted frames that differ in their checksum bytes at most are the same frame. */
  lemma ChecksumDecides(address: bv32, a: seq<Byte>, b: seq<Byte>)
    requires C.Accepts(address, a) && C.Accepts(address, b) && |a| == |b| >= 2
    requires forall k :: 2 <= k < |a| ==> a[k] == b[k]
    ensures a == b
  {
    hide C.Accepts;
    if a != b {
      assert a[2..] == b[2..];
      C.ChecksumBytesMatter(address, a, b);
    }
  }

  /** The first LFA frame of a fresh codec that steers with a torque of 100. */
  lemma FirstLfaFrame()
    ensures Payload(Lfa, Blank(16), LfaRaws(FRESH.lfa, 100, true, true)) == L.LFA_FRAME
  {
    hide Payload, C.Accepts;
    var payload := Payload(Lfa, Blank(16), LfaRaws(FRESH.lfa, 100, true, true));
    LfaExactly(FRESH.lfa, 100, true, true, payload);
    L.LfaFrameIsAccepted();
    TwoDigits(D.Number(payload[5]), D.Number(payload[6]), 0xC8, 0x18);
    ChecksumDecides(0x12A, payload, L.LFA_FRAME);
  }

  lemma TwoDigits(a: nat, b: nat, x: nat, y: nat)
    requires a < 256 && x < 256 && a + 256 * b == x + 256 * y
    ensures a == x && b == y
  {
  }

  const CRUISING := Request(0.5, 0.1, true, false, false, 30.0, 5.0)

  lemma CruisingCodes(payload: seq<Byte>)
    requires SccHolds(payload, 0, CRUISING)
    ensures Bits(payload, 96, 8) == 30 && Bits(payload, 128, 11) == 1033 && Bits(payload, 140, 11) == 1073
    ensures Bits(payload, 152, 7) == 50 && Bits(payload, 160, 7) == 50
  {
    hide Bits;
  }

  lemma ObjectBytes(raws: seq<nat>, payload: seq<Byte>)
    requires |raws| == 17 && payload == Payload(SccControl, Blank(32), raws) && SccHolds(payload, 0, CRUISING)
    ensures D.Number(payload[2]) == 0 && D.Number(payload[3]) == 0x0A && D.Number(payload[4]) == 0
    ensures D.Number(payload[5]) == 0x30 && D.Number(payload[6]) == 0x64
  {
    hide Payload, Bits, Pow2, D.Number, Code;
    Powers();
    ByteIsBits(payload, 2);
    BitsJoin(payload, 24, 8, 3);
    BitsBounded(payload, 24, 8);
    ByteIsBits(payload, 3);
    Gap(SccControl, raws, 35, 5);
    BitsJoin(payload, 32, 3, 5);
    ByteIsBits(payload, 4);
    Gap(SccControl, raws, 40, 4);
    Gap(SccControl, raws, 47, 1);
    BitsJoin(payload, 46, 1, 1);
    BitsJoin(payload, 44, 2, 2);
    BitsJoin(payload, 40, 4, 4);
    ByteIsBits(payload, 5);
    ByteIsBits(payload, 6);
  }

  lemma StateBytes(raws: seq<nat>, payload: seq<Byte>)
    requires |raws| == 17 && payload == Payload(SccControl, Blank(32), raws) && SccHolds(payload, 0, CRUISING)
    ensures D.Number(payload[8]) == 0x14 && D.Number(payload[9]) == 0 && D.Number(payload[11]) == 4
  {
    hide Payload, Bits, Pow2, D.Number, Code;
    Powers();
    Gap(SccControl, raws, 64, 2);
    Gap(SccControl, raws, 67, 1);
    Gap(SccControl, raws, 71, 1);
    BitsJoin(payload, 68, 3, 1);
    BitsJoin(payload, 66, 1, 1);
    BitsJoin(payload, 64, 2, 2);
    BitsJoin(payload, 64, 4, 4);
    ByteIsBits(payload, 8);
    Gap(SccControl, raws, 72, 4);
    Gap(SccControl, raws, 77, 3);
    BitsJoin(payload, 76, 1, 3);
    BitsJoin(payload, 72, 4, 4);
    ByteIsBits(payload, 9);
    Gap(SccControl, raws, 91, 5);
    BitsJoin(payload, 88, 3, 5);
    ByteIsBits(payload, 11);
  }

  lemma RequestBytes(raws: seq<nat>, payload: seq<Byte>)
    requires |raws| == 17 && payload == Payload(SccControl, Blank(32), raws) && SccHolds(payload, 0, CRUISING)
    requires Bits(payload, 96, 8) == 30 && Bits(payload, 128, 11) == 1033 && Bits(payload, 140, 11) == 1073
    ensures D.Number(payload[12]) == 0x1E && D.Number(payload[13]) == 8 && D.Number(payload[16]) == 9
    ensures D.Number(payload[17]) == 0x14 && D.Number(payload[18]) == 0x43
  {
    hide Payload, Bits, Pow2, D.Number, Code;
    Powers();
    ByteIsBits(payload, 12);
    Gap(SccControl, raws, 104, 1);
    Gap(SccControl, raws, 108, 4);
    BitsJoin(payload, 105, 3, 4);
    BitsJoin(payload, 104, 1, 7);
    ByteIsBits(payload, 13);
    BitsJoin(payload, 128, 8, 3);
    BitsBounded(payload, 128, 8);
    ByteIsBits(payload, 16);
    Gap(SccControl, raws, 139, 1);
    BitsJoin(payload, 140, 4, 7);
    BitsBounded(payload, 140, 4);
    BitsJoin(payload, 136, 3, 1);
    BitsJoin(payload, 136, 4, 4);
    ByteIsBits(payload, 17);
    Gap(SccControl, raws, 151, 1);
    BitsJoin(payload, 144, 7, 1);
    ByteIsBits(payload, 18);
  }

  lemma LimitBytes(raws: seq<nat>, payload: seq<Byte>)
    requires |raws| == 17 && payload == Payload(SccControl, Blank(32), raws) && SccHolds(payload, 0, CRUISING)
    requires Bits(payload, 152, 7) == 50 && Bits(payload, 160, 7) == 50
    ensures D.Number(payload[19]) == 0x32 && D.Number(payload[20]) == 0x32 && D.Number(payload[22]) == 2
    ensures D.Number(payload[23]) == 0
  {
    hide Payload, Bits, Pow2, D.Number, Code;
    Powers();
    Gap(SccControl, raws, 159, 1);
    BitsJoin(payload, 152, 7, 1);
    ByteIsBits(payload, 19);
    Gap(SccControl, raws, 167, 1);
    BitsJoin(payload, 160, 7, 1);
    ByteIsBits(payload, 20);
    Gap(SccControl, raws, 179, 5);
    BitsJoin(payload, 176, 3, 5);
    ByteIsBits(payload, 22);
    Gap(SccControl, raws, 185, 7);
    BitsJoin(payload, 184, 1, 7);
    ByteIsBits(payload, 23);
  }

  lemma SccZeros(raws: seq<nat>, payload: seq<Byte>)
    requires |raws| == 17 && payload == Payload(SccControl, Blank(32), raws)
    ensures payload[7] == payload[10] == payload[14] == payload[15] == payload[21] == 0 && ZeroBytes(payload, 24, 32)
  {
    hide Payload;
    ZeroByte(SccControl, raws, 7);
    ZeroByte(SccControl, raws, 10);
    ZeroByte(SccControl, raws, 14);
    ZeroByte(SccControl, raws, 15);
    ZeroByte(SccControl, raws, 21);
    forall k | 24 <= k < 32 ensures payload[k] == 0 { ZeroByte(SccControl, raws, k); }
  }

  lemma FirstHalf(raws: seq<nat>, payload: seq<Byte>)
    requires |raws| == 17 && payload == Payload(SccControl, Blank(32), raws) && SccHolds(payload, 0, CRUISING)
    ensures forall k :: 2 <= k < 16 ==> payload[k] == L.SCC_FRAME[k]
  {
    hide Payload, Pow2, Bits, SccHolds;
    CruisingCodes(payload);
    ObjectBytes(raws, payload);
    StateBytes(raws, payload);
    RequestBytes(raws, payload);
    SccZeros(raws, payload);
  }

  lemma SecondHalf(raws: seq<nat>, payload: seq<Byte>)
    requires |raws| == 17 && payload == Payload(SccControl, Blank(32), raws) && SccHolds(payload, 0, CRUISING)
    ensures forall k :: 16 <= k < 32 ==> payload[k] == L.SCC_FRAME[k]
  {
    hide Payload, Pow2, Bits, SccHolds;
    CruisingCodes(payload);
    RequestBytes(raws, payload);
    LimitBytes(raws, payload);
    SccZeros(raws, payload);
  }

  /** The first SCC frame of a fresh codec that has seen no stock frame. */
  lemma FirstSccFrame()
    ensures Payload(SccControl, Stock(FRESH), SccRaws(FRESH.scc, CRUISING)) == L.SCC_FRAME
  {
    hide Payload, C.Accepts, Pow2, Bits, SccHolds, SccRaws;
    var raws := SccRaws(FRESH.scc, CRUISING);
    var payload := Payload(SccControl, Blank(32), raws);
    SccExactly(Blank(32), FRESH.scc, CRUISING, payload);
    FirstHalf(raws, payload);
    SecondHalf(raws, payload);
    L.SccFrameIsAccepted();
    ChecksumDecides(0x1A0, payload, L.SCC_FRAME);
  }
}
