/** The frame builders of src/hyundai_canfd_codec.cpp. Physical values are reals; the finiteness checks of
    the source concern floating point and have no counterpart here. */
module SccCodec {
  import opened Arithmetic
  import opened BitCodec
  import opened SccLayout
  import C = Crc
  import D = SignalDecoder
  import P = PandaFraming

  type Count = c: nat | c < 256

  function Next(c: Count): Count { (c + 1) % 256 }

  const LFA_ADDRESS: bv32 := 0x12A
  const SCC_ADDRESS: bv32 := 0x1A0
  const CLUSTER_ADDRESS: bv32 := 0x1E0
  const FCA_ADDRESS: bv32 := 0x160

  function Address(l: Layout): bv32 {
    match l
    case SccControl => SCC_ADDRESS
    case Lfa => LFA_ADDRESS
    case LfaCluster => CLUSTER_ADDRESS
    case FcaWarning => FCA_ADDRESS
  }

  // ----- Physical values -----

  /** `physical_to_raw` over the reals. */
  function PhysicalToRaw(value: real, factor: real, offset: real, bits: nat): (raw: nat)
    requires factor > 0.0
    ensures raw < Pow2(bits)
  {
    ClampInt(((value - offset) / factor + 0.5).Floor, 0, Pow2(bits) - 1)
  }

  /** A value in the representable range comes back within half a quantum. */
  lemma QuantizationError(value: real, factor: real, offset: real, bits: nat)
    requires factor > 0.0 && offset <= value <= offset + factor * (Pow2(bits) - 1) as real
    ensures var back := PhysicalToRaw(value, factor, offset, bits) as real * factor + offset;
            back - factor / 2.0 <= value <= back + factor / 2.0
  {
    hide Pow2;
    var top := Pow2(bits) - 1;
    var steps := (value - offset) / factor;
    Ratio(value - offset, factor, top as real);
    var raw := PhysicalToRaw(value, factor, offset, bits);
    assert raw == ClampInt((steps + 0.5).Floor, 0, top);
    assert raw == (steps + 0.5).Floor;
    Rounded(value - offset, raw as real, factor);
  }

  lemma Rounded(x: real, v: real, factor: real)
    requires factor > 0.0 && v - 0.5 <= x / factor <= v + 0.5
    ensures v * factor - factor / 2.0 <= x <= v * factor + factor / 2.0
  {
    var q := x / factor;
    assert q * factor == x;
    Scale(q, v, factor, x);
  }

  lemma Ratio(x: real, factor: real, top: real)
    requires factor > 0.0 && 0.0 <= x <= factor * top
    ensures 0.0 <= x / factor <= top && (x / factor) * factor == x
  {
  }

  lemma ProductNonNegative(x: real, y: real)
    requires x >= 0.0 && y >= 0.0
    ensures x * y >= 0.0
  {
  }

  lemma Scale(a: real, b: real, factor: real, x: real)
    requires factor > 0.0 && b - 0.5 <= a <= b + 0.5 && a * factor == x
    ensures b * factor - factor / 2.0 <= x <= b * factor + factor / 2.0
  {
    ProductNonNegative(a - b + 0.5, factor);
    ProductNonNegative(b + 0.5 - a, factor);
  }

  // ----- What each frame carries -----

  datatype Request = Request(
    accelRaw: real, accelValue: real, enabled: bool, stopping: bool, gasOverride: bool,
    setSpeed: real, jerk: real)

  const MIN_ACCEL: real := -10.23
  const MAX_ACCEL: real := 10.24
  const MAX_JERK: real := 12.7
  const MAX_SPEED: real := 255.0

  function UpperJerk(r: Request): real { if r.enabled then ClampReal(r.jerk, 0.0, MAX_JERK) else 3.0 }

  function LowerJerk(r: Request): real { if r.enabled then ClampReal(r.jerk, 0.0, MAX_JERK) else 1.0 }

  function SccRaws(counter: Count, r: Request): (raws: seq<nat>)
    ensures |raws| == Fields(SccControl)
  {
    [counter, 10, 3, 0, 0x64, 1, if r.enabled then (if r.gasOverride then 2 else 1) else 0, Unit(r.stopping), 4,
     PhysicalToRaw(ClampReal(r.setSpeed, 0.0, MAX_SPEED), 1.0, 0.0, 8), 4,
     PhysicalToRaw(ClampReal(r.accelValue, MIN_ACCEL, MAX_ACCEL), 0.01, -10.23, 11),
     PhysicalToRaw(ClampReal(r.accelRaw, MIN_ACCEL, MAX_ACCEL), 0.01, -10.23, 11),
     PhysicalToRaw(UpperJerk(r), 0.1, 0.0, 7), PhysicalToRaw(LowerJerk(r), 0.1, 0.0, 7),
     2, Unit(r.stopping)]
  }

  function LfaRaws(counter: Count, torque: int, enabled: bool, request: bool): (raws: seq<nat>)
    ensures |raws| == Fields(Lfa)
  {
    [counter, 2, 0, if enabled then 2 else 1, ClampInt(torque, -1021, 1021) + 1024, Unit(request), 0, 100, 0]
  }

  function ClusterRaws(counter: Count, enabled: bool): (raws: seq<nat>)
    ensures |raws| == Fields(LfaCluster)
  {
    [counter, Unit(enabled), if enabled then 2 else 0]
  }

  function FcaRaws(counter: Count): (raws: seq<nat>)
    ensures |raws| == Fields(FcaWarning)
  {
    [counter, 1, 0x02, 0xFF, 0xFC, 0x09]
  }

  function Blank(n: nat): (s: seq<Byte>)
    ensures |s| == n
  {
    seq(n, _ => 0)
  }

  /** The payload of a frame. */
  function Payload(l: Layout, base: seq<Byte>, raws: seq<nat>): (r: seq<Byte>)
    requires |base| == Size(l) && |raws| == Fields(l)
    ensures |r| == Size(l)
  {
    C.Sealed(Address(l), WriteAll(l, base, raws, |raws|))
  }

  /** The frame that carries it: CAN FD, standard address, padded to the frame buffer. */
  function FrameOf(l: Layout, payload: seq<Byte>, bus: Byte): (f: P.Frame)
    requires |payload| == Size(l)
    ensures P.Fits(f) && f.data[..f.size] == payload && f.address == Address(l)
  {
    P.Frame(Address(l), bus, true, false, false, false, Size(l), payload + Blank(64 - Size(l)))
  }

  // ----- The codec -----

  /** Counters and template. */
  datatype State = State(lfa: Count, scc: Count, cluster: Count, fca: Count, template: seq<Byte>, hasTemplate: bool)

  predicate Ready(s: State) { |s.template| == 32 }

  const FRESH := State(0, 0, 0, 0, Blank(32), false)

  predicate StockFrame(f: P.Frame) {
    f.address == SCC_ADDRESS && f.size == 32 && !f.extended
  }

  function WithTemplate(s: State, f: P.Frame): State
    requires P.WellFormed(f)
  {
    s.(template := f.data[..32], hasTemplate := true, scc := (D.Number(f.data[2]) + 1) % 256)
  }

  function Stock(s: State): (b: seq<Byte>)
    requires Ready(s)
    ensures |b| == 32
  {
    if s.hasTemplate then s.template else Blank(32)
  }

  class HyundaiCanFdCodec {
    var lfaCounter: Count
    var sccCounter: Count
    var clusterCounter: Count
    var fcaWarningCounter: Count
    var sccTemplate: seq<Byte>
    var hasSccTemplate: bool

    function Abs(): State
      reads this
    {
      State(lfaCounter, sccCounter, clusterCounter, fcaWarningCounter, sccTemplate, hasSccTemplate)
    }

    constructor ()
      ensures Abs() == FRESH
    {
      lfaCounter, sccCounter, clusterCounter, fcaWarningCounter := 0, 0, 0, 0;
      sccTemplate, hasSccTemplate := Blank(32), false;
    }

    /** One `set_signal` of a builder. */
    method Put(data: array<Byte>, ghost l: Layout, ghost base: seq<Byte>, ghost raws: seq<nat>, ghost i: nat,
               f: Field, raw: nat)
      requires |raws| == Fields(l) && i < |raws| && |base| == Size(l) == data.Length
      requires f == FieldAt(l, i) && raw == raws[i]
      requires data[..] == WriteAll(l, base, raws, i)
      modifies data
      ensures data[..] == WriteAll(l, base, raws, i + 1)
    {
      hide AfterSet, FieldAt;
      var _ := SetSignal(data, f, raw);
    }

    method Finish(l: Layout, data: array<Byte>, ghost base: seq<Byte>, ghost raws: seq<nat>, bus: Byte)
      returns (frame: P.Frame)
      requires |raws| == Fields(l) && |base| == Size(l) == data.Length
      requires data[..] == WriteAll(l, base, raws, |raws|)
      modifies data
      ensures frame == FrameOf(l, Payload(l, base, raws), bus)
    {
      hide C.Sealed, WriteAll, Address;
      C.WriteChecksum(Address(l), data);
      frame := P.Frame(Address(l), bus, true, false, false, false, Size(l), data[..] + Blank(64 - Size(l)));
    }

    /** `make_scc_control` */
    method MakeSccControl(r: Request, bus: Byte) returns (frame: P.Frame)
      requires Ready(Abs())
      modifies this`sccCounter
      ensures frame == FrameOf(SccControl, Payload(SccControl, Stock(old(Abs())), SccRaws(old(sccCounter), r)), bus)
      ensures sccCounter == Next(old(sccCounter))
    {
      hide WriteAll, Payload, FrameOf, SccRaws;
      var base := if hasSccTemplate then sccTemplate else Blank(32);
      ghost var raws := SccRaws(sccCounter, r);
      var data := new Byte[32](i requires 0 <= i < 32 => base[i]);
      assert data[..] == base;
      WriteNothing(SccControl, base, raws);
      PutSccHead(data, base, sccCounter, r);
      sccCounter := Next(sccCounter);
      PutSccState(data, base, old(sccCounter), r);
      PutSccBody(data, base, old(sccCounter), r);
      frame := Finish(SccControl, data, base, raws, bus);
    }

    /** Its writes in three parts: the object fields, the state fields, the requests. */
    method PutSccHead(data: array<Byte>, ghost base: seq<Byte>, counter: Count, r: Request)
      requires data.Length == |base| == 32 && data[..] == WriteAll(SccControl, base, SccRaws(counter, r), 0)
      modifies data
      ensures data[..] == WriteAll(SccControl, base, SccRaws(counter, r), 5)
    {
      hide WriteAll, PhysicalToRaw, ClampReal, UpperJerk, LowerJerk, Pow2;
      ghost var raws := SccRaws(counter, r);
      Put(data, SccControl, base, raws, 0, Field(16, 8, LittleEndian), counter);
      Put(data, SccControl, base, raws, 1, Field(24, 11, LittleEndian), 10);
      Put(data, SccControl, base, raws, 2, Field(45, 2, BigEndian), 3);
      Put(data, SccControl, base, raws, 3, Field(46, 1, BigEndian), 0);
      Put(data, SccControl, base, raws, 4, Field(55, 8, BigEndian), 0x64);
    }

    method PutSccState(data: array<Byte>, ghost base: seq<Byte>, ghost counter: Count, r: Request)
      requires data.Length == |base| == 32 && data[..] == WriteAll(SccControl, base, SccRaws(counter, r), 5)
      modifies data
      ensures data[..] == WriteAll(SccControl, base, SccRaws(counter, r), 9)
    {
      hide WriteAll, PhysicalToRaw, ClampReal, UpperJerk, LowerJerk, Pow2;
      ghost var raws := SccRaws(counter, r);
      Put(data, SccControl, base, raws, 5, Field(66, 1, LittleEndian), 1);
      Put(data, SccControl, base, raws, 6, Field(68, 3, LittleEndian),
          if r.enabled then (if r.gasOverride then 2 else 1) else 0);
      Put(data, SccControl, base, raws, 7, Field(76, 1, LittleEndian), if r.stopping then 1 else 0);
      Put(data, SccControl, base, raws, 8, Field(88, 3, LittleEndian), 4);
    }

    /** Its remaining writes, with the requests clamped to what the frame can represent. */
    method PutSccBody(data: array<Byte>, ghost base: seq<Byte>, ghost counter: Count, r: Request)
      requires data.Length == |base| == 32 && data[..] == WriteAll(SccControl, base, SccRaws(counter, r), 9)
      modifies data
      ensures data[..] == WriteAll(SccControl, base, SccRaws(counter, r), 17)
    {
      hide WriteAll, PhysicalToRaw, ClampReal;
      ghost var raws := SccRaws(counter, r);
      var accelRaw := ClampReal(r.accelRaw, -10.23, 10.24);
      var accelValue := ClampReal(r.accelValue, -10.23, 10.24);
      var jerk := ClampReal(r.jerk, 0.0, 12.7);
      var setSpeed := ClampReal(r.setSpeed, 0.0, 255.0);
      Put(data, SccControl, base, raws, 9, Field(103, 8, BigEndian), PhysicalToRaw(setSpeed, 1.0, 0.0, 8));
      Put(data, SccControl, base, raws, 10, Field(105, 3, LittleEndian), 4);
      Put(data, SccControl, base, raws, 11, Field(128, 11, LittleEndian), PhysicalToRaw(accelValue, 0.01, -10.23, 11));
      Put(data, SccControl, base, raws, 12, Field(140, 11, LittleEndian), PhysicalToRaw(accelRaw, 0.01, -10.23, 11));
      Put(data, SccControl, base, raws, 13, Field(158, 7, BigEndian),
          PhysicalToRaw(if r.enabled then jerk else 3.0, 0.1, 0.0, 7));
      Put(data, SccControl, base, raws, 14, Field(166, 7, BigEndian),
          PhysicalToRaw(if r.enabled then jerk else 1.0, 0.1, 0.0, 7));
      Put(data, SccControl, base, raws, 15, Field(176, 3, LittleEndian), 2);
      Put(data, SccControl, base, raws, 16, Field(184, 1, BigEndian), if r.stopping then 1 else 0);
    }

    /** `make_lfa` */
    method MakeLfa(torque: int, enabled: bool, torqueRequest: bool, bus: Byte) returns (frame: P.Frame)
      modifies this`lfaCounter
      ensures frame ==
              FrameOf(Lfa, Payload(Lfa, Blank(16), LfaRaws(old(lfaCounter), torque, enabled, torqueRequest)), bus)
      ensures lfaCounter == Next(old(lfaCounter))
    {
      hide WriteAll, Payload, FrameOf;
      var base := Blank(16);
      var clamped := ClampInt(torque, -1021, 1021);
      ghost var raws := LfaRaws(lfaCounter, torque, enabled, torqueRequest);
      var data := new Byte[16](i requires 0 <= i < 16 => base[i]);
      assert data[..] == base;
      WriteNothing(Lfa, base, raws);
      Put(data, Lfa, base, raws, 0, Field(16, 8, LittleEndian), lfaCounter);
      lfaCounter := Next(lfaCounter);
      Put(data, Lfa, base, raws, 1, Field(24, 3, LittleEndian), 2);
      Put(data, Lfa, base, raws, 2, Field(27, 3, LittleEndian), 0);
      Put(data, Lfa, base, raws, 3, Field(38, 3, LittleEndian), if enabled then 2 else 1);
      Put(data, Lfa, base, raws, 4, Field(41, 11, LittleEndian), clamped + 1024);
      Put(data, Lfa, base, raws, 5, Field(52, 2, LittleEndian), if torqueRequest then 1 else 0);
      Put(data, Lfa, base, raws, 6, Field(60, 4, LittleEndian), 0);
      Put(data, Lfa, base, raws, 7, Field(104, 8, LittleEndian), 100);
      Put(data, Lfa, base, raws, 8, Field(80, 2, LittleEndian), 0);
      frame := Finish(Lfa, data, base, raws, bus);
    }

    /** `make_lfa_cluster` */
    method MakeLfaCluster(enabled: bool, bus: Byte) returns (frame: P.Frame)
      modifies this`clusterCounter
      ensures frame ==
              FrameOf(LfaCluster, Payload(LfaCluster, Blank(16), ClusterRaws(old(clusterCounter), enabled)), bus)
      ensures clusterCounter == Next(old(clusterCounter))
    {
      hide WriteAll, Payload, FrameOf;
      var base := Blank(16);
      ghost var raws := ClusterRaws(clusterCounter, enabled);
      var data := new Byte[16](i requires 0 <= i < 16 => base[i]);
      assert data[..] == base;
      WriteNothing(LfaCluster, base, raws);
      Put(data, LfaCluster, base, raws, 0, Field(16, 8, LittleEndian), clusterCounter);
      clusterCounter := Next(clusterCounter);
      Put(data, LfaCluster, base, raws, 1, Field(31, 1, LittleEndian), if enabled then 1 else 0);
      Put(data, LfaCluster, base, raws, 2, Field(47, 2, LittleEndian), if enabled then 2 else 0);
      frame := Finish(LfaCluster, data, base, raws, bus);
    }

    /** `make_fca_warning` */
    method MakeFcaWarning(bus: Byte) returns (frame: P.Frame)
      modifies this`fcaWarningCounter
      ensures frame == FrameOf(FcaWarning, Payload(FcaWarning, Blank(16), FcaRaws(old(fcaWarningCounter))), bus)
      ensures fcaWarningCounter == Next(old(fcaWarningCounter))
    {
      hide WriteAll, Payload, FrameOf;
      var base := Blank(16);
      ghost var raws := FcaRaws(fcaWarningCounter);
      var data := new Byte[16](i requires 0 <= i < 16 => base[i]);
      assert data[..] == base;
      WriteNothing(FcaWarning, base, raws);
      Put(data, FcaWarning, base, raws, 0, Field(16, 8, LittleEndian), fcaWarningCounter);
      fcaWarningCounter := Next(fcaWarningCounter);
      Put(data, FcaWarning, base, raws, 1, Field(24, 2, LittleEndian), 1);
      Put(data, FcaWarning, base, raws, 2, Field(56, 8, LittleEndian), 0x02);
      Put(data, FcaWarning, base, raws, 3, Field(64, 8, LittleEndian), 0xFF);
      Put(data, FcaWarning, base, raws, 4, Field(72, 8, LittleEndian), 0xFC);
      Put(data, FcaWarning, base, raws, 5, Field(80, 8, LittleEndian), 0x09);
      frame := Finish(FcaWarning, data, base, raws, bus);
    }

    /** `set_scc_control_template`; `ok` is false where the source throws. */
    method SetSccControlTemplate(f: P.Frame) returns (ok: bool)
      requires P.WellFormed(f)
      modifies this
      ensures ok == StockFrame(f)
      ensures Abs() == if ok then WithTemplate(old(Abs()), f) else old(Abs())
    {
      if f.address != SCC_ADDRESS || f.size != 32 || f.extended { return false; }
      sccTemplate := f.data[..32];
      hasSccTemplate := true;
      sccCounter := (D.Number(f.data[2]) + 1) % 256;
      ok := true;
    }

    /** `clear_scc_control_template` */
    method ClearSccControlTemplate()
      modifies this
      ensures Abs() == old(Abs()).(template := Blank(32), hasTemplate := false)
    {
      sccTemplate := Blank(32);
      hasSccTemplate := false;
    }

    /** `reset_counters` */
    method ResetCounters(lfa: Count, scc: Count, cluster: Count, fca: Count)
      modifies this
      ensures Abs() == State(lfa, scc, cluster, fca, old(sccTemplate), old(hasSccTemplate))
    {
      lfaCounter := lfa;
      sccCounter := scc;
      clusterCounter := cluster;
      fcaWarningCounter := fca;
    }
  }

  lemma WriteNothing(l: Layout, base: seq<Byte>, raws: seq<nat>)
    ensures WriteAll(l, base, raws, 0) == base
  {
  }

  // ----- What the built frames promise -----

  /** Every frame of every layout passes the receiver's checksum test. */
  lemma FramesAreAccepted(l: Layout, base: seq<Byte>, raws: seq<nat>, bus: Byte)
    requires |base| == Size(l) && |raws| == Fields(l)
    ensures var f := FrameOf(l, Payload(l, base, raws), bus); C.Accepts(f.address, f.data[..f.size])
  {
    hide C.Sealed, WriteAll, C.Accepts, Address;
    SealedWrites(l, Address(l), base, raws);
  }

  /** Every field of every frame reads back as the raw value that was written. */
  lemma FieldsReadBack(l: Layout, base: seq<Byte>, raws: seq<nat>, i: nat)
    requires |base| == Size(l) && i < |raws| == Fields(l)
    ensures Fits(FieldAt(l, i), Size(l))
    ensures FieldValue(Payload(l, base, raws), FieldAt(l, i)) == raws[i] % Pow2(FieldAt(l, i).length)
  {
    hide C.Sealed, WriteAll, FieldAt, FieldValue, Address, Pow2;
    SealedFieldReads(l, Address(l), base, raws, i);
  }

  /** Template refinement: outside the checksum and the seventeen owned fields, the built frame is the
      template, bit for bit. */
  lemma TemplateBitsSurvive(base: seq<Byte>, raws: seq<nat>, p: nat)
    requires |base| == 32 && |raws| == 17 && 16 <= p < 256
    requires !Owned(SccControl, 17, p)
    ensures Bit(Payload(SccControl, base, raws), p) == Bit(base, p)
  {
    hide C.Sealed, WriteAll, Bit, Owned;
    SealedBitsKept(SccControl, SCC_ADDRESS, base, raws, p);
  }

  /** What the SCC frame says, in physical units. */
  function Reading(payload: seq<Byte>, i: nat, factor: real, offset: real): real
    requires |payload| == 32 && i < 17
  {
    FieldFits(SccControl, i);
    FieldValue(payload, FieldAt(SccControl, i)) as real * factor + offset
  }

  predicate Near(x: real, y: real, quantum: real) {
    x - quantum / 2.0 <= y <= x + quantum / 2.0
  }

  lemma SmallPowers()
    ensures Pow2(1) == 2 && Pow2(2) == 4 && Pow2(3) == 8 && Pow2(7) == 128 && Pow2(8) == 256 && Pow2(11) == 2048
  {
    assert Pow2(4) == 16;
    assert Pow2(10) == 1024;
  }

  /** One physical field: it decodes to the value within half a quantum. */
  lemma PhysicalFieldDecodes(base: seq<Byte>, raws: seq<nat>, i: nat, value: real, factor: real, offset: real)
    requires |base| == 32 && |raws| == 17 && i < 17 && factor > 0.0
    requires var n := FieldAt(SccControl, i).length;
             raws[i] == PhysicalToRaw(value, factor, offset, n) &&
             offset <= value <= offset + factor * (Pow2(n) - 1) as real
    ensures Near(Reading(Payload(SccControl, base, raws), i, factor, offset), value, factor)
  {
    hide Payload, FieldValue, FieldAt, Fits, PhysicalToRaw, Pow2;
    FieldsReadBack(SccControl, base, raws, i);
    QuantizationError(value, factor, offset, FieldAt(SccControl, i).length);
  }

  /** The SCC frame decodes to the clamped request, each field within half its quantum. */
  lemma SccDecodesRequest(base: seq<Byte>, counter: Count, r: Request, payload: seq<Byte>)
    requires |base| == 32 && payload == Payload(SccControl, base, SccRaws(counter, r))
    ensures
            && Near(Reading(payload, 9, 1.0, 0.0), ClampReal(r.setSpeed, 0.0, MAX_SPEED), 1.0)
            && Near(Reading(payload, 11, 0.01, -10.23), ClampReal(r.accelValue, MIN_ACCEL, MAX_ACCEL), 0.01)
            && Near(Reading(payload, 12, 0.01, -10.23), ClampReal(r.accelRaw, MIN_ACCEL, MAX_ACCEL), 0.01)
            && Near(Reading(payload, 13, 0.1, 0.0), UpperJerk(r), 0.1)
            && Near(Reading(payload, 14, 0.1, 0.0), LowerJerk(r), 0.1)
  {
    hide Payload, Reading, PhysicalToRaw, Near, Pow2;
    var raws := SccRaws(counter, r);
    SmallPowers();
    PhysicalFieldDecodes(base, raws, 9, ClampReal(r.setSpeed, 0.0, MAX_SPEED), 1.0, 0.0);
    PhysicalFieldDecodes(base, raws, 11, ClampReal(r.accelValue, MIN_ACCEL, MAX_ACCEL), 0.01, -10.23);
    PhysicalFieldDecodes(base, raws, 12, ClampReal(r.accelRaw, MIN_ACCEL, MAX_ACCEL), 0.01, -10.23);
    PhysicalFieldDecodes(base, raws, 13, UpperJerk(r), 0.1, 0.0);
    PhysicalFieldDecodes(base, raws, 14, LowerJerk(r), 0.1, 0.0);
  }

  /** Its state fields decode exactly. */
  lemma SccDecodesStates(base: seq<Byte>, counter: Count, r: Request, payload: seq<Byte>)
    requires |base| == 32 && payload == Payload(SccControl, base, SccRaws(counter, r))
    ensures
            && Reading(payload, 0, 1.0, 0.0) == counter as real
            && Reading(payload, 6, 1.0, 0.0) == (if !r.enabled then 0.0 else if r.gasOverride then 2.0 else 1.0)
            && Reading(payload, 7, 1.0, 0.0) == Reading(payload, 16, 1.0, 0.0) == (if r.stopping then 1.0 else 0.0)
  {
    hide Payload, PhysicalToRaw, FieldValue, Fits, Pow2;
    var raws := SccRaws(counter, r);
    SmallPowers();
    FieldsReadBack(SccControl, base, raws, 0);
    FieldsReadBack(SccControl, base, raws, 6);
    FieldsReadBack(SccControl, base, raws, 7);
    FieldsReadBack(SccControl, base, raws, 16);
  }

  /** The LFA frame carries the torque clamped to +-1021; the reserved codes 2046 and 2047 are never sent. */
  lemma LfaCarriesTorque(counter: Count, torque: int, enabled: bool, request: bool, payload: seq<Byte>)
    requires payload == Payload(Lfa, Blank(16), LfaRaws(counter, torque, enabled, request))
    ensures Fits(LfaField(4), 16) && Fits(LfaField(0), 16)
    ensures var raw := FieldValue(payload, LfaField(4));
            && 3 <= raw <= 2045 && raw - 1024 == ClampInt(torque, -1021, 1021)
            && FieldValue(payload, LfaField(0)) == counter
  {
    hide Payload, FieldValue, Fits, Pow2;
    var raws := LfaRaws(counter, torque, enabled, request);
    SmallPowers();
    FieldsReadBack(Lfa, Blank(16), raws, 4);
    FieldsReadBack(Lfa, Blank(16), raws, 0);
  }

  // ----- Counters over runs -----

  datatype Call = CallScc | CallLfa | CallCluster | CallFca

  function After(s: State, c: Call): State {
    match c
    case CallScc => s.(scc := Next(s.scc))
    case CallLfa => s.(lfa := Next(s.lfa))
    case CallCluster => s.(cluster := Next(s.cluster))
    case CallFca => s.(fca := Next(s.fca))
  }

  function AfterAll(s: State, calls: seq<Call>): State {
    if calls == [] then s else After(AfterAll(s, calls[..|calls| - 1]), calls[|calls| - 1])
  }

  function SccCalls(calls: seq<Call>): nat {
    if calls == [] then 0
    else SccCalls(calls[..|calls| - 1]) + if calls[|calls| - 1] == CallScc then 1 else 0
  }

  lemma {:induction false} CounterAdvances(s: State, calls: seq<Call>)
    ensures AfterAll(s, calls).scc == (s.scc + SccCalls(calls)) % 256
    ensures AfterAll(s, calls).template == s.template && AfterAll(s, calls).hasTemplate == s.hasTemplate
  {
    if calls != [] {
      CounterAdvances(s, calls[..|calls| - 1]);
    }
  }

  /** The counter byte of a frame is its counter field. */
  lemma CounterByte(data: seq<Byte>)
    requires |data| == 32
    ensures Fits(SccField(0), 32) && FieldValue(data, SccField(0)) == D.Number(data[2])
  {
    hide D.Number, BitOf, RawBit, Pow2, FieldBit, FieldValue;
    var f := SccField(0);
    assert FieldValue(data, f) == ValueFrom(data, f, 0) by { D.FieldValueIs(data, f); }
    forall k | 0 <= k < f.length - 0 ensures FieldBit(data, f, 0 + k) == RawBit(D.Number(data[2]), k) {
      CounterBit(data, k);
      D.ByteBits(data[2], k);
    }
    ValueOfBits(data, f, 0, D.Number(data[2]));
    SmallPowers();
    ByteRange(data[2]);
  }

  lemma CounterBit(data: seq<Byte>, k: nat)
    requires |data| == 32 && k < 8
    ensures Fits(SccField(0), 32) && FieldBit(data, SccField(0), k) == BitOf(data[2], k)
  {
    hide BitOf;
    assert (16 + k) / 8 == 2 && (16 + k) % 8 == k;
  }

  lemma ByteRange(b: Byte)
    ensures D.Number(b) < 256
  {
  }

  /** After a stock frame became the template and any calls of the builders, the next SCC frame is the k-th
      and carries the stock counter plus k, modulo 256, on the stock payload. */
  lemma CountersFollowStock(s: State, stock: P.Frame, calls: seq<Call>, now: State, r: Request)
    requires P.WellFormed(stock) && StockFrame(stock) && now == AfterAll(WithTemplate(s, stock), calls)
    ensures Ready(now) && Stock(now) == stock.data[..32] && Fits(SccField(0), 32)
    ensures FieldValue(Payload(SccControl, Stock(now), SccRaws(now.scc, r)), SccField(0)) ==
            (FieldValue(stock.data[..32], SccField(0)) + SccCalls(calls) + 1) % 256
  {
    hide Payload, FieldValue, Fits, SccRaws, D.Number, AfterAll, SccCalls;
    var start := WithTemplate(s, stock);
    CounterAdvances(start, calls);
    CounterByte(stock.data[..32]);
    CounterReadsBack(Stock(now), now.scc, r);
    CountOn(D.Number(stock.data[2]), SccCalls(calls));
  }

  lemma CounterReadsBack(base: seq<Byte>, counter: Count, r: Request)
    requires |base| == 32
    ensures Fits(SccField(0), 32)
    ensures FieldValue(Payload(SccControl, base, SccRaws(counter, r)), SccField(0)) == counter
  {
    hide Payload, FieldValue, Fits, PhysicalToRaw, Pow2;
    FieldsReadBack(SccControl, base, SccRaws(counter, r), 0);
    SmallPowers();
  }

  lemma CountOn(stock: nat, calls: nat)
    ensures ((stock + 1) % 256 + calls) % 256 == (stock + (calls + 1)) % 256
  {
  }
}
