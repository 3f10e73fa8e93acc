/** The Panda USB packet format of src/panda_protocol.cpp: a six-byte header, a payload whose length the
    DLC gives, and an XOR checksum over the whole packet. */
module PandaFraming {
  import opened Arithmetic

  const HEADER: nat := 6
  const CAPACITY: nat := 64

  /** A CAN frame as the driver holds it: always 64 data bytes, of which the first `size` count. */
  datatype Frame = Frame(
    address: bv32, bus: Byte, fd: bool, extended: bool, returned: bool, rejected: bool,
    size: nat, data: seq<Byte>)

  predicate WellFormed(f: Frame) { |f.data| == CAPACITY }

  predicate Fits(f: Frame) { WellFormed(f) && f.size <= CAPACITY }

  /** What `pack_frames` keeps of a frame: the receiver's flags are not sent. */
  function Outgoing(f: Frame): Frame {
    f.(returned := false, rejected := false)
  }

  // ----- Data length code -----

  function DlcLength(dlc: Byte): nat {
    if dlc == 0 then 0 else if dlc == 1 then 1 else if dlc == 2 then 2 else if dlc == 3 then 3
    else if dlc == 4 then 4 else if dlc == 5 then 5 else if dlc == 6 then 6 else if dlc == 7 then 7
    else if dlc == 8 then 8 else if dlc == 9 then 12 else if dlc == 10 then 16 else if dlc == 11 then 20
    else if dlc == 12 then 24 else if dlc == 13 then 32 else if dlc == 14 then 48 else 64
  }

  datatype Option<T> = None | Some(value: T)

  /** The first code whose length is the wanted one, as a search of the table finds it. */
  function LengthToDlc(length: nat): (dlc: Option<Byte>)
    ensures dlc.Some? ==> length <= CAPACITY
  {
    if length <= 7 then Some(SmallDlc(length))
    else if length == 8 then Some(8) else if length == 12 then Some(9) else if length == 16 then Some(10)
    else if length == 20 then Some(11) else if length == 24 then Some(12) else if length == 32 then Some(13)
    else if length == 48 then Some(14) else if length == 64 then Some(15) else None
  }

  function SmallDlc(length: nat): Byte
    requires length <= 7
  {
    if length == 0 then 0 else if length == 1 then 1 else if length == 2 then 2 else if length == 3 then 3
    else if length == 4 then 4 else if length == 5 then 5 else if length == 6 then 6 else 7
  }

  lemma DlcRoundTrip(length: nat)
    ensures LengthToDlc(length).Some? ==>
              LengthToDlc(length).value < 16 && DlcLength(LengthToDlc(length).value) == length
  {
  }

  lemma EveryDlcIsFound(dlc: Byte)
    requires dlc < 16
    ensures LengthToDlc(DlcLength(dlc)) == Some(dlc)
  {
  }

  // ----- Checksum -----

  function Xor(bytes: seq<Byte>): Byte {
    if bytes == [] then 0 else Xor(bytes[..|bytes| - 1]) ^ bytes[|bytes| - 1]
  }

  lemma {:induction false} XorConcat(a: seq<Byte>, b: seq<Byte>)
    ensures Xor(a + b) == Xor(a) ^ Xor(b)
  {
    if b == [] {
      assert a + b == a;
    } else {
      assert (a + b)[..|a + b| - 1] == a + b[..|b| - 1];
      XorConcat(a, b[..|b| - 1]);
    }
  }

  method XorChecksum(bytes: seq<Byte>) returns (result: Byte)
    ensures result == Xor(bytes)
  {
    result := 0;
    for i := 0 to |bytes|
      invariant result == Xor(bytes[..i])
    {
      assert bytes[..i + 1][..i] == bytes[..i];
      result := result ^ bytes[i];
    }
    assert bytes[..|bytes|] == bytes;
  }

  // ----- One packet -----

  predicate Packable(f: Frame) {
    && f.bus <= 7 && f.address < 0x2000_0000 && (!f.extended ==> f.address < 0x800)
    && LengthToDlc(f.size).Some?
  }

  function Flag(b: bool, bit: bv32): bv32 { if b then bit else 0 }

  /** Address and flags as one word; the receiver's flags are part of the format, `pack_frames` leaves
      them clear. */
  function Word(address: bv32, extended: bool, returned: bool, rejected: bool): bv32 {
    (address << 3) | Flags(extended, returned, rejected)
  }

  function AddressIn(word: bv32): bv32 { word >> 3 }

  predicate ExtendedIn(word: bv32) { word & 4 != 0 }

  predicate ReturnedIn(word: bv32) { word & 2 != 0 }

  predicate RejectedIn(word: bv32) { word & 1 != 0 }

  function Flags(extended: bool, returned: bool, rejected: bool): bv32 {
    Flag(extended, 4) | Flag(returned, 2) | Flag(rejected, 1)
  }

  function HeaderByte(dlc: Byte, bus: Byte, fd: bool): Byte {
    (dlc << 4) | (bus << 1) | (if fd then 1 else 0)
  }

  function DlcIn(first: Byte): Byte { first >> 4 }

  function BusIn(first: Byte): Byte { (first >> 1) & 7 }

  predicate FdIn(first: Byte) { first & 1 != 0 }

  function Lane(word: bv32, k: nat): Byte
    requires k < 4
  {
    if k == 0 then (word & 0xFF) as Byte
    else if k == 1 then ((word >> 8) & 0xFF) as Byte
    else if k == 2 then ((word >> 16) & 0xFF) as Byte
    else ((word >> 24) & 0xFF) as Byte
  }

  function Join(a: Byte, b: Byte, c: Byte, d: Byte): bv32 {
    (a as bv32) | ((b as bv32) << 8) | ((c as bv32) << 16) | ((d as bv32) << 24)
  }

  lemma LanesJoin(word: bv32)
    ensures Join(Lane(word, 0), Lane(word, 1), Lane(word, 2), Lane(word, 3)) == word
  {
  }

  lemma JoinLanes(a: Byte, b: Byte, c: Byte, d: Byte)
    ensures var w := Join(a, b, c, d);
            Lane(w, 0) == a && Lane(w, 1) == b && Lane(w, 2) == c && Lane(w, 3) == d
  {
  }

  function Zeros(n: nat): seq<Byte> { seq(n, _ => 0) }

  /** The packet with a given checksum byte. */
  function Packet(f: Frame, checksum: Byte): (b: seq<Byte>)
    requires WellFormed(f) && LengthToDlc(f.size).Some?
    ensures |b| == HEADER + f.size
  {
    var word := Word(f.address, f.extended, f.returned, f.rejected);
    [HeaderByte(LengthToDlc(f.size).value, f.bus, f.fd), Lane(word, 0), Lane(word, 1), Lane(word, 2), Lane(word, 3),
     checksum] + f.data[..f.size]
  }

  /** The packet on the wire: the checksum byte makes the XOR of the whole packet zero. */
  function Wire(f: Frame): (b: seq<Byte>)
    requires WellFormed(f) && LengthToDlc(f.size).Some?
    ensures |b| == HEADER + f.size
  {
    Packet(f, Xor(Packet(f, 0)))
  }

  /** The length of the packet that starts with this byte. */
  function PacketSize(first: Byte): nat {
    HEADER + DlcLength(DlcIn(first))
  }

  /** The frame in a complete packet; the receiver pads the payload with zeros. */
  function ParsePacket(b: seq<Byte>): (f: Frame)
    requires |b| >= HEADER && |b| == PacketSize(b[0])
    ensures Fits(f)
  {
    var word := Join(b[1], b[2], b[3], b[4]);
    var length := DlcLength(DlcIn(b[0]));
    Frame(AddressIn(word), BusIn(b[0]), FdIn(b[0]), ExtendedIn(word), ReturnedIn(word), RejectedIn(word),
          length, b[HEADER..] + Zeros(CAPACITY - length))
  }

  /** What a receiver can know of a frame: the bytes past `size` are zero. */
  function Trimmed(f: Frame): Frame
    requires Fits(f)
  {
    f.(data := f.data[..f.size] + Zeros(CAPACITY - f.size))
  }

  lemma HeaderByteParts(dlc: Byte, bus: Byte, fd: bool)
    requires dlc < 16 && bus <= 7
    ensures var h := HeaderByte(dlc, bus, fd); DlcIn(h) == dlc && BusIn(h) == bus && FdIn(h) == fd
  {
  }

  lemma HeaderByteRebuilt(h: Byte)
    ensures DlcIn(h) < 16 && BusIn(h) <= 7 && HeaderByte(DlcIn(h), BusIn(h), FdIn(h)) == h
  {
  }

  lemma WordParts(address: bv32, extended: bool, returned: bool, rejected: bool)
    requires address < 0x2000_0000
    ensures var w := Word(address, extended, returned, rejected);
            AddressIn(w) == address && ExtendedIn(w) == extended && ReturnedIn(w) == returned &&
            RejectedIn(w) == rejected
  {
    hide Flags, Flag;
    FlagsParts(extended, returned, rejected);
    LowBits(address, Flags(extended, returned, rejected));
  }

  lemma LowBits(address: bv32, low: bv32)
    requires address < 0x2000_0000 && low < 8
    ensures var w := (address << 3) | low;
            w >> 3 == address && w & 4 == low & 4 && w & 2 == low & 2 && w & 1 == low & 1
  {
  }

  lemma FlagsParts(extended: bool, returned: bool, rejected: bool)
    ensures var low := Flags(extended, returned, rejected);
            low < 8 && ExtendedIn(low) == extended && ReturnedIn(low) == returned && RejectedIn(low) == rejected
  {
  }

  lemma WordRebuilt(w: bv32)
    ensures Word(AddressIn(w), ExtendedIn(w), ReturnedIn(w), RejectedIn(w)) == w
    ensures AddressIn(w) < 0x2000_0000
  {
  }

  lemma ChecksumByteClears(prefix: seq<Byte>, checksum: Byte, payload: seq<Byte>)
    ensures Xor(prefix + [checksum] + payload) == Xor(prefix + [0] + payload) ^ checksum
  {
    XorConcat(prefix + [checksum], payload);
    XorConcat(prefix + [0], payload);
    XorConcat(prefix, [checksum]);
    XorConcat(prefix, [0]);
    assert Xor([checksum]) == checksum && Xor([0]) == 0 by {
      assert [checksum][..0] == [] && [0 as Byte][..0] == [];
    }
  }

  lemma PacketShape(f: Frame, checksum: Byte)
    requires WellFormed(f) && LengthToDlc(f.size).Some?
    ensures var head := Packet(f, checksum)[..HEADER - 1];
            && Packet(f, checksum) == head + [checksum] + f.data[..f.size]
            && Packet(f, 0)[..HEADER - 1] == head
  {
  }

  lemma WireXorIsZero(f: Frame)
    requires WellFormed(f) && LengthToDlc(f.size).Some?
    ensures Xor(Wire(f)) == 0
  {
    var checksum := Xor(Packet(f, 0));
    PacketShape(f, checksum);
    PacketShape(f, 0);
    ChecksumByteClears(Packet(f, 0)[..HEADER - 1], checksum, f.data[..f.size]);
    ChecksumByteClears(Packet(f, 0)[..HEADER - 1], 0, f.data[..f.size]);
  }

  /** One packet, there: parsing what was packed gives the frame back. */
  lemma ParseWire(f: Frame)
    requires WellFormed(f) && Packable(f)
    ensures LengthToDlc(f.size).Some? && Fits(f)
    ensures var b := Wire(f);
            |b| >= HEADER && |b| == PacketSize(b[0]) && ParsePacket(b) == Trimmed(f)
  {
    hide Word, Join, Lane, HeaderByte, DlcIn, BusIn, FdIn, AddressIn, ExtendedIn, ReturnedIn, RejectedIn,
         LengthToDlc, DlcLength, Xor;
    PackableBounds(f);
    DlcRoundTrip(f.size);
    HeaderByteParts(LengthToDlc(f.size).value, f.bus, f.fd);
    WordParts(f.address, f.extended, f.returned, f.rejected);
    LanesJoin(Word(f.address, f.extended, f.returned, f.rejected));
    assert Wire(f)[HEADER..] == f.data[..f.size];
  }

  lemma PackableBounds(f: Frame)
    requires Packable(f)
    ensures f.bus <= 7 && f.address < 0x2000_0000 && LengthToDlc(f.size).Some?
  {
  }

  /** One packet, back: a packet that passes the checksum is determined by the frame it parses to. */
  lemma WireParse(b: seq<Byte>)
    requires |b| >= HEADER && |b| == PacketSize(b[0]) && Xor(b) == 0
    ensures var f := ParsePacket(b);
            f.bus <= 7 && f.address < 0x2000_0000 && LengthToDlc(f.size).Some? && Wire(f) == b
  {
    hide Word, Join, Lane, HeaderByte, DlcIn, BusIn, FdIn, AddressIn, ExtendedIn, ReturnedIn, RejectedIn,
         LengthToDlc, DlcLength, Xor;
    var f := ParsePacket(b);
    HeaderByteRebuilt(b[0]);
    EveryDlcIsFound(DlcIn(b[0]));
    WordRebuilt(Join(b[1], b[2], b[3], b[4]));
    JoinLanes(b[1], b[2], b[3], b[4]);
    assert f.data[..f.size] == b[HEADER..];
    assert Packet(f, b[5]) == b;
    ChecksumIsForced(f, b[5]);
  }

  /** Only one checksum byte makes the XOR of the packet zero. */
  lemma ChecksumIsForced(f: Frame, checksum: Byte)
    requires WellFormed(f) && LengthToDlc(f.size).Some? && Xor(Packet(f, checksum)) == 0
    ensures Wire(f) == Packet(f, checksum)
  {
    hide Packet, LengthToDlc, Xor;
    PacketShape(f, checksum);
    PacketShape(f, 0);
    ChecksumByteClears(Packet(f, 0)[..HEADER - 1], checksum, f.data[..f.size]);
    XorCancels(Xor(Packet(f, 0)), checksum);
  }

  lemma XorCancels(x: Byte, y: Byte)
    requires x ^ y == 0
    ensures x == y
  {
  }

  // ----- A byte stream -----

  /** The frames of a stream up to its first bad packet, and the incomplete packet that remains. */
  datatype Stream = Stream(frames: seq<Frame>, rest: seq<Byte>, ok: bool)

  predicate Complete(b: seq<Byte>) {
    |b| >= HEADER && |b| >= PacketSize(b[0])
  }

  function Decode(b: seq<Byte>): (s: Stream)
    ensures |s.rest| <= |b|
    decreases |b|
  {
    if !Complete(b) then Stream([], b, true)
    else
      var size := PacketSize(b[0]);
      if Xor(b[..size]) != 0 then Stream([], [], false)
      else
        var s := Decode(b[size..]);
        Stream([ParsePacket(b[..size])] + s.frames, s.rest, s.ok)
  }

  /** The bytes of a list of frames; frames that no packet can carry contribute nothing. */
  function WireAll(frames: seq<Frame>): seq<Byte> {
    if frames == [] then []
    else
      (if WellFormed(frames[0]) && LengthToDlc(frames[0].size).Some? then Wire(frames[0]) else []) +
      WireAll(frames[1..])
  }

  /** A complete packet is either the bad one or the first frame of the rest. */
  lemma DecodeStep(b: seq<Byte>)
    requires Complete(b)
    ensures var size := PacketSize(b[0]);
            && HEADER <= size <= |b|
            && (if Xor(b[..size]) != 0 then Decode(b) == Stream([], [], false)
                else
                  var s := Decode(b[size..]);
                  Decode(b) == Stream([ParsePacket(b[..size])] + s.frames, s.rest, s.ok))
  {
  }

  /** Decoding continues where it stopped: a longer stream only adds to what its beginning gave. */
  lemma {:induction false} DecodeConcat(a: seq<Byte>, b: seq<Byte>)
    ensures var s, all := Decode(a), Decode(a + b);
            if s.ok then
              var t := Decode(s.rest + b);
              all.frames == s.frames + t.frames && all.rest == t.rest && all.ok == t.ok
            else !all.ok && all.frames == s.frames
    decreases |a|
  {
    hide Decode, ParsePacket, PacketSize, Xor;
    if Complete(a) {
      var size := PacketSize(a[0]);
      DecodeStep(a);
      DecodeStep(a + b);
      assert (a + b)[..size] == a[..size];
      assert (a + b)[size..] == a[size..] + b;
      DecodeConcat(a[size..], b);
    } else {
      DecodeIncomplete(a);
    }
  }

  lemma {:induction false} DecodeKeepsBytes(b: seq<Byte>)
    ensures Decode(b).ok ==> b == WireAll(Decode(b).frames) + Decode(b).rest
    ensures Decode(b).ok ==> !Complete(Decode(b).rest)
    decreases |b|
  {
    hide Decode, ParsePacket, PacketSize, Xor, Wire, LengthToDlc;
    if Complete(b) {
      var size := PacketSize(b[0]);
      DecodeStep(b);
      if Xor(b[..size]) == 0 {
        DecodeKeepsBytes(b[size..]);
        WireParse(b[..size]);
        var s := Decode(b[size..]);
        assert ([ParsePacket(b[..size])] + s.frames)[1..] == s.frames;
      }
    } else {
      DecodeIncomplete(b);
    }
  }

  // ----- Packing -----

  predicate AllPackable(frames: seq<Frame>) {
    forall k :: 0 <= k < |frames| ==> Packable(frames[k])
  }

  predicate AllWellFormed(frames: seq<Frame>) {
    forall k :: 0 <= k < |frames| ==> WellFormed(frames[k])
  }

  function OutgoingAll(frames: seq<Frame>): (r: seq<Frame>)
    ensures |r| == |frames| && forall k :: 0 <= k < |frames| ==> r[k] == Outgoing(frames[k])
  {
    seq(|frames|, k requires 0 <= k < |frames| => Outgoing(frames[k]))
  }

  lemma {:induction false} WireAllAppend(frames: seq<Frame>, f: Frame)
    requires WellFormed(f) && LengthToDlc(f.size).Some?
    ensures WireAll(frames + [f]) == WireAll(frames) + Wire(f)
  {
    hide Wire, LengthToDlc;
    if frames == [] {
      assert [f][1..] == [];
    } else {
      assert (frames + [f])[1..] == frames[1..] + [f];
      WireAllAppend(frames[1..], f);
    }
  }

  /** `pack_frames_into`: the output grows frame by frame; the checksum byte is written last, over the
      zero it was computed with. The first frame that no packet can carry ends the call. */
  method PackFrames(frames: seq<Frame>) returns (output: seq<Byte>, ok: bool)
    requires AllWellFormed(frames)
    ensures ok == AllPackable(frames)
    ensures ok ==> output == WireAll(OutgoingAll(frames))
  {
    hide Wire, LengthToDlc;
    output := [];
    assert WireAll([]) == [];
    for i := 0 to |frames|
      invariant AllPackable(frames[..i])
      invariant output == WireAll(OutgoingAll(frames[..i]))
    {
      var frame := frames[i];
      if frame.bus > 7 || frame.address >= 0x2000_0000 || (!frame.extended && frame.address >= 0x800) ||
         LengthToDlc(frame.size).None? {
        return output, false;
      }
      output := AppendPacket(output, Outgoing(frame));
      assert OutgoingAll(frames[..i + 1]) == OutgoingAll(frames[..i]) + [Outgoing(frame)];
      WireAllAppend(OutgoingAll(frames[..i]), Outgoing(frame));
    }
    assert frames[..|frames|] == frames;
    ok := true;
  }

  method AppendPacket(before: seq<Byte>, f: Frame) returns (output: seq<Byte>)
    requires WellFormed(f) && LengthToDlc(f.size).Some?
    ensures output == before + Wire(f)
  {
    hide Word, Lane, HeaderByte, LengthToDlc, Xor;
    var start := |before|;
    var word := Word(f.address, f.extended, f.returned, f.rejected);
    output := before + [HeaderByte(LengthToDlc(f.size).value, f.bus, f.fd),
                        Lane(word, 0), Lane(word, 1), Lane(word, 2), Lane(word, 3), 0] + f.data[..f.size];
    assert output[start..] == Packet(f, 0);
    var checksum := XorChecksum(output[start..]);
    output := output[start + 5 := checksum];
    assert output == before + Packet(f, checksum);
  }

  // ----- Receiving -----

  /** The receive buffer of the driver. */
  class Receiver {
    var carry: seq<Byte>

    constructor ()
      ensures carry == []
    {
      carry := [];
    }

    /** `unpack_frames`: a bad packet empties the carry and loses the frames of this call. */
    method Unpack(bytes: seq<Byte>) returns (frames: seq<Frame>, ok: bool)
      modifies this
      ensures var s := Decode(old(carry) + bytes);
              && ok == s.ok
              && (ok ==> frames == s.frames && carry == s.rest)
              && (!ok ==> frames == [] && carry == [])
    {
      hide Decode, Xor, ParsePacket, DlcLength, DlcIn;
      carry := carry + bytes;
      frames := [];
      var position := 0;
      ghost var all := Decode(carry);
      assert carry[0..] == carry;
      while |carry| - position >= HEADER
        invariant 0 <= position <= |carry| && carry == old(carry) + bytes
        invariant var s := Decode(carry[position..]);
                  all.frames == frames + s.frames && all.rest == s.rest && all.ok == s.ok
        decreases |carry| - position
      {
        ghost var here := carry[position..];
        var size := HEADER + DlcLength(DlcIn(carry[position]));
        if |carry| - position < size { break; }
        var packet := carry[position..position + size];
        assert here[..size] == packet && here[size..] == carry[position + size..];
        DecodeStep(here);
        var checksum := XorChecksum(packet);
        if checksum != 0 {
          carry := [];
          return [], false;
        }
        frames := frames + [ParsePacket(packet)];
        position := position + size;
      }
      DecodeIncomplete(carry[position..]);
      carry := carry[position..];
      ok := true;
    }
  }

  lemma DecodeIncomplete(b: seq<Byte>)
    requires !Complete(b)
    ensures Decode(b) == Stream([], b, true)
  {
  }

  /** A frame as the capture tool of scripts/can_logger.py records it: just the payload bytes. */
  datatype RawFrame = RawFrame(
    address: bv32, bus: Byte, fd: bool, extended: bool, returned: bool, rejected: bool, data: seq<Byte>)

  function Raw(f: Frame): RawFrame
    requires Fits(f)
  {
    RawFrame(f.address, f.bus, f.fd, f.extended, f.returned, f.rejected, f.data[..f.size])
  }

  predicate SameFrames(raw: seq<RawFrame>, frames: seq<Frame>) {
    |raw| == |frames| && forall k :: 0 <= k < |raw| ==> Fits(frames[k]) && raw[k] == Raw(frames[k])
  }

  /** The capture tool's decoder, written separately from the driver's. */
  class PacketDecoder {
    var carry: seq<Byte>

    constructor ()
      ensures carry == []
    {
      carry := [];
    }

    /** `feed` records the same frames as the driver unpacks, and stops on the same streams. */
    method Feed(data: seq<Byte>) returns (frames: seq<RawFrame>, ok: bool)
      modifies this
      ensures var s := Decode(old(carry) + data);
              && ok == s.ok
              && (ok ==> SameFrames(frames, s.frames) && carry == s.rest)
              && (!ok ==> carry == [])
    {
      hide Decode, Xor, Join, DlcLength, Raw, ParsePacket, DlcIn, BusIn, FdIn, AddressIn, ExtendedIn, ReturnedIn,
           RejectedIn, Fits;
      carry := carry + data;
      frames := [];
      var position := 0;
      ghost var done := [];
      ghost var all := Decode(carry);
      assert carry[0..] == carry;
      while |carry| - position >= 6
        invariant 0 <= position <= |carry| && carry == old(carry) + data
        invariant SameFrames(frames, done)
        invariant var s := Decode(carry[position..]);
                  all.frames == done + s.frames && all.rest == s.rest && all.ok == s.ok
        decreases |carry| - position
      {
        ghost var here := carry[position..];
        var size := 6 + DlcLength(DlcIn(carry[position]));
        if |carry| - position < size { break; }
        var packet := carry[position..position + size];
        assert here[..size] == packet && here[size..] == carry[position + size..];
        DecodeStep(here);
        var parity := XorChecksum(packet);
        if parity != 0 {
          carry := [];
          return [], false;
        }
        var word := Join(packet[1], packet[2], packet[3], packet[4]);
        var frame := RawFrame(AddressIn(word), BusIn(packet[0]), FdIn(packet[0]), ExtendedIn(word), ReturnedIn(word),
                              RejectedIn(word), packet[6..]);
        RawIsParsed(packet);
        frames := frames + [frame];
        done := done + [ParsePacket(packet)];
        position := position + size;
      }
      DecodeIncomplete(carry[position..]);
      carry := carry[position..];
      ok := true;
    }
  }

  lemma RawIsParsed(packet: seq<Byte>)
    requires |packet| >= HEADER && |packet| == PacketSize(packet[0])
    ensures var word := Join(packet[1], packet[2], packet[3], packet[4]);
            Raw(ParsePacket(packet)) ==
            RawFrame(AddressIn(word), BusIn(packet[0]), FdIn(packet[0]), ExtendedIn(word), ReturnedIn(word),
                     RejectedIn(word), packet[6..])
  {
    hide Join, DlcLength, DlcIn, BusIn, FdIn, AddressIn, ExtendedIn, ReturnedIn, RejectedIn;
    assert ParsePacket(packet).data[..ParsePacket(packet).size] == packet[6..];
  }

  // ----- Any splitting -----

  function Flatten(chunks: seq<seq<Byte>>): seq<Byte> {
    if chunks == [] then [] else chunks[0] + Flatten(chunks[1..])
  }

  /** The frames that consecutive calls deliver, up to the first one that throws. */
  datatype Delivery = Delivery(frames: seq<Frame>, carry: seq<Byte>, ok: bool)

  function FeedAll(carry: seq<Byte>, chunks: seq<seq<Byte>>): Delivery
    decreases |chunks|
  {
    if chunks == [] then Delivery([], carry, true)
    else
      var s := Decode(carry + chunks[0]);
      if !s.ok then Delivery([], [], false)
      else
        var d := FeedAll(s.rest, chunks[1..]);
        Delivery(s.frames + d.frames, d.carry, d.ok)
  }

  lemma FlattenPrefix(carry: seq<Byte>, chunks: seq<seq<Byte>>, j: nat)
    requires j < |chunks|
    ensures carry + Flatten(chunks[..j + 1]) == carry + chunks[0] + Flatten(chunks[1..][..j])
  {
    assert chunks[..j + 1][1..] == chunks[1..][..j];
  }

  /** However a stream is cut into chunks, whether it fails is the same; a stream that does not fail
      delivers all its frames and the same incomplete rest, and a failing one delivers exactly the frames
      completed before the call that throws, a prefix of the frames before the bad packet. */
  lemma {:induction false} SplittingDoesNotMatter(carry: seq<Byte>, chunks: seq<seq<Byte>>) returns (k: nat)
    requires !Complete(carry)
    ensures k <= |chunks|
    ensures var d, s := FeedAll(carry, chunks), Decode(carry + Flatten(chunks));
            && d.ok == s.ok && d.frames <= s.frames
            && (d.ok ==> d.frames == s.frames && d.carry == s.rest)
            && (!d.ok ==>
                  && k < |chunks|
                  && d.frames == Decode(carry + Flatten(chunks[..k])).frames
                  && Decode(carry + Flatten(chunks[..k])).ok && !Decode(carry + Flatten(chunks[..k + 1])).ok)
    decreases |chunks|
  {
    hide Decode, Complete;
    if chunks == [] {
      assert carry + Flatten(chunks) == carry;
      DecodeIncomplete(carry);
      k := 0;
    } else {
      var first := carry + chunks[0];
      var s := Decode(first);
      assert carry + Flatten(chunks) == first + Flatten(chunks[1..]);
      DecodeConcat(first, Flatten(chunks[1..]));
      if s.ok {
        DecodeKeepsBytes(first);
        var j := SplittingDoesNotMatter(s.rest, chunks[1..]);
        k := j + 1;
        if !FeedAll(carry, chunks).ok {
          FlattenPrefix(carry, chunks, j);
          FlattenPrefix(carry, chunks, j + 1);
          DecodeConcat(first, Flatten(chunks[1..][..j]));
          DecodeConcat(first, Flatten(chunks[1..][..j + 1]));
        }
      } else {
        k := 0;
        assert carry + Flatten(chunks[..0]) == carry;
        assert chunks[..1][1..] == [];
        assert carry + Flatten(chunks[..1]) == first;
        DecodeIncomplete(carry);
      }
    }
  }

  function TrimmedAll(frames: seq<Frame>): (r: seq<Frame>)
    requires AllWellFormed(frames) && AllPackable(frames)
  {
    seq(|frames|, k requires 0 <= k < |frames| => Trimmed(frames[k]))
  }

  lemma {:induction false} DecodeWireAll(frames: seq<Frame>)
    requires AllWellFormed(frames) && AllPackable(frames)
    ensures Decode(WireAll(frames)) == Stream(TrimmedAll(frames), [], true)
  {
    hide Wire, ParsePacket, PacketSize, Trimmed, Packable;
    if frames != [] {
      ParseWire(frames[0]);
      DecodeWireAll(frames[1..]);
      var b := WireAll(frames);
      var first := Wire(frames[0]);
      WireXorIsZero(frames[0]);
      assert b[..|first|] == first && b[|first|..] == WireAll(frames[1..]);
      DecodeStep(b);
      assert TrimmedAll(frames) == [Trimmed(frames[0])] + TrimmedAll(frames[1..]);
    }
  }

  /** Any splitting of packed frames gives those frames back and leaves nothing over. */
  lemma PackedFramesSurviveAnySplitting(frames: seq<Frame>, chunks: seq<seq<Byte>>)
    requires AllWellFormed(frames) && AllPackable(frames)
    requires Flatten(chunks) == WireAll(OutgoingAll(frames))
    ensures FeedAll([], chunks) == Delivery(TrimmedAll(OutgoingAll(frames)), [], true)
  {
    hide Wire, Decode, FeedAll, Trimmed;
    var k := SplittingDoesNotMatter([], chunks);
    assert [] + Flatten(chunks) == Flatten(chunks);
    DecodeWireAll(OutgoingAll(frames));
  }
}
