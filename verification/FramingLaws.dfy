/** The packets of PandaFraming.dfy byte by byte, with every constant of the format written out, and what becomes of
    each field of a frame on its way through them. */
module FramingLaws {
  import opened Arithmetic
  import opened PandaFraming

  /** The payload lengths that a data length code stands for. */
  lemma DlcExactly(size: nat, dlc: Byte)
    ensures LengthToDlc(size) == Some(dlc) <==>
      || (dlc == 0 && size == 0) || (dlc == 1 && size == 1) || (dlc == 2 && size == 2) || (dlc == 3 && size == 3)
      || (dlc == 4 && size == 4) || (dlc == 5 && size == 5) || (dlc == 6 && size == 6) || (dlc == 7 && size == 7)
      || (dlc == 8 && size == 8) || (dlc == 9 && size == 12) || (dlc == 10 && size == 16) || (dlc == 11 && size == 20)
      || (dlc == 12 && size == 24) || (dlc == 13 && size == 32) || (dlc == 14 && size == 48)
      || (dlc == 15 && size == 64)
  {
  }

  /** The frames that `pack_frames` accepts. */
  lemma PackableExactly(f: Frame)
    ensures Packable(f) <==>
      && f.bus <= 7 && f.address < 536870912 && (f.extended || f.address < 2048)
      && (f.size <= 8 || f.size == 12 || f.size == 16 || f.size == 20 || f.size == 24 || f.size == 32 ||
          f.size == 48 || f.size == 64)
  {
    hide DlcLength;
    if f.size <= 7 { DlcExactly(f.size, SmallDlc(f.size)); }
  }

  /** The bytes of the packet that is sent for a frame. */
  lemma PacketExactly(f: Frame)
    requires WellFormed(f) && Packable(f)
    ensures var b := Wire(Outgoing(f));
            && |b| == 6 + f.size
            && LengthToDlc(f.size) == Some(b[0] >> 4) && (b[0] >> 1) & 7 == f.bus && (b[0] & 1 == 1 <==> f.fd)
            && (b[1] as bv32) | ((b[2] as bv32) << 8) | ((b[3] as bv32) << 16) | ((b[4] as bv32) << 24) ==
               (f.address << 3) | (if f.extended then 4 else 0)
            && Xor(b) == 0 && b[6..] == f.data[..f.size]
  {
    hide Xor, Lane, HeaderByte, LengthToDlc, DlcLength, Word;
    var g := Outgoing(f);
    PackableBounds(f);
    DlcRoundTrip(f.size);
    HeaderExactly(LengthToDlc(f.size).value, f.bus, f.fd);
    LanesJoin(Word(f.address, f.extended, false, false));
    WordExactly(f.address, f.extended);
    WireXorIsZero(g);
  }

  lemma HeaderExactly(dlc: Byte, bus: Byte, fd: bool)
    requires dlc < 16 && bus <= 7
    ensures var h := HeaderByte(dlc, bus, fd); h >> 4 == dlc && (h >> 1) & 7 == bus && (h & 1 == 1 <==> fd)
  {
  }

  lemma WordExactly(address: bv32, extended: bool)
    ensures Word(address, extended, false, false) == (address << 3) | (if extended then 4 else 0)
  {
  }

  /** What arrives of a frame that was sent: everything but the receiver's flags and the bytes past its size. */
  predicate Delivered(sent: Frame, got: Frame) {
    && got.address == sent.address && got.bus == sent.bus && got.fd == sent.fd && got.extended == sent.extended
    && !got.returned && !got.rejected && got.size == sent.size <= 64
    && |got.data| == |sent.data| == 64
    && (forall j :: 0 <= j < sent.size ==> got.data[j] == sent.data[j])
    && (forall j :: sent.size <= j < 64 ==> got.data[j] == 0)
  }

  lemma TrimmedIsDelivered(f: Frame)
    requires WellFormed(f) && Packable(f)
    ensures Fits(Outgoing(f)) && Delivered(f, Trimmed(Outgoing(f)))
  {
    hide LengthToDlc, DlcLength;
  }

  /** Any splitting of the packets of any list of frames delivers those frames, in their order, and leaves nothing
      over. */
  lemma FramesArrive(frames: seq<Frame>, chunks: seq<seq<Byte>>)
    requires AllWellFormed(frames) && AllPackable(frames)
    requires Flatten(chunks) == WireAll(OutgoingAll(frames))
    ensures var d := FeedAll([], chunks);
            && d.ok && d.carry == [] && |d.frames| == |frames|
            && forall k :: 0 <= k < |frames| ==> Delivered(frames[k], d.frames[k])
  {
    hide FeedAll, Wire, Delivered, Packable, WellFormed, Outgoing, Trimmed;
    PackedFramesSurviveAnySplitting(frames, chunks);
    forall k | 0 <= k < |frames| ensures Delivered(frames[k], FeedAll([], chunks).frames[k]) {
      TrimmedIsDelivered(frames[k]);
    }
  }

  /** What the capture tool records of what the driver unpacks: the same frames, without the padding. */
  lemma RecordedExactly(raw: seq<RawFrame>, frames: seq<Frame>)
    requires SameFrames(raw, frames)
    ensures |raw| == |frames|
    ensures forall k :: 0 <= k < |frames| ==>
      var r, f := raw[k], frames[k];
      && r.address == f.address && r.bus == f.bus && r.fd == f.fd && r.extended == f.extended
      && r.returned == f.returned && r.rejected == f.rejected && |r.data| == f.size <= |f.data|
      && forall j :: 0 <= j < f.size ==> r.data[j] == f.data[j]
  {
  }
}
