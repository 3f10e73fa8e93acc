/** The checksum of Crc.dfy in absolute terms: two complete frames of test/test_hyundai_canfd_codec.cpp with their
    checksums, register by register, and the constants that remain for frames of zeros. */
module CrcLaws {
  import opened Arithmetic
  import opened Crc

  /** The frame sizes that have a checksum. */
  lemma SizesExactly(size: nat)
    ensures Supported(size) <==> size == 8 || size == 16 || size == 24 || size == 32
  {
  }

  /** One byte, shifted in bit by bit. */
  function Shifted(c: Word): Word {
    if c & 0x8000 != 0 then (c << 1) ^ 0x1021 else c << 1
  }

  lemma Absorbed(c: Word, b: Byte)
    ensures Absorb(c, b) ==
            Shifted(Shifted(Shifted(Shifted(Shifted(Shifted(Shifted(Shifted(c ^ ((b as Word) << 8)))))))))
  {
    hide Shifted, Step, Steps;
    var x := c ^ ((b as Word) << 8);
    OneStep(x, 0);
    OneStep(x, 1);
    OneStep(x, 2);
    OneStep(x, 3);
    OneStep(x, 4);
    OneStep(x, 5);
    OneStep(x, 6);
    OneStep(x, 7);
  }

  lemma OneStep(x: Word, n: nat)
    ensures Steps(x, n + 1) == Shifted(Steps(x, n)) && Steps(x, 0) == x
  {
    hide Shifted, Step;
    StepIsShifted(Steps(x, n));
  }

  lemma StepIsShifted(c: Word)
    ensures Step(c) == Shifted(c)
  {
  }

  function Clear(n: nat): (s: seq<Byte>)
    ensures |s| == n && forall k :: 0 <= k < n ==> s[k] == 0
  {
    seq(n, _ => 0)
  }

  lemma {:induction false} ClearFolds(s: seq<Byte>)
    requires forall k :: 0 <= k < |s| ==> s[k] == 0
    ensures Fold(0, s) == 0
  {
    hide Absorb;
    if s != [] {
      Absorbed(0, 0);
      ClearFolds(s[1..]);
    }
  }

  /** The checksum of a frame of zeros at address zero is the constant of its size. */
  lemma ClearFrames()
    ensures Checksum(0, Clear(8)) == 0x5F29 && Checksum(0, Clear(16)) == 0x041D
    ensures Checksum(0, Clear(24)) == 0x819D && Checksum(0, Clear(32)) == 0x9F5B
  {
    hide Fold;
    ClearFolds(Clear(8)[2..] + AddressBytes(0));
    ClearFolds(Clear(16)[2..] + AddressBytes(0));
    ClearFolds(Clear(24)[2..] + AddressBytes(0));
    ClearFolds(Clear(32)[2..] + AddressBytes(0));
  }

  lemma Start(c: Word, s: seq<Byte>)
    ensures Fold(c, s[..0]) == c
  {
  }

  /** The byte at k takes the register from d to e. */
  lemma Next(c: Word, s: seq<Byte>, k: nat, d: Word, e: Word)
    requires k < |s| && Fold(c, s[..k]) == d
    requires e == Shifted(Shifted(Shifted(Shifted(Shifted(Shifted(Shifted(Shifted(d ^ ((s[k] as Word) << 8)))))))))
    ensures Fold(c, s[..k + 1]) == e
  {
    hide Absorb, Shifted;
    Absorbed(d, s[k]);
    assert s[..k + 1] == s[..k] + [s[k]];
    FoldConcat(c, s[..k], [s[k]]);
    assert Fold(d, [s[k]]) == Absorb(d, s[k]);
  }

  const LFA_FRAME: seq<Byte> := [
    0xBE, 0xBF, 0x00, 0x02, 0x80, 0xC8, 0x18, 0x00, 0x00, 0x00, 0x00, 0x00, 0x00, 0x64, 0x00, 0x00]

  lemma LfaFrameIsAccepted1()
    ensures Fold(0x0000, [0x00, 0x02, 0x80, 0xC8, 0x18, 0x00, 0x00, 0x00]) == 0x1B32
  {
    hide Absorb, Fold;
    var s: seq<Byte> := [0x00, 0x02, 0x80, 0xC8, 0x18, 0x00, 0x00, 0x00];
    Start(0x0000, s);
    Next(0x0000, s, 0, 0x0000, 0x0000);
    Next(0x0000, s, 1, 0x0000, 0x2042);
    Next(0x0000, s, 2, 0x2042, 0xF7EA);
    Next(0x0000, s, 3, 0xF7EA, 0x2DBC);
    Next(0x0000, s, 4, 0x2DBC, 0xDAF6);
    Next(0x0000, s, 5, 0xDAF6, 0x9C37);
    Next(0x0000, s, 6, 0x9C37, 0x7535);
    Next(0x0000, s, 7, 0x7535, 0x1B32);
    assert s[..8] == s;
  }

  lemma LfaFrameIsAccepted2()
    ensures Fold(0x1B32, [0x00, 0x00, 0x00, 0x64, 0x00, 0x00, 0x2A, 0x01]) == 0xBBA3
  {
    hide Absorb, Fold;
    var s: seq<Byte> := [0x00, 0x00, 0x00, 0x64, 0x00, 0x00, 0x2A, 0x01];
    Start(0x1B32, s);
    Next(0x1B32, s, 0, 0x1B32, 0x915A);
    Next(0x1B32, s, 1, 0x915A, 0xC998);
    Next(0x1B32, s, 2, 0xC998, 0xD065);
    Next(0x1B32, s, 3, 0xD065, 0x825F);
    Next(0x1B32, s, 4, 0x825F, 0xEECA);
    Next(0x1B32, s, 5, 0xEECA, 0xD6E0);
    Next(0x1B32, s, 6, 0xD6E0, 0xCE93);
    Next(0x1B32, s, 7, 0xCE93, 0xBBA3);
    assert s[..8] == s;
  }

  /** The LFA frame of a fresh codec that steers with a torque of 100. */
  lemma LfaFrameIsAccepted()
    ensures Accepts(0x12A, LFA_FRAME)
  {
    hide Fold;
    var s1: seq<Byte> := [0x00, 0x02, 0x80, 0xC8, 0x18, 0x00, 0x00, 0x00];
    var s2: seq<Byte> := [0x00, 0x00, 0x00, 0x64, 0x00, 0x00, 0x2A, 0x01];
    LfaFrameIsAccepted1();
    LfaFrameIsAccepted2();
    FoldConcat(0, s1, s2);
    assert LFA_FRAME[2..] + AddressBytes(0x12A) == s1 + s2;
  }

  const SCC_FRAME: seq<Byte> := [
    0x60, 0x64, 0x00, 0x0A, 0x00, 0x30, 0x64, 0x00, 0x14, 0x00, 0x00, 0x04, 0x1E, 0x08, 0x00, 0x00,
    0x09, 0x14, 0x43, 0x32, 0x32, 0x00, 0x02, 0x00, 0x00, 0x00, 0x00, 0x00, 0x00, 0x00, 0x00, 0x00]

  lemma SccFrameIsAccepted1()
    ensures Fold(0x0000, [0x00, 0x0A, 0x00, 0x30, 0x64, 0x00, 0x14, 0x00]) == 0xA334
  {
    hide Absorb, Fold;
    var s: seq<Byte> := [0x00, 0x0A, 0x00, 0x30, 0x64, 0x00, 0x14, 0x00];
    Start(0x0000, s);
    Next(0x0000, s, 0, 0x0000, 0x0000);
    Next(0x0000, s, 1, 0x0000, 0xA14A);
    Next(0x0000, s, 2, 0xA14A, 0xEFCB);
    Next(0x0000, s, 3, 0xEFCB, 0xF192);
    Next(0x0000, s, 4, 0xF192, 0x411C);
    Next(0x0000, s, 5, 0x411C, 0x44E5);
    Next(0x0000, s, 6, 0x44E5, 0xBFF5);
    Next(0x0000, s, 7, 0xBFF5, 0xA334);
    assert s[..8] == s;
  }

  lemma SccFrameIsAccepted2()
    ensures Fold(0xA334, [0x00, 0x04, 0x1E, 0x08, 0x00, 0x00, 0x09, 0x14]) == 0x6736
  {
    hide Absorb, Fold;
    var s: seq<Byte> := [0x00, 0x04, 0x1E, 0x08, 0x00, 0x00, 0x09, 0x14];
    Start(0xA334, s);
    Next(0xA334, s, 0, 0xA334, 0xB189);
    Next(0xA334, s, 1, 0xB189, 0x7E7E);
    Next(0xA334, s, 2, 0x7E7E, 0x12A6);
    Next(0xA334, s, 3, 0x12A6, 0x157B);
    Next(0xA334, s, 4, 0x157B, 0x3994);
    Next(0xA334, s, 5, 0x3994, 0x337A);
    Next(0xA334, s, 6, 0x337A, 0xED19);
    Next(0xA334, s, 7, 0xED19, 0x6736);
    assert s[..8] == s;
  }

  lemma SccFrameIsAccepted3()
    ensures Fold(0x6736, [0x43, 0x32, 0x32, 0x00, 0x02, 0x00, 0x00, 0x00]) == 0xFC67
  {
    hide Absorb, Fold;
    var s: seq<Byte> := [0x43, 0x32, 0x32, 0x00, 0x02, 0x00, 0x00, 0x00];
    Start(0x6736, s);
    Next(0x6736, s, 0, 0x6736, 0x52E6);
    Next(0x6736, s, 1, 0x52E6, 0x8AA6);
    Next(0x6736, s, 2, 0x8AA6, 0x80D3);
    Next(0x6736, s, 3, 0x80D3, 0x4288);
    Next(0x6736, s, 4, 0x4288, 0xC0C4);
    Next(0x6736, s, 5, 0xC0C4, 0x1D4C);
    Next(0x6736, s, 6, 0x1D4C, 0x8F9C);
    Next(0x6736, s, 7, 0x8F9C, 0xFC67);
    assert s[..8] == s;
  }

  lemma SccFrameIsAccepted4()
    ensures Fold(0xFC67, [0x00, 0x00, 0x00, 0x00, 0x00, 0x00, 0xA0, 0x01]) == 0xFB3B
  {
    hide Absorb, Fold;
    var s: seq<Byte> := [0x00, 0x00, 0x00, 0x00, 0x00, 0x00, 0xA0, 0x01];
    Start(0xFC67, s);
    Next(0xFC67, s, 0, 0xFC67, 0x4993);
    Next(0xFC67, s, 1, 0x4993, 0x4AED);
    Next(0xFC67, s, 2, 0x4AED, 0x048E);
    Next(0xFC67, s, 3, 0x048E, 0xCE84);
    Next(0xFC67, s, 4, 0xCE84, 0xBC82);
    Next(0xFC67, s, 5, 0xBC82, 0xE457);
    Next(0xFC67, s, 6, 0xE457, 0x5F40);
    Next(0xFC67, s, 7, 0x5F40, 0xFB3B);
    assert s[..8] == s;
  }

  /** The SCC frame of a fresh codec. */
  lemma SccFrameIsAccepted()
    ensures Accepts(0x1A0, SCC_FRAME)
  {
    hide Fold;
    var s1: seq<Byte> := [0x00, 0x0A, 0x00, 0x30, 0x64, 0x00, 0x14, 0x00];
    var s2: seq<Byte> := [0x00, 0x04, 0x1E, 0x08, 0x00, 0x00, 0x09, 0x14];
    var s3: seq<Byte> := [0x43, 0x32, 0x32, 0x00, 0x02, 0x00, 0x00, 0x00];
    var s4: seq<Byte> := [0x00, 0x00, 0x00, 0x00, 0x00, 0x00, 0xA0, 0x01];
    SccFrameIsAccepted1();
    SccFrameIsAccepted2();
    SccFrameIsAccepted3();
    SccFrameIsAccepted4();
    FoldConcat(0, s1, s2);
    FoldConcat(0, s1 + s2, s3);
    FoldConcat(0, s1 + s2 + s3, s4);
    assert SCC_FRAME[2..] + AddressBytes(0x1A0) == s1 + s2 + s3 + s4;
  }
}
