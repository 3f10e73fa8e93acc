/** Every error whose bits lie within sixteen consecutive bits of the covered bytes is rejected. Bits count in
    the order of the CRC, the most significant bit of each byte first. */
module CrcBursts {
  import opened Arithmetic
  import opened Crc
  import opened CrcStrength
  import B = BitCodec

  /** The strings differ at most in the sixteen bits from t on. */
  predicate AgreeOutside(a: seq<Byte>, b: seq<Byte>, t: nat)
    requires |a| == |b|
  {
    forall n: nat :: n < 8 * |a| && !(t <= n < t + 16) ==> AgreeAt(a, b, n)
  }

  predicate AgreeAt(a: seq<Byte>, b: seq<Byte>, n: nat)
    requires |a| == |b| && n < 8 * |a|
  {
    B.BitOf(a[n / 8], 7 - n % 8) == B.BitOf(b[n / 8], 7 - n % 8)
  }

  /** (1 << s) - 1 */
  function LowMask(s: nat): Byte {
    if s == 0 then 0x00 else if s == 1 then 0x01 else if s == 2 then 0x03 else if s == 3 then 0x07
    else if s == 4 then 0x0F else if s == 5 then 0x1F else if s == 6 then 0x3F else if s == 7 then 0x7F else 0xFF
  }

  // ----- Bytes that agree in their upper or lower bits -----

  lemma MixBit(x: Byte, y: Byte, k: nat)
    requires k < 8
    ensures B.BitOf(x, k) == B.BitOf(y, k) ==> !B.BitOf(Mix(x, y), k)
  {
    MixMasked(x, y, B.Mask(k));
  }

  lemma MixMasked(x: Byte, y: Byte, m: Byte)
    ensures Mix(x, y) & m == (x & m) ^ (y & m)
  {
  }

  /** No bit from s up. */
  lemma NoUpperBits(e: Byte, s: nat)
    requires s <= 8 && forall k :: s <= k < 8 ==> !B.BitOf(e, k)
    ensures e & LowMask(s) == e
  {
    assert s <= 7 ==> !B.BitOf(e, 7);
    assert s <= 6 ==> !B.BitOf(e, 6);
    assert s <= 5 ==> !B.BitOf(e, 5);
    assert s <= 4 ==> !B.BitOf(e, 4);
    assert s <= 3 ==> !B.BitOf(e, 3);
    assert s <= 2 ==> !B.BitOf(e, 2);
    assert s <= 1 ==> !B.BitOf(e, 1);
    assert s <= 0 ==> !B.BitOf(e, 0);
  }

  /** No bit below s. */
  lemma NoLowerBits(e: Byte, s: nat)
    requires s <= 8 && forall k :: 0 <= k < s ==> !B.BitOf(e, k)
    ensures e & LowMask(s) == 0
  {
    assert s > 0 ==> !B.BitOf(e, 0);
    assert s > 1 ==> !B.BitOf(e, 1);
    assert s > 2 ==> !B.BitOf(e, 2);
    assert s > 3 ==> !B.BitOf(e, 3);
    assert s > 4 ==> !B.BitOf(e, 4);
    assert s > 5 ==> !B.BitOf(e, 5);
    assert s > 6 ==> !B.BitOf(e, 6);
    assert s > 7 ==> !B.BitOf(e, 7);
  }

  // ----- Finding the pattern -----

  function HalfTop(top: Word): Word { top >> 1 }

  function HalfLow(top: Word, low: Byte): Byte { (low >> 1) | (((top & 1) as Byte) << 7) }

  lemma DoubleOfHalf(top: Word, low: Byte)
    requires low & 1 == 0
    ensures DoubleTop(HalfTop(top), HalfLow(top, low)) == top && DoubleLow(HalfLow(top, low)) == low
  {
  }

  lemma HalfTopLimit(top: Word, s: nat)
    requires 1 <= s <= 8 && (s <= 7 ==> top & Limit(s) == top)
    ensures HalfTop(top) & Limit(s - 1) == HalfTop(top)
  {
    if s == 1 {} else if s == 2 {} else if s == 3 {}
    else if s == 4 {} else if s == 5 {} else if s == 6 {} else if s == 7 {}
  }

  lemma HalfLowMask(top: Word, low: Byte, s: nat)
    requires 1 <= s <= 8 && low & LowMask(s) == 0
    ensures low & 1 == 0 && HalfLow(top, low) & LowMask(s - 1) == 0
  {
    if s == 1 {} else if s == 2 {} else if s == 3 {}
    else if s == 4 {} else if s == 5 {} else if s == 6 {} else if s == 7 {}
  }

  lemma ShortTop(top: Word)
    requires top & Limit(0) == top
    ensures Low(LowByte(top)) == top
  {
  }

  /** A pattern whose lowest s bits are zero, and that has no bit above the sixteen that follow, is w << s. */
  lemma {:induction false} FindBurst(top: Word, low: Byte, s: nat) returns (w: Word)
    requires s <= 8 && (s <= 7 ==> top & Limit(s) == top) && low & LowMask(s) == 0
    ensures BurstTop(w, s) == top && BurstLow(w, s) == low
    decreases s
  {
    hide Limit, LowMask, DoubleTop, DoubleLow, HalfTop, HalfLow, Low, LowByte, HighByte, Join;
    if s == 0 {
      w := Join(low, LowByte(top));
      WordOfBytes(low, LowByte(top));
      ShortTop(top);
    } else {
      HalfLowMask(top, low, s);
      HalfTopLimit(top, s);
      w := FindBurst(HalfTop(top), HalfLow(top, low), s - 1);
      DoubleOfHalf(top, low);
    }
  }

  /** The first byte bounds the upper word. */
  lemma TopLimit(e1: Byte, e2: Byte, s: nat)
    requires s <= 7 && e1 & LowMask(s) == e1
    ensures Join(e2, e1) & Limit(s) == Join(e2, e1)
  {
    if s == 0 {} else if s == 1 {} else if s == 2 {}
    else if s == 3 {} else if s == 4 {} else if s == 5 {} else if s == 6 {}
  }

  lemma MixBack(x: Byte, y: Byte)
    ensures y == Mix(x, Mix(x, y))
  {
  }

  /** Three bytes whose differences fit a shifted sixteen-bit pattern. */
  lemma BytesAreBurst(a: seq<Byte>, b: seq<Byte>, k: nat, s: nat) returns (w: Word)
    requires k + 3 <= |a| == |b| && s <= 8
    requires s <= 7 ==> Mix(a[k], b[k]) & LowMask(s) == Mix(a[k], b[k])
    requires Mix(a[k + 2], b[k + 2]) & LowMask(s) == 0
    ensures BurstAt(a, b, k, w, s)
  {
    hide Limit, LowMask, Mix, Join, BurstTop, BurstLow, HighByte, LowByte;
    var e1, e2, e3 := Mix(a[k], b[k]), Mix(a[k + 1], b[k + 1]), Mix(a[k + 2], b[k + 2]);
    if s <= 7 { TopLimit(e1, e2, s); }
    w := FindBurst(Join(e2, e1), e3, s);
    WordOfBytes(e2, e1);
    MixBack(a[k], b[k]);
    MixBack(a[k + 1], b[k + 1]);
    MixBack(a[k + 2], b[k + 2]);
  }

  // ----- Windows -----

  lemma BitAgrees(a: seq<Byte>, b: seq<Byte>, t: nat, m: nat, k: nat)
    requires |a| == |b| && m < |a| && k < 8 && AgreeOutside(a, b, t)
    requires !(t <= 8 * m + (7 - k) < t + 16)
    ensures B.BitOf(a[m], k) == B.BitOf(b[m], k)
  {
    hide B.BitOf;
    var n: nat := 8 * m + (7 - k);
    assert n / 8 == m && n % 8 == 7 - k;
    assert AgreeAt(a, b, n);
  }

  /** A byte outside the window is the same. */
  lemma ByteAgrees(a: seq<Byte>, b: seq<Byte>, t: nat, m: nat)
    requires |a| == |b| && m < |a| && AgreeOutside(a, b, t)
    requires 8 * m + 8 <= t || t + 16 <= 8 * m
    ensures a[m] == b[m]
  {
    hide B.BitOf, AgreeOutside;
    forall k | 0 <= k < 8 ensures B.BitOf(a[m], k) == B.BitOf(b[m], k) {
      BitAgrees(a, b, t, m, k);
    }
    B.ByteByBits(a[m], b[m]);
  }

  lemma SameBytes(a: seq<Byte>, b: seq<Byte>, t: nat, from: nat, to: nat)
    requires |a| == |b| && from <= to <= |a| && AgreeOutside(a, b, t)
    requires 8 * to <= t || t + 16 <= 8 * from
    ensures a[from..to] == b[from..to]
  {
    hide AgreeOutside;
    forall m | from <= m < to ensures a[m] == b[m] {
      ByteAgrees(a, b, t, m);
    }
  }

  /** The bits before the window in its first byte. */
  lemma BeforeWindow(a: seq<Byte>, b: seq<Byte>, t: nat, s: nat)
    requires |a| == |b| && t / 8 < |a| && AgreeOutside(a, b, t) && s == 8 - t % 8
    ensures Mix(a[t / 8], b[t / 8]) & LowMask(s) == Mix(a[t / 8], b[t / 8])
  {
    hide B.BitOf, AgreeOutside, Mix, LowMask;
    var m := t / 8;
    forall k | s <= k < 8 ensures !B.BitOf(Mix(a[m], b[m]), k) {
      BitAgrees(a, b, t, m, k);
      MixBit(a[m], b[m], k);
    }
    NoUpperBits(Mix(a[m], b[m]), s);
  }

  /** The bits behind it in its last byte. */
  lemma BehindWindow(a: seq<Byte>, b: seq<Byte>, t: nat, s: nat)
    requires |a| == |b| && t / 8 + 2 < |a| && AgreeOutside(a, b, t) && s == 8 - t % 8
    ensures Mix(a[t / 8 + 2], b[t / 8 + 2]) & LowMask(s) == 0
  {
    hide B.BitOf, AgreeOutside, Mix, LowMask;
    var m := t / 8 + 2;
    forall k | 0 <= k < s ensures !B.BitOf(Mix(a[m], b[m]), k) {
      BitAgrees(a, b, t, m, k);
      MixBit(a[m], b[m], k);
    }
    NoLowerBits(Mix(a[m], b[m]), s);
  }

  /** Two strings that differ only within sixteen consecutive bits from the third byte on differ by a shifted
      sixteen-bit pattern. */
  lemma WindowIsBurst(a: seq<Byte>, b: seq<Byte>, t: nat) returns (k: nat, w: Word, s: nat)
    requires |a| == |b| >= 5 && 16 <= t && t + 16 <= 8 * |a| && AgreeOutside(a, b, t)
    ensures 2 <= k && k + 3 <= |a| && s <= 8 && BurstAt(a, b, k, w, s)
    ensures a[..k] == b[..k] && a[k + 3..] == b[k + 3..]
  {
    hide AgreeOutside, Mix, LowMask, BurstAt;
    var i := t / 8;
    if i + 3 <= |a| {
      k, s := i, 8 - t % 8;
      BeforeWindow(a, b, t, s);
      BehindWindow(a, b, t, s);
    } else {
      k, s := i - 1, 0;
      ByteAgrees(a, b, t, k);
      NothingDiffers(a[k]);
      MaskZero(Mix(a[k + 2], b[k + 2]));
    }
    w := BytesAreBurst(a, b, k, s);
    SameBytes(a, b, t, 0, k);
    SameBytes(a, b, t, k + 3, |a|);
  }

  lemma NothingDiffers(x: Byte)
    ensures Mix(x, x) & LowMask(0) == Mix(x, x)
  {
  }

  lemma MaskZero(x: Byte)
    ensures x & LowMask(0) == 0
  {
  }

  lemma NoBurst(s: nat)
    requires s <= 8
    ensures BurstTop(0, s) == 0 && BurstLow(0, s) == 0
    decreases s
  {
    if s > 0 {
      NoBurst(s - 1);
    }
  }

  lemma NothingMixed(x: Byte)
    ensures Mix(x, HighByte(0)) == x && Mix(x, LowByte(0)) == x && Mix(x, 0) == x
  {
  }

  /** Every burst of at most sixteen bits in the covered bytes is rejected. */
  lemma WindowDetected(address: bv32, a: seq<Byte>, b: seq<Byte>, t: nat)
    requires |a| == |b| && a != b && Accepts(address, a)
    requires 16 <= t && t + 16 <= 8 * |a| && AgreeOutside(a, b, t)
    ensures !Accepts(address, b)
  {
    hide Accepts, AgreeOutside, Mix, BurstTop, BurstLow, HighByte, LowByte;
    AcceptedSize(address, a);
    var k, w, s := WindowIsBurst(a, b, t);
    if w == 0 {
      NoBurst(s);
      NothingMixed(a[k]);
      NothingMixed(a[k + 1]);
      NothingMixed(a[k + 2]);
      SameThree(a, b, k);
    }
    BurstDetected(address, a, b, k, w, s);
  }

  lemma SameThree(a: seq<Byte>, b: seq<Byte>, k: nat)
    requires k + 3 <= |a| == |b| && a[..k] == b[..k] && a[k + 3..] == b[k + 3..]
    requires a[k] == b[k] && a[k + 1] == b[k + 1] && a[k + 2] == b[k + 2]
    ensures a == b
  {
    assert a == a[..k] + [a[k], a[k + 1], a[k + 2]] + a[k + 3..];
    assert b == b[..k] + [b[k], b[k + 1], b[k + 2]] + b[k + 3..];
  }
}
