/** The minimum distance of the checksum: two frames of one size and address that are both accepted differ in
    at least four bits, wherever the bits are. A single flipped bit leaves a power of x as its remainder, and
    the powers that a frame can produce are all different. */
module CrcDistance {
  import opened Arithmetic
  import opened Crc
  import opened CrcStrength

  // ----- The powers of x do not come back within a frame -----

  /** None of the next n steps reaches 1. */
  predicate Avoids(c: Word, n: nat)
    decreases n
  {
    n == 0 || (Step(c) != 1 && Avoids(Step(c), n - 1))
  }

  function Four(c: Word): Word { Step(Step(Step(Step(c)))) }

  predicate FourAvoid(c: Word) {
    Step(c) != 1 && Step(Step(c)) != 1 && Step(Step(Step(c))) != 1 && Four(c) != 1
  }

  /** Sixteen steps from c that avoid 1 and end in the next state. */
  predicate Block(c: Word, next: Word) {
    && FourAvoid(c) && FourAvoid(Four(c)) && FourAvoid(Four(Four(c))) && FourAvoid(Four(Four(Four(c))))
    && Four(Four(Four(Four(c)))) == next
  }

  lemma {:induction false} AvoidsAdd(c: Word, m: nat, n: nat)
    requires Avoids(c, m) && Avoids(Steps(c, m), n)
    ensures Avoids(c, m + n)
    decreases m
  {
    hide Step;
    if m > 0 {
      StepFirst(c, m - 1);
      AvoidsAdd(Step(c), m - 1, n);
    }
  }

  lemma FourSteps(c: Word)
    ensures Steps(c, 4) == Four(c)
    ensures FourAvoid(c) ==> Avoids(c, 4)
  {
    hide Step;
    assert Steps(c, 1) == Step(c);
    assert Steps(c, 2) == Step(Step(c));
    assert Avoids(Step(Step(c)), 2) <== FourAvoid(c);
  }

  lemma BlockAdds(c: Word, next: Word, n: nat)
    requires Block(c, next) && Avoids(next, n)
    ensures Avoids(c, 16 + n)
  {
    hide Step, Steps, Avoids, FourAvoid, Four;
    var c1 := Four(c);
    var c2 := Four(c1);
    var c3 := Four(c2);
    FourSteps(c3);
    AvoidsAdd(c3, 4, n);
    FourSteps(c2);
    AvoidsAdd(c2, 4, 4 + n);
    FourSteps(c1);
    AvoidsAdd(c1, 4, 8 + n);
    FourSteps(c);
    AvoidsAdd(c, 4, 12 + n);
  }

  // From d steps on the powers avoid 1 up to step 272, sixteen steps a lemma.

  lemma AvoidsNothing(c: Word)
    ensures Avoids(c, 0)
  {
  }

  lemma From256()
    ensures Avoids(0x8E29, 16)
  {
    hide Avoids;
    AvoidsNothing(0x8DDC);
    BlockAdds(0x8E29, 0x8DDC, 0);
  }

  lemma From240()
    ensures Avoids(0xF0E6, 32)
  {
    hide Avoids;
    From256();
    BlockAdds(0xF0E6, 0x8E29, 16);
  }

  lemma From224()
    ensures Avoids(0x1566, 48)
  {
    hide Avoids;
    From240();
    BlockAdds(0x1566, 0xF0E6, 32);
  }

  lemma From208()
    ensures Avoids(0x45B4, 64)
  {
    hide Avoids;
    From224();
    BlockAdds(0x45B4, 0x1566, 48);
  }

  lemma From192()
    ensures Avoids(0x650B, 80)
  {
    hide Avoids;
    From208();
    BlockAdds(0x650B, 0x45B4, 64);
  }

  lemma From176()
    ensures Avoids(0xD5F6, 96)
  {
    hide Avoids;
    From192();
    BlockAdds(0xD5F6, 0x650B, 80);
  }

  lemma From160()
    ensures Avoids(0xDE1F, 112)
  {
    hide Avoids;
    From176();
    BlockAdds(0xDE1F, 0xD5F6, 96);
  }

  lemma From144()
    ensures Avoids(0x10E2, 128)
  {
    hide Avoids;
    From160();
    BlockAdds(0x10E2, 0xDE1F, 112);
  }

  lemma From128()
    ensures Avoids(0xAEFC, 144)
  {
    hide Avoids;
    From144();
    BlockAdds(0xAEFC, 0x10E2, 128);
  }

  lemma From112()
    ensures Avoids(0x4563, 160)
  {
    hide Avoids;
    From128();
    BlockAdds(0x4563, 0xAEFC, 144);
  }

  lemma From96()
    ensures Avoids(0xD849, 176)
  {
    hide Avoids;
    From112();
    BlockAdds(0xD849, 0x4563, 160);
  }

  lemma From80()
    ensures Avoids(0xEB23, 192)
  {
    hide Avoids;
    From96();
    BlockAdds(0xEB23, 0xD849, 176);
  }

  lemma From64()
    ensures Avoids(0xB861, 208)
  {
    hide Avoids;
    From80();
    BlockAdds(0xB861, 0xEB23, 192);
  }

  lemma From48()
    ensures Avoids(0xAA51, 224)
  {
    hide Avoids;
    From64();
    BlockAdds(0xAA51, 0xB861, 208);
  }

  lemma From32()
    ensures Avoids(0x3730, 240)
  {
    hide Avoids;
    From48();
    BlockAdds(0x3730, 0xAA51, 224);
  }

  lemma From16()
    ensures Avoids(0x1021, 256)
  {
    hide Avoids;
    From32();
    BlockAdds(0x1021, 0x3730, 240);
  }

  lemma From0()
    ensures Avoids(1, 272)
  {
    hide Avoids;
    From16();
    BlockAdds(1, 0x1021, 256);
  }

  /** The largest distance between the powers of x that one frame can produce. */
  const REACH: nat := 272

  lemma {:induction false} AvoidsMeans(c: Word, n: nat, d: nat)
    requires Avoids(c, n) && 1 <= d <= n
    ensures Steps(c, d) != 1
    decreases n
  {
    hide Step;
    StepFirst(c, d - 1);
    if d > 1 {
      AvoidsMeans(Step(c), n - 1, d - 1);
    }
  }

  /** x to the d. */
  function Power(d: nat): Word { Steps(1, d) }

  /** Different powers of x within reach of each other are different. */
  lemma PowersDiffer(p: nat, q: nat)
    requires p < q <= p + REACH
    ensures Power(p) != Power(q)
  {
    hide Steps, Avoids;
    if Power(p) == Power(q) {
      StepsAdd(1, q - p, p);
      StepsInjective(1, Steps(1, q - p), p);
      From0();
      AvoidsMeans(1, REACH, q - p);
    }
  }

  // ----- A word with one or two ones -----

  lemma PowerNext(d: nat)
    ensures Power(d + 1) == Step(Power(d))
  {
    hide Step;
  }

  /** Undoing a shift that lost nothing. */
  lemma HalfOf(c: Word, d: Word)
    requires !Top(c) && Up(c) == Step(d)
    ensures c == d
  {
    hide Step, Top, Up;
    UpIsStep(c);
    assert Steps(c, 0) == c && Steps(c, 1) == Step(c) && Steps(d, 0) == d && Steps(d, 1) == Step(d);
    StepsInjective(c, d, 1);
  }

  lemma NothingUp(c: Word)
    requires !Top(c) && Up(c) == 0
    ensures c == 0
  {
  }

  lemma {:induction false} NoOnes(c: Word, n: nat)
    requires Ups(c, n) == 0 && Ones(c, n) == 0
    ensures c == 0
    decreases n
  {
    hide Top, Up;
    if n > 0 {
      NoOnes(Up(c), n - 1);
      NothingUp(c);
    }
  }

  lemma TopPower()
    ensures Power(15) == 0x8000
  {
    assert Power(4) == 0x10;
    assert Power(8) == 0x100 by { assert Power(6) == 0x40; }
    assert Power(12) == 0x1000 by { assert Power(10) == 0x400; }
    assert Power(14) == 0x4000;
  }

  /** Taking the top bit away. */
  lemma WithoutTop(c: Word)
    requires Top(c)
    ensures var d := Plus(c, 0x8000); !Top(d) && Up(d) == Up(c) && c == Plus(0x8000, d)
  {
    hide Top, Up, Plus;
    TopLinear(c, 0x8000);
    UpLinear(c, 0x8000);
    TopAlone();
    PlusNothing(Up(c));
    PlusTwice(0x8000, c);
  }

  lemma TopAlone()
    ensures Top(0x8000) && Up(0x8000) == 0
  {
  }

  lemma PlusTwice(x: Word, c: Word)
    ensures c == Plus(x, Plus(c, x))
  {
  }

  lemma {:induction false} OneOne(c: Word, n: nat) returns (k: nat)
    requires n <= 16 && Ups(c, n) == 0 && Ones(c, n) == 1
    ensures 16 - n <= k < 16 && c == Power(k)
    decreases n
  {
    hide Top, Up, Step, Power, Plus;
    if Top(c) {
      NoOnes(Up(c), n - 1);
      WithoutTop(c);
      NothingUp(Plus(c, 0x8000));
      PlusNothing(0x8000);
      TopPower();
      k := 15;
    } else {
      var j := OneOne(Up(c), n - 1);
      PowerNext(j - 1);
      HalfOf(c, Power(j - 1));
      k := j - 1;
    }
  }

  lemma {:induction false} TwoOnes(c: Word, n: nat) returns (k: nat, m: nat)
    requires n <= 16 && Ups(c, n) == 0 && Ones(c, n) == 2
    ensures 16 - n <= k < m < 16 && c == Plus(Power(m), Power(k))
    decreases n
  {
    hide Top, Up, Step, Power, Plus;
    if Top(c) {
      var j := OneOne(Up(c), n - 1);
      WithoutTop(c);
      PowerNext(j - 1);
      HalfOf(Plus(c, 0x8000), Power(j - 1));
      TopPower();
      k, m := j - 1, 15;
    } else {
      var i, j := TwoOnes(Up(c), n - 1);
      PowerNext(i - 1);
      PowerNext(j - 1);
      StepLinear(Power(j - 1), Power(i - 1));
      HalfOf(c, Plus(Power(j - 1), Power(i - 1)));
      k, m := i - 1, j - 1;
    }
  }

  // ----- A byte with one or two ones -----

  lemma LowTops(b: Byte)
    ensures var l := Low(b);
            && !Top(l) && !Top(Up(l)) && !Top(Up(Up(l))) && !Top(Up(Up(Up(l))))
            && var m := Ups4(l);
            && !Top(m) && !Top(Up(m)) && !Top(Up(Up(m))) && !Top(Up(Up(Up(m)))) && Ups4(m) == High(b)
  {
  }

  lemma HighGone(b: Byte)
    ensures Ups4(Ups4(High(b))) == 0
  {
  }

  /** The ones of a byte are the ones of the upper half of its high word. */
  lemma ByteOnes(b: Byte)
    ensures Ones(Low(b), 16) == Ones(High(b), 8) && Ups(High(b), 8) == 0
  {
    hide Top, Up, Low, High;
    LowTops(b);
    FourOnes(Low(b), 12);
    FourOnes(Ups4(Low(b)), 8);
    HighGone(b);
    FourUps(High(b), 4);
    FourUps(Ups4(High(b)), 0);
  }

  /** What a byte contributes: its low word, eight steps before its high one. */
  lemma LowFromHigh(b: Byte, c: Word)
    requires High(b) == Steps(c, 8)
    ensures Low(b) == c
  {
    hide Steps, Low, High;
    LowIsHighLater(b);
    StepsInjective(Low(b), c, 8);
  }

  lemma ByteWithOne(b: Byte) returns (k: nat)
    requires Ones(Low(b), 16) == 1
    ensures k < 8 && Low(b) == Power(k)
  {
    hide Low, High, Steps, Ones, Ups;
    ByteOnes(b);
    var j := OneOne(High(b), 8);
    k := j - 8;
    StepsAdd(1, k, 8);
    LowFromHigh(b, Power(k));
  }

  lemma ByteWithTwo(b: Byte) returns (k: nat, m: nat)
    requires Ones(Low(b), 16) == 2
    ensures k < m < 8 && Low(b) == Plus(Power(m), Power(k))
  {
    hide Low, High, Steps, Ones, Ups, Plus;
    ByteOnes(b);
    var i, j := TwoOnes(High(b), 8);
    k, m := i - 8, j - 8;
    StepsAdd(1, k, 8);
    StepsAdd(1, m, 8);
    StepsLinear(Power(m), Power(k), 8);
    LowFromHigh(b, Plus(Power(m), Power(k)));
  }

  lemma ByteWithNone(b: Byte)
    requires Ones(Low(b), 16) == 0
    ensures Low(b) == 0
  {
    hide Low, High, Ones, Ups, Steps;
    ByteOnes(b);
    NoOnes(High(b), 8);
    StepsZero(8);
    LowFromHigh(b, 0);
  }

  lemma {:induction false} StepsZero(n: nat)
    ensures Steps(0, n) == 0
  {
    if n > 0 {
      StepsZero(n - 1);
    }
  }

  // ----- An error string with one or two ones -----

  function Flips(e: seq<Byte>): nat {
    if e == [] then 0 else Ones(Low(e[0]), 16) + Flips(e[1..])
  }

  /** A register that starts at c is the register that starts at zero plus what c becomes. */
  lemma {:induction false} FoldAdds(c: Word, s: seq<Byte>)
    ensures Fold(c, s) == Plus(Steps(c, 8 * |s|), Fold(0, s))
    decreases |s|
  {
    hide Plus, Step, High, Absorb;
    if s == [] {
      PlusNothing(c);
    } else {
      var rest := 8 * (|s| - 1);
      FoldAdds(Absorb(c, s[0]), s[1..]);
      FoldAdds(Absorb(0, s[0]), s[1..]);
      AbsorbAdds(c, s[0]);
      StepsLinear(Steps(c, 8), Absorb(0, s[0]), rest);
      StepsAdd(c, 8, rest);
      Regroup(Steps(c, 8 * |s|), Steps(Absorb(0, s[0]), rest), Fold(0, s[1..]));
    }
  }

  lemma AbsorbAdds(c: Word, b: Byte)
    ensures Absorb(c, b) == Plus(Steps(c, 8), Absorb(0, b))
  {
    hide Plus, Steps, High;
    StepsLinear(c, High(b), 8);
    PlusNothing(High(b));
  }

  lemma AbsorbFromZero(b: Byte)
    ensures Absorb(0, b) == Steps(Low(b), 16)
  {
    hide Plus, Steps, High, Low;
    PlusNothing(High(b));
    LowIsHighLater(b);
    StepsAdd(Low(b), 8, 8);
  }

  /** The first byte of an error and the rest of it. */
  lemma FoldSplits(e: seq<Byte>)
    requires e != []
    ensures Fold(0, e) == Plus(Steps(Low(e[0]), 16 + 8 * (|e| - 1)), Fold(0, e[1..]))
  {
    hide Plus, Steps, Low, Absorb;
    FoldAdds(Absorb(0, e[0]), e[1..]);
    AbsorbFromZero(e[0]);
    StepsAdd(Low(e[0]), 16, 8 * (|e| - 1));
  }

  /** The place of bit k of the first byte. */
  lemma PlacedBit(k: nat, rest: nat)
    ensures Steps(Power(k), 16 + 8 * rest) == Power(16 + k + 8 * rest)
  {
    hide Steps;
    StepsAdd(1, k, 16 + 8 * rest);
  }

  lemma {:induction false} NoFlips(e: seq<Byte>)
    requires Flips(e) == 0
    ensures Fold(0, e) == 0
    decreases |e|
  {
    hide Plus, Steps, Low, Absorb, Ones;
    if e != [] {
      FoldSplits(e);
      ByteWithNone(e[0]);
      StepsZero(16 + 8 * (|e| - 1));
      NoFlips(e[1..]);
      PlusNothing(0);
    }
  }

  lemma {:induction false} OneFlip(e: seq<Byte>) returns (p: nat)
    requires Flips(e) == 1
    ensures p < 8 * |e| && Fold(0, e) == Power(16 + p)
    decreases |e|
  {
    hide Plus, Steps, Low, Fold, Ones, Power;
    FoldSplits(e);
    var rest := |e| - 1;
    if Ones(Low(e[0]), 16) == 0 {
      ByteWithNone(e[0]);
      StepsZero(16 + 8 * rest);
      p := OneFlip(e[1..]);
      PlusNothing(Fold(0, e[1..]));
    } else {
      var k := ByteWithOne(e[0]);
      NoFlips(e[1..]);
      p := k + 8 * rest;
      PlacedBit(k, rest);
      PlusNothing(Power(16 + p));
    }
  }

  lemma {:induction false} TwoFlips(e: seq<Byte>) returns (p: nat, q: nat)
    requires Flips(e) == 2
    ensures p < q < 8 * |e| && Fold(0, e) == Plus(Power(16 + q), Power(16 + p))
    decreases |e|
  {
    hide Plus, Steps, Low, Fold, Ones, Power;
    FoldSplits(e);
    var rest := |e| - 1;
    if Ones(Low(e[0]), 16) == 0 {
      ByteWithNone(e[0]);
      StepsZero(16 + 8 * rest);
      p, q := TwoFlips(e[1..]);
      PlusNothing(Fold(0, e[1..]));
    } else if Ones(Low(e[0]), 16) == 1 {
      var k := ByteWithOne(e[0]);
      p := OneFlip(e[1..]);
      q := k + 8 * rest;
      PlacedBit(k, rest);
    } else {
      var k, m := ByteWithTwo(e[0]);
      NoFlips(e[1..]);
      p, q := k + 8 * rest, m + 8 * rest;
      StepsLinear(Power(m), Power(k), 16 + 8 * rest);
      PlacedBit(k, rest);
      PlacedBit(m, rest);
      PlusNothing(Plus(Power(16 + q), Power(16 + p)));
    }
  }

  // ----- Two accepted frames -----

  /** The bits in which two byte strings differ. */
  function Difference(a: seq<Byte>, b: seq<Byte>): (e: seq<Byte>)
    requires |a| == |b|
    ensures |e| == |a|
  {
    if a == [] then [] else [Mix(a[0], b[0])] + Difference(a[1..], b[1..])
  }

  lemma {:induction false} DifferenceFlips(a: seq<Byte>, b: seq<Byte>)
    requires |a| == |b|
    ensures Flips(Difference(a, b)) == DifferingBits(a, b)
    decreases |a|
  {
    hide Mix, Low, Ones;
    if a != [] {
      assert Difference(a, b)[1..] == Difference(a[1..], b[1..]);
      DifferenceFlips(a[1..], b[1..]);
    }
  }

  lemma {:induction false} FoldDifference(c: Word, d: Word, a: seq<Byte>, b: seq<Byte>)
    requires |a| == |b|
    ensures Fold(Plus(c, d), Difference(a, b)) == Plus(Fold(c, a), Fold(d, b))
    decreases |a|
  {
    hide Mix, Plus, Absorb;
    if a != [] {
      assert Difference(a, b)[1..] == Difference(a[1..], b[1..]);
      AbsorbLinear(c, d, a[0], b[0]);
      FoldDifference(Absorb(c, a[0]), Absorb(d, b[0]), a[1..], b[1..]);
    }
  }

  lemma NoByte()
    ensures High(0) == 0 && Low(0) == 0
  {
  }

  lemma MixSame(b: Byte)
    ensures Mix(b, b) == 0
  {
  }

  /** The address bytes, equal on both sides, move a difference on by sixteen steps. */
  lemma SameTail(c: Word, d: Word, x: Byte, y: Byte)
    ensures Plus(Fold(c, [x, y]), Fold(d, [x, y])) == Steps(Plus(c, d), 16)
  {
    hide Mix, Plus, Absorb, Steps, High, Low;
    var t := [x, y];
    FoldDifference(c, d, t, t);
    MixSame(x);
    MixSame(y);
    assert t[1..] == [y] && [y][1..] == [];
    assert Difference([y], [y]) == [0];
    assert Difference(t, t) == [0, 0];
    FoldPair(Plus(c, d), 0, 0);
    AbsorbTwo(Plus(c, d), 0, 0);
    NoByte();
    PlusNothing(Plus(c, d));
  }

  lemma FoldPair(c: Word, x: Byte, y: Byte)
    ensures Fold(c, [x, y]) == Absorb(Absorb(c, x), y)
  {
    hide Absorb;
    assert [x, y][1..] == [y] && [y][1..] == [];
    assert Fold(Absorb(c, x), [y]) == Fold(Absorb(Absorb(c, x), y), []);
  }

  lemma JoinLinear(a0: Byte, a1: Byte, b0: Byte, b1: Byte)
    ensures Plus(Join(a0, a1), Join(b0, b1)) == Join(Mix(a0, b0), Mix(a1, b1))
  {
    hide Mix, Plus, Low, High, Join;
    JoinIsPlus(a0, a1);
    JoinIsPlus(b0, b1);
    JoinIsPlus(Mix(a0, b0), Mix(a1, b1));
    LowLinear(a0, b0);
    HighLinear(a1, b1);
    PlusShuffle(Low(a0), High(a1), Low(b0), High(b1));
  }

  /** The syndrome: when two frames are accepted, the difference of their checksum bytes is what the
      difference of the covered bytes becomes. */
  lemma AcceptedSyndrome(address: bv32, a: seq<Byte>, b: seq<Byte>)
    requires |a| == |b| && Accepts(address, a) && Accepts(address, b)
    ensures Supported(|a|)
    ensures var e := Difference(a, b); Join(e[0], e[1]) == Steps(Fold(0, e[2..]), 16)
  {
    hide Mix, Plus, Join, Steps, Low, High, SizeConstant, AddressLow, AddressHigh, Fold;
    AcceptedSize(address, a);
    var x, y := AddressLow(address), AddressHigh(address);
    var ra, rb := Fold(0, a[2..]), Fold(0, b[2..]);
    FoldConcat(0, a[2..], [x, y]);
    FoldConcat(0, b[2..], [x, y]);
    JoinLinear(a[0], a[1], b[0], b[1]);
    PlusShuffle(Fold(ra, [x, y]), SizeConstant(|a|), Fold(rb, [x, y]), SizeConstant(|a|));
    PlusZero(SizeConstant(|a|), SizeConstant(|a|));
    PlusNothing(Plus(Fold(ra, [x, y]), Fold(rb, [x, y])));
    SameTail(ra, rb, x, y);
    PlusNothing(0);
    FoldDifference(0, 0, a[2..], b[2..]);
    DifferenceParts(a, b);
  }

  lemma DifferenceParts(a: seq<Byte>, b: seq<Byte>)
    requires |a| == |b| >= 2
    ensures var e := Difference(a, b);
            e[0] == Mix(a[0], b[0]) && e[1] == Mix(a[1], b[1]) && e[2..] == Difference(a[2..], b[2..])
  {
    hide Mix;
    assert a[1..][1..] == a[2..] && b[1..][1..] == b[2..];
    assert Difference(a, b)[1..] == Difference(a[1..], b[1..]);
    assert Difference(a[1..], b[1..])[1..] == Difference(a[2..], b[2..]);
  }

  /** The two checksum bytes as an error string of their own. */
  lemma HeadFold(e0: Byte, e1: Byte)
    ensures Fold(0, [e1, e0]) == Steps(Join(e0, e1), 16)
    ensures Flips([e1, e0]) == Ones(Low(e0), 16) + Ones(Low(e1), 16)
  {
    hide Absorb, Steps, Plus, Low, High, Join, Ones;
    FoldPair(0, e1, e0);
    AbsorbTwo(0, e1, e0);
    PlusNothing(High(e1));
    JoinIsPlus(e0, e1);
    PlusCommutes(High(e1), Low(e0));
    assert [e1, e0][1..] == [e0] && [e0][1..] == [];
    assert Flips([e0]) == Ones(Low(e0), 16);
  }

  lemma FlipsParts(e: seq<Byte>)
    requires |e| >= 2
    ensures Flips(e) == Flips([e[1], e[0]]) + Flips(e[2..])
  {
    hide Ones, Low;
    assert e[1..][1..] == e[2..];
    assert [e[1], e[0]][1..] == [e[0]] && [e[0]][1..] == [];
    assert Flips([e[0]]) == Ones(Low(e[0]), 16);
  }

  /** No error of exactly two bits has an accepted syndrome. */
  lemma TwoBitsShow(e: seq<Byte>)
    requires 8 <= |e| <= 32 && Flips(e) == 2
    ensures Join(e[0], e[1]) != Steps(Fold(0, e[2..]), 16)
  {
    hide Steps, Join, Fold, Flips, Plus, Power, Ones;
    var word, rest := Join(e[0], e[1]), Fold(0, e[2..]);
    var head := [e[1], e[0]];
    HeadFold(e[0], e[1]);
    FlipsParts(e);
    if word == Steps(rest, 16) {
      if Flips(head) == 0 {
        var p, q := TwoFlips(e[2..]);
        PowersDiffer(16 + p, 16 + q);
        NoFlips(head);
        StepsKernel(word, 16);
        StepsKernel(rest, 16);
        PlusZero(Power(16 + q), Power(16 + p));
      } else if Flips(head) == 1 {
        var p := OneFlip(head);
        var q := OneFlip(e[2..]);
        MovedPower(16 + q);
        MovedPower(32 + q);
        PowersDiffer(16 + p, 48 + q);
      } else {
        var p, q := TwoFlips(head);
        NoFlips(e[2..]);
        StepsZero(16);
        PowersDiffer(16 + p, 16 + q);
        PlusZero(Power(16 + q), Power(16 + p));
      }
    }
  }

  lemma MovedPower(d: nat)
    ensures Steps(Power(d), 16) == Power(d + 16)
  {
    hide Steps;
    StepsAdd(1, d, 16);
  }

  /** Every error of one, two or three bits is rejected, wherever the bits are, checksum bytes included. */
  lemma FewErrorsDetected(address: bv32, a: seq<Byte>, b: seq<Byte>)
    requires |a| == |b| && Accepts(address, a) && 1 <= DifferingBits(a, b) <= 3
    ensures !Accepts(address, b)
  {
    hide Accepts, DifferingBits, Fold, Steps, Join, Flips, Difference;
    if DifferingBits(a, b) == 2 {
      AcceptedSize(address, a);
      DifferenceFlips(a, b);
      if Accepts(address, b) {
        AcceptedSyndrome(address, a, b);
        TwoBitsShow(Difference(a, b));
      }
    } else {
      OddErrorsDetected(address, a, b);
    }
  }
}
