/** How strong the checksum is: it detects every burst of at most sixteen bits in the covered bytes, and
    every odd number of flipped bits anywhere in the frame, checksum bytes included. */
module CrcStrength {
  import opened Arithmetic
  import opened Crc

  // ----- Bursts -----

  /** Addition of an error pattern to a byte. */
  function Mix(b: Byte, error: Byte): Byte { b ^ error }

  function AbsorbThree(c: Word, b1: Byte, b2: Byte, b3: Byte): Word {
    Absorb(Absorb(Absorb(c, b1), b2), b3)
  }

  lemma HighLinear(b: Byte, e: Byte)
    ensures High(Mix(b, e)) == Plus(High(b), High(e))
  {
  }

  lemma PlusShuffle(a: Word, b: Word, x: Word, y: Word)
    ensures Plus(Plus(a, b), Plus(x, y)) == Plus(Plus(a, x), Plus(b, y))
  {
    hide Plus;
    Regroup(a, b, Plus(x, y));
    Regroup(b, x, y);
    PlusCommutes(b, x);
    Regroup(x, b, y);
    Regroup(a, x, Plus(b, y));
  }

  lemma PlusCommutes(a: Word, b: Word)
    ensures Plus(a, b) == Plus(b, a)
  {
  }

  lemma Regroup(a: Word, b: Word, c: Word)
    ensures Plus(Plus(a, b), c) == Plus(a, Plus(b, c))
  {
  }

  lemma AbsorbLinear(c: Word, d: Word, b: Byte, e: Byte)
    ensures Absorb(Plus(c, d), Mix(b, e)) == Plus(Absorb(c, b), Absorb(d, e))
  {
    hide Plus, High, Mix, Steps, Step;
    HighLinear(b, e);
    PlusShuffle(c, d, High(b), High(e));
    StepsLinear(Plus(c, High(b)), Plus(d, High(e)), 8);
  }

  lemma PlusNothing(c: Word)
    ensures Plus(c, 0) == c && Plus(0, c) == c
  {
  }

  lemma ThreeLinear(c: Word, b1: Byte, b2: Byte, b3: Byte, e1: Byte, e2: Byte, e3: Byte)
    ensures AbsorbThree(c, Mix(b1, e1), Mix(b2, e2), Mix(b3, e3)) ==
            Plus(AbsorbThree(c, b1, b2, b3), AbsorbThree(0, e1, e2, e3))
  {
    hide Plus, Absorb, Mix;
    PlusNothing(c);
    AbsorbLinear(c, 0, b1, e1);
    AbsorbLinear(Absorb(c, b1), Absorb(0, e1), b2, e2);
    AbsorbLinear(Absorb(Absorb(c, b1), b2), Absorb(Absorb(0, e1), e2), b3, e3);
  }

  /** The remainder of the 24-bit pattern whose upper sixteen bits are `top`. */
  function Remainder(top: Word, low: Byte): Word {
    Plus(Steps(top, 8), Low(low))
  }

  lemma WordOfHalves(c: Word)
    ensures Plus(High(HighByte(c)), Low(LowByte(c))) == c
  {
  }

  /** An error of three bytes leaves its remainder, moved on by sixteen steps. */
  lemma ThreeFromZero(top: Word, low: Byte)
    ensures AbsorbThree(0, HighByte(top), LowByte(top), low) == Steps(Remainder(top, low), 16)
  {
    hide Plus, Steps, Step, High, Low, HighByte, LowByte;
    PlusNothing(High(HighByte(top)));
    WordOfHalves(top);
    AbsorbTwo(0, HighByte(top), LowByte(top));
    LowIsHighLater(low);
    StepsAdd(top, 8, 8);
    StepsLinear(Steps(top, 8), Low(low), 8);
    StepsAdd(Remainder(top, low), 8, 8);
  }

  function CarryByte(low: Byte): Byte { low >> 7 }

  function DoubleLow(low: Byte): Byte { low << 1 }

  function DoubleTop(top: Word, low: Byte): Word { Plus(Up(top), Low(CarryByte(low))) }

  lemma LowDoubles(low: Byte)
    ensures Step(Low(low)) == Plus(High(CarryByte(low)), Low(DoubleLow(low)))
  {
  }

  /** Shifting a pattern by one bit is one step of its remainder. */
  lemma RemainderDoubles(top: Word, low: Byte)
    requires !Top(top)
    ensures Remainder(DoubleTop(top, low), DoubleLow(low)) == Step(Remainder(top, low))
  {
    var moved := Steps(top, 8);
    UpIsStep(top);
    DoubledTop(top, low);
    LowDoubles(low);
    Regroup(Step(moved), High(CarryByte(low)), Low(DoubleLow(low)));
    StepLinear(moved, Low(low));
  }

  lemma UpIsStep(c: Word)
    requires !Top(c)
    ensures Up(c) == Step(c)
  {
  }

  lemma DoubledTop(top: Word, low: Byte)
    requires !Top(top)
    ensures Steps(DoubleTop(top, low), 8) == Plus(Step(Steps(top, 8)), High(CarryByte(low)))
  {
    hide Plus, Step, High, Low, Top, Up, CarryByte;
    UpIsStep(top);
    StepsLinear(Up(top), Low(CarryByte(low)), 8);
    LowIsHighLater(CarryByte(low));
    StepFirst(top, 8);
  }

  lemma {:induction false} StepFirst(c: Word, n: nat)
    ensures Steps(Step(c), n) == Step(Steps(c, n))
  {
    hide Step;
    if n > 0 {
      StepFirst(c, n - 1);
    }
  }

  /** The upper sixteen and the lower eight bits of w << s. */
  function BurstTop(w: Word, s: nat): Word {
    if s == 0 then Low(HighByte(w)) else DoubleTop(BurstTop(w, s - 1), BurstLow(w, s - 1))
  }

  function BurstLow(w: Word, s: nat): Byte {
    if s == 0 then LowByte(w) else DoubleLow(BurstLow(w, s - 1))
  }

  function Limit(s: nat): Word {
    if s == 0 then 0x00FF else if s == 1 then 0x01FF else if s == 2 then 0x03FF else if s == 3 then 0x07FF
    else if s == 4 then 0x0FFF else if s == 5 then 0x1FFF else if s == 6 then 0x3FFF else 0x7FFF
  }

  lemma LimitDoubles(top: Word, low: Byte, s: nat)
    requires s < 7 && top & Limit(s) == top
    ensures DoubleTop(top, low) & Limit(s + 1) == DoubleTop(top, low)
  {
    if s == 0 {} else if s == 1 {} else if s == 2 {} else if s == 3 {} else if s == 4 {} else if s == 5 {}
  }

  lemma ByteLimit(b: Byte)
    ensures Low(b) & Limit(0) == Low(b)
  {
  }

  lemma {:induction false} BurstBounded(w: Word, s: nat)
    requires s <= 7
    ensures BurstTop(w, s) & Limit(s) == BurstTop(w, s)
  {
    hide Limit, DoubleTop, Low, LowByte, HighByte;
    if s == 0 {
      ByteLimit(HighByte(w));
    } else {
      BurstBounded(w, s - 1);
      LimitDoubles(BurstTop(w, s - 1), BurstLow(w, s - 1), s - 1);
    }
  }

  lemma LimitedHasNoTop(c: Word, s: nat)
    requires s <= 7 && c & Limit(s) == c
    ensures !Top(c)
  {
    if s == 0 {} else if s == 1 {} else if s == 2 {}
    else if s == 3 {} else if s == 4 {} else if s == 5 {} else if s == 6 {}
  }

  lemma {:induction false} BurstRemainder(w: Word, s: nat)
    requires s <= 8
    ensures Remainder(BurstTop(w, s), BurstLow(w, s)) == Steps(w, s)
  {
    hide Plus, Step, Limit, DoubleTop, DoubleLow, Low, High, LowByte, HighByte, Top;
    if s == 0 {
      LowIsHighLater(HighByte(w));
      WordOfHalves(w);
    } else {
      BurstRemainder(w, s - 1);
      BurstBounded(w, s - 1);
      LimitedHasNoTop(BurstTop(w, s - 1), s - 1);
      RemainderDoubles(BurstTop(w, s - 1), BurstLow(w, s - 1));
    }
  }

  /** The bytes of `a` and `b` at k, k + 1 and k + 2 differ by the pattern w << s. */
  predicate BurstAt(a: seq<Byte>, b: seq<Byte>, k: nat, w: Word, s: nat)
    requires k + 3 <= |a| == |b|
  {
    && b[k] == Mix(a[k], HighByte(BurstTop(w, s)))
    && b[k + 1] == Mix(a[k + 1], LowByte(BurstTop(w, s)))
    && b[k + 2] == Mix(a[k + 2], BurstLow(w, s))
  }

  /** The three bytes of a burst always move the register to another state. */
  lemma BurstMovesRegister(c: Word, b1: Byte, b2: Byte, b3: Byte, w: Word, s: nat)
    requires w != 0 && s <= 8
    ensures var top, low := BurstTop(w, s), BurstLow(w, s);
            AbsorbThree(c, Mix(b1, HighByte(top)), Mix(b2, LowByte(top)), Mix(b3, low)) != AbsorbThree(c, b1, b2, b3)
  {
    hide Plus, Steps, Step, AbsorbThree, Mix, BurstTop, BurstLow, HighByte, LowByte, Remainder;
    var top, low := BurstTop(w, s), BurstLow(w, s);
    ThreeLinear(c, b1, b2, b3, HighByte(top), LowByte(top), low);
    ThreeFromZero(top, low);
    BurstRemainder(w, s);
    StepsAdd(w, s, 16);
    var error := Steps(w, s + 16);
    if error == 0 {
      StepsKernel(w, s + 16);
    }
    AddingMoves(AbsorbThree(c, b1, b2, b3), error);
  }

  lemma AddingMoves(a: Word, e: Word)
    requires e != 0
    ensures Plus(a, e) != a
  {
  }

  lemma ThreeThenRest(a: seq<Byte>, k: nat)
    requires 2 <= k && k + 3 <= |a|
    ensures Fold(0, a[2..]) == Fold(AbsorbThree(Fold(0, a[2..k]), a[k], a[k + 1], a[k + 2]), a[k + 3..])
  {
    hide Absorb;
    PairThenRest(a, k);
    assert a[k + 2..][1..] == a[k + 3..];
  }

  /** Every burst of at most sixteen bits in the covered bytes is rejected. Bits are in transmission order
      of the CRC, the most significant bit of each byte first; w is the burst and k, s its place. */
  lemma BurstDetected(address: bv32, a: seq<Byte>, b: seq<Byte>, k: nat, w: Word, s: nat)
    requires |a| == |b| && 2 <= k && k + 3 <= |a| && w != 0 && s <= 8
    requires a[..k] == b[..k] && a[k + 3..] == b[k + 3..] && BurstAt(a, b, k, w, s)
    requires Accepts(address, a)
    ensures !Accepts(address, b)
  {
    hide Accepts, Fold, Absorb, AbsorbThree, BurstTop, BurstLow, Mix, HighByte, LowByte;
    if Accepts(address, b) {
      AcceptedSize(address, a);
      assert a[..2] == a[..k][..2] && b[..2] == b[..k][..2];
      SameRegister(address, a, b);
      var c := Fold(0, a[2..k]);
      assert a[2..k] == a[..k][2..] && b[2..k] == b[..k][2..];
      ThreeThenRest(a, k);
      ThreeThenRest(b, k);
      FoldInjective(AbsorbThree(c, a[k], a[k + 1], a[k + 2]), AbsorbThree(c, b[k], b[k + 1], b[k + 2]), a[k + 3..]);
      BurstMovesRegister(c, a[k], a[k + 1], a[k + 2], w, s);
    }
  }

  // ----- Parity -----

  /** Ones among the n most significant bits. */
  function Ones(c: Word, n: nat): nat
    decreases n
  {
    if n == 0 then 0 else Unit(Top(c)) + Ones(Up(c), n - 1)
  }

  predicate Odd(c: Word, n: nat) { Ones(c, n) % 2 == 1 }

  predicate OddWord(c: Word) { Odd(c, 16) }

  lemma OddNext(c: Word, n: nat)
    requires n > 0
    ensures Odd(c, n) == (Odd(Up(c), n - 1) != Top(c))
  {
    hide Top, Up;
  }

  lemma {:induction false} OddLinear(a: Word, b: Word, n: nat)
    ensures Odd(Plus(a, b), n) == (Odd(a, n) != Odd(b, n))
    decreases n
  {
    hide Top, Up, Plus;
    if n > 0 {
      TopLinear(a, b);
      UpLinear(a, b);
      OddLinear(Up(a), Up(b), n - 1);
      hide Odd, Ones;
      OddNext(a, n);
      OddNext(b, n);
      OddNext(Plus(a, b), n);
    }
  }

  function Ups(c: Word, n: nat): Word
    decreases n
  {
    if n == 0 then c else Ups(Up(c), n - 1)
  }

  lemma {:induction false} OddSplit(c: Word, n: nat)
    ensures Odd(c, n + 1) == (Odd(c, n) != Top(Ups(c, n)))
    decreases n
  {
    hide Top, Up;
    OddNext(c, n + 1);
    if n > 0 {
      OddSplit(Up(c), n - 1);
      OddNext(c, n);
    }
  }

  lemma SixteenUps(c: Word)
    ensures Ups(Up(c), 15) == 0
  {
    hide Up;
    AllUps(c);
    FourUps(Up(c), 11);
    FourUps(Ups4(Up(c)), 7);
    FourUps(Ups4(Ups4(Up(c))), 3);
    var d := Ups4(Ups4(Ups4(Up(c))));
    assert Ups(d, 3) == Ups(Up(d), 2);
    assert Ups(Up(d), 2) == Ups(Up(Up(d)), 1);
    assert Ups(Up(Up(d)), 1) == Up(Up(Up(d)));
  }

  function Ups4(c: Word): Word { Up(Up(Up(Up(c)))) }

  lemma FourUps(c: Word, n: nat)
    ensures Ups(c, n + 4) == Ups(Ups4(c), n)
  {
    hide Up;
    assert Ups(c, n + 4) == Ups(Up(c), n + 3);
    assert Ups(Up(c), n + 3) == Ups(Up(Up(c)), n + 2);
    assert Ups(Up(Up(c)), n + 2) == Ups(Up(Up(Up(c))), n + 1);
  }

  lemma AllUps(c: Word)
    ensures var d := Ups4(Ups4(Ups4(Up(c)))); Up(Up(Up(d))) == 0
  {
  }

  /** The generator has an even number of terms, so a step keeps the parity of the register. */
  lemma StepKeepsParity(c: Word)
    ensures OddWord(Step(c)) == OddWord(c)
  {
    hide Top, Up, Plus, Odd, Ones, Ups;
    OddNext(c, 16);
    OddSplit(Up(c), 15);
    SixteenUps(c);
    TopOfZero();
    OddLinear(Up(c), GENERATOR, 16);
    GeneratorOdd();
  }

  lemma TopOfZero()
    ensures !Top(0)
  {
  }

  lemma GeneratorOdd()
    ensures OddWord(GENERATOR)
  {
    hide Top, Up, GENERATOR;
    GeneratorBits();
    var g4 := Ups4(GENERATOR);
    var g8 := Ups4(g4);
    var g12 := Ups4(g8);
    FourOnes(GENERATOR, 12);
    FourOnes(g4, 8);
    FourOnes(g8, 4);
    FourOnes(g12, 0);
  }

  lemma FourOnes(c: Word, n: nat)
    ensures Ones(c, n + 4) ==
            Unit(Top(c)) + Unit(Top(Up(c))) + Unit(Top(Up(Up(c)))) + Unit(Top(Up(Up(Up(c))))) + Ones(Ups4(c), n)
  {
    hide Top, Up;
    assert Ones(c, n + 4) == Unit(Top(c)) + Ones(Up(c), n + 3);
    assert Ones(Up(c), n + 3) == Unit(Top(Up(c))) + Ones(Up(Up(c)), n + 2);
    assert Ones(Up(Up(c)), n + 2) == Unit(Top(Up(Up(c)))) + Ones(Up(Up(Up(c))), n + 1);
  }

  /** The generator's three low terms sit in three of its four nibbles. */
  lemma GeneratorBits()
    ensures var g := GENERATOR;
            && !Top(g) && !Top(Up(g)) && !Top(Up(Up(g))) && Top(Up(Up(Up(g))))
            && var g4 := Ups4(g);
            && !Top(g4) && !Top(Up(g4)) && !Top(Up(Up(g4))) && !Top(Up(Up(Up(g4))))
            && var g8 := Ups4(g4);
            && !Top(g8) && !Top(Up(g8)) && Top(Up(Up(g8))) && !Top(Up(Up(Up(g8))))
            && var g12 := Ups4(g8);
            && !Top(g12) && !Top(Up(g12)) && !Top(Up(Up(g12))) && Top(Up(Up(Up(g12))))
  {
  }

  lemma {:induction false} StepsKeepParity(c: Word, n: nat)
    ensures OddWord(Steps(c, n)) == OddWord(c)
  {
    hide Step, OddWord;
    if n > 0 {
      StepsKeepParity(c, n - 1);
      StepKeepsParity(Steps(c, n - 1));
    }
  }

  predicate OddByte(b: Byte) { OddWord(Low(b)) }

  lemma AbsorbParity(c: Word, b: Byte)
    ensures OddWord(Absorb(c, b)) == (OddWord(c) != OddByte(b))
  {
    hide Steps, Plus, High, Low, Odd;
    StepsKeepParity(Plus(c, High(b)), 8);
    OddLinear(c, High(b), 16);
    LowIsHighLater(b);
    StepsKeepParity(Low(b), 8);
  }

  /** Does a byte string hold an odd number of ones? */
  predicate OddBits(s: seq<Byte>) {
    s != [] && (OddByte(s[0]) != OddBits(s[1..]))
  }

  lemma {:induction false} FoldParity(c: Word, s: seq<Byte>)
    ensures OddWord(Fold(c, s)) == (OddWord(c) != OddBits(s))
    decreases |s|
  {
    hide Absorb, OddWord, OddByte;
    if s != [] {
      FoldParity(Absorb(c, s[0]), s[1..]);
      AbsorbParity(c, s[0]);
    }
  }

  lemma {:induction false} OddBitsConcat(s: seq<Byte>, t: seq<Byte>)
    ensures OddBits(s + t) == (OddBits(s) != OddBits(t))
    decreases |s|
  {
    hide OddByte;
    if s == [] {
      assert s + t == t;
    } else {
      assert (s + t)[1..] == s[1..] + t;
      OddBitsConcat(s[1..], t);
    }
  }

  lemma JoinIsPlus(low: Byte, high: Byte)
    ensures Join(low, high) == Plus(Low(low), High(high))
  {
  }

  lemma JoinParity(low: Byte, high: Byte)
    ensures OddWord(Join(low, high)) == (OddByte(low) != OddByte(high))
  {
    hide Join, Plus, Low, High, Odd, Steps;
    JoinIsPlus(low, high);
    OddLinear(Low(low), High(high), 16);
    LowIsHighLater(high);
    StepsKeepParity(Low(high), 8);
  }

  /** In every accepted frame the parity of all bits is the same, for one size and address. */
  lemma AcceptedParity(address: bv32, a: seq<Byte>)
    requires Accepts(address, a)
    ensures OddBits(a) == (OddWord(0) != (OddBits(AddressBytes(address)) != OddWord(SizeConstant(|a|))))
  {
    hide OddWord, OddByte, Join, Plus, Fold, AddressBytes, SizeConstant;
    var tail := AddressBytes(address);
    JoinParity(a[0], a[1]);
    FoldParity(0, a[2..] + tail);
    OddBitsConcat(a[2..], tail);
    PlusParity(Fold(0, a[2..] + tail), SizeConstant(|a|));
    assert a[1..][1..] == a[2..];
  }

  lemma PlusParity(a: Word, b: Word)
    ensures OddWord(Plus(a, b)) == (OddWord(a) != OddWord(b))
  {
    hide Plus, Odd;
    OddLinear(a, b, 16);
  }

  /** In how many bits two byte strings differ. */
  function DifferingBits(a: seq<Byte>, b: seq<Byte>): nat
    requires |a| == |b|
  {
    if a == [] then 0 else Ones(Low(Mix(a[0], b[0])), 16) + DifferingBits(a[1..], b[1..])
  }

  lemma LowLinear(a: Byte, b: Byte)
    ensures Low(Mix(a, b)) == Plus(Low(a), Low(b))
  {
  }

  lemma {:induction false} DifferenceParity(a: seq<Byte>, b: seq<Byte>)
    requires |a| == |b|
    ensures (DifferingBits(a, b) % 2 == 1) == (OddBits(a) != OddBits(b))
    decreases |a|
  {
    hide Low, Mix, Plus, Ones, OddWord;
    if a != [] {
      LowLinear(a[0], b[0]);
      PlusParity(Low(a[0]), Low(b[0]));
      OddIsOnes(Low(Mix(a[0], b[0])));
      ParityAdds(Ones(Low(Mix(a[0], b[0])), 16), DifferingBits(a[1..], b[1..]));
      DifferenceParity(a[1..], b[1..]);
    }
  }

  lemma OddIsOnes(c: Word)
    ensures OddWord(c) == (Ones(c, 16) % 2 == 1)
  {
    hide Ones;
  }

  lemma ParityAdds(m: nat, n: nat)
    ensures ((m + n) % 2 == 1) == ((m % 2 == 1) != (n % 2 == 1))
  {
  }

  /** Every odd number of flipped bits is rejected, wherever they are. */
  lemma OddErrorsDetected(address: bv32, a: seq<Byte>, b: seq<Byte>)
    requires |a| == |b| && Accepts(address, a) && DifferingBits(a, b) % 2 == 1
    ensures !Accepts(address, b)
  {
    hide Accepts, OddBits, DifferingBits;
    DifferenceParity(a, b);
    AcceptedSize(address, a);
    AcceptedParity(address, a);
    if Accepts(address, b) {
      AcceptedParity(address, b);
    }
  }
}
