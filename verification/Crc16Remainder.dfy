/** What the check is: the remainder of the message, sixteen zeros behind it and the initial register added to
    its front, on division by the generator polynomial over the two-element field. */
module Crc16Remainder {
  import opened MachineInts
  import opened Crc16

  /** x^16 + x^12 + x^5 + 1, bit n the coefficient of x^n. */
  const GENERATOR: nat := 0x1_1021

  /** The generator times q, without carries. */
  function Multiple(q: nat): nat {
    if q == 0 then 0 else Xor(2 * Multiple(q / 2), if q % 2 == 1 then GENERATOR else 0)
  }

  /** The two differ by a multiple of the generator. */
  ghost predicate SameRemainder(a: nat, b: nat) {
    exists q: nat :: Xor(a, b) == Multiple(q)
  }

  // ----- multiples of the generator -------------------------------------------------------------

  lemma {:induction false} XorPairs(a: nat, b: nat, c: nat, d: nat)
    ensures Xor(Xor(a, b), Xor(c, d)) == Xor(Xor(a, c), Xor(b, d))
  {
    hide Xor;
    XorAssoc(a, b, Xor(c, d));
    XorAssoc(b, c, d);
    XorComm(b, c);
    XorAssoc(c, b, d);
    XorAssoc(a, c, Xor(b, d));
  }

  lemma {:induction false} MultipleUnfolds(q: nat)
    ensures Multiple(q) == Xor(2 * Multiple(q / 2), if q % 2 == 1 then GENERATOR else 0)
  {
    if q == 0 { XorZero(0); }
  }

  lemma {:induction false} GeneratorPair(p: nat, q: nat, x: nat)
    requires x == Xor(p, q)
    ensures x / 2 == Xor(p / 2, q / 2)
    ensures Xor(if p % 2 == 1 then GENERATOR else 0, if q % 2 == 1 then GENERATOR else 0) == if x % 2 == 1 then GENERATOR else 0
  {
    XorUnfolds(p, q);
    hide Xor;
    XorSelf(GENERATOR);
    XorZero(GENERATOR);
    XorZero(0);
  }

  /** Multiples add up to multiples. */
  lemma {:induction false} MultiplesAdd(p: nat, q: nat)
    ensures Xor(Multiple(p), Multiple(q)) == Multiple(Xor(p, q))
    decreases p + q
  {
    if p == 0 {
      XorZero(Multiple(q));
      XorZero(q);
    } else if q == 0 {
      XorZero(Multiple(p));
      XorZero(p);
    } else {
      hide Xor, Multiple;
      var x := Xor(p, q);
      MultiplesAdd(p / 2, q / 2);
      GeneratorPair(p, q, x);
      MultipleUnfolds(p);
      MultipleUnfolds(q);
      MultipleUnfolds(x);
      XorPairs(2 * Multiple(p / 2), if p % 2 == 1 then GENERATOR else 0, 2 * Multiple(q / 2), if q % 2 == 1 then GENERATOR else 0);
      XorDouble(Multiple(p / 2), Multiple(q / 2));
    }
  }

  lemma {:induction false} MultipleDoubles(q: nat)
    ensures Multiple(2 * q) == 2 * Multiple(q)
  {
    MultipleUnfolds(2 * q);
    hide Xor, Multiple;
    XorZero(2 * Multiple(q));
  }

  lemma {:induction false} TopStays(a: nat, b: nat, n: nat)
    requires a >= Doubled(1, n) > b
    ensures Xor(a, b) >= Doubled(1, n)
  {
    if n == 0 { XorZero(a); } else {
      XorUnfolds(a, b);
      hide Xor;
      TopStays(a / 2, b / 2, n - 1);
    }
  }

  /** Every multiple but zero has a term of degree sixteen or more. */
  lemma {:induction false} MultipleIsLarge(q: nat)
    requires q > 0
    ensures Multiple(q) >= 0x1_0000
  {
    MultipleUnfolds(q);
    hide Xor, Multiple;
    if q == 1 {
      NoMultiple();
      XorZero(GENERATOR);
    } else {
      MultipleIsLarge(q / 2);
      DoubledSixteen();
      assert Doubled(1, 17) == 0x2_0000;
      TopStays(2 * Multiple(q / 2), if q % 2 == 1 then GENERATOR else 0, 17);
    }
  }

  lemma NoMultiple()
    ensures Multiple(0) == 0
  {}

  // ----- equal remainders --------------------------------------------------------------------------

  lemma {:induction false} SameItself(a: nat)
    ensures SameRemainder(a, a)
  {
    hide Xor, Multiple;
    NoMultiple();
    XorSelf(a);
    assert Xor(a, a) == Multiple(0);
  }

  lemma {:induction false} SameThen(a: nat, b: nat, c: nat)
    requires SameRemainder(a, b) && SameRemainder(b, c)
    ensures SameRemainder(a, c)
  {
    hide Xor, Multiple;
    var p: nat :| Xor(a, b) == Multiple(p);
    var q: nat :| Xor(b, c) == Multiple(q);
    MultiplesAdd(p, q);
    XorAssoc(a, b, Xor(b, c));
    XorAssoc(b, b, c);
    XorSelf(b);
    XorZero(c);
    assert Xor(a, c) == Multiple(Xor(p, q));
  }

  lemma {:induction false} SameTurned(a: nat, b: nat)
    requires SameRemainder(a, b)
    ensures SameRemainder(b, a)
  {
    hide Xor, Multiple;
    XorComm(a, b);
  }

  lemma {:induction false} SameDoubled(a: nat, b: nat)
    requires SameRemainder(a, b)
    ensures SameRemainder(2 * a, 2 * b)
  {
    hide Xor, Multiple;
    var q: nat :| Xor(a, b) == Multiple(q);
    XorDouble(a, b);
    MultipleDoubles(q);
    assert Xor(2 * a, 2 * b) == Multiple(2 * q);
  }

  lemma {:induction false} SameShifted(a: nat, b: nat, n: nat)
    requires SameRemainder(a, b)
    ensures SameRemainder(Doubled(a, n), Doubled(b, n))
  {
    hide SameRemainder;
    if n > 0 {
      SameShifted(a, b, n - 1);
      SameDoubled(Doubled(a, n - 1), Doubled(b, n - 1));
    }
  }

  lemma {:induction false} SamePlus(a: nat, b: nat, c: nat)
    requires SameRemainder(a, b)
    ensures SameRemainder(Xor(a, c), Xor(b, c))
  {
    hide Xor, Multiple;
    XorPairs(a, c, b, c);
    XorSelf(c);
    XorZero(Xor(a, b));
  }

  // ----- the register --------------------------------------------------------------------------------

  lemma {:induction false} StepKeepsRemainder(c: u16)
    ensures SameRemainder(2 * c, Step(c))
  {
    StepAsPolynomial(c);
    hide Step, Xor, Multiple;
    if c >= 0x8000 {
      OneGenerator();
      XorAssoc(2 * c, 2 * c, GENERATOR);
      XorSelf(2 * c);
      XorZero(GENERATOR);
      assert Xor(2 * c, Xor(2 * c, GENERATOR)) == Multiple(1);
    } else {
      SameItself(2 * c);
    }
  }

  lemma OneGenerator()
    ensures Multiple(1) == GENERATOR
  {
    MultipleUnfolds(1);
    hide Xor, Multiple;
    NoMultiple();
    XorZero(GENERATOR);
  }

  lemma {:induction false} StepsKeepRemainder(c: u16, n: nat)
    ensures SameRemainder(Doubled(c, n), Steps(c, n))
  {
    hide SameRemainder, Step;
    if n == 0 {
      SameItself(c);
    } else {
      StepsKeepRemainder(c, n - 1);
      SameDoubled(Doubled(c, n - 1), Steps(c, n - 1));
      StepKeepsRemainder(Steps(c, n - 1));
      SameThen(Doubled(c, n), 2 * Steps(c, n - 1), Steps(c, n));
    }
  }

  // ----- the message -----------------------------------------------------------------------------------

  /** The message as one number, its first byte the most significant. */
  function Number(bytes: seq<u8>): nat {
    if |bytes| == 0 then 0 else 256 * Number(bytes[..|bytes| - 1]) + bytes[|bytes| - 1]
  }

  /** The message with sixteen zeros behind it and this register added to its first sixteen bits. */
  function Augmented(c: u16, bytes: seq<u8>): nat {
    Xor(Doubled(c, 8 * |bytes|), 0x1_0000 * Number(bytes))
  }

  lemma {:induction false} ShiftedSum(a: nat, b: nat, n: nat)
    ensures Doubled(Xor(a, b), n) == Xor(Doubled(a, n), Doubled(b, n))
  {
    hide Xor;
    if n > 0 {
      ShiftedSum(a, b, n - 1);
      XorDouble(Doubled(a, n - 1), Doubled(b, n - 1));
    }
  }

  /** One more byte moves the number up by eight places and adds the byte above the zeros. */
  lemma {:induction false} AugmentedNext(c: u16, bytes: seq<u8>, byte: u8)
    ensures Augmented(c, bytes + [byte]) == Xor(Doubled(Augmented(c, bytes), 8), 0x1_0000 * byte)
  {
    var n, number := |bytes|, Number(bytes);
    assert (bytes + [byte])[..n] == bytes;
    assert Number(bytes + [byte]) == 256 * number + byte;
    DoubledTwice(c, 8 * n, 8);
    var front, behind, b: int := Doubled(c, 8 * n), 0x1_0000 * number, byte;
    ShiftedSum(front, behind, 8);
    DoubledEight(behind);
    NumbersApart(number, byte);
    hide Xor, Doubled;
    XorAssoc(Doubled(front, 8), 256 * behind, 0x1_0000 * b);
  }

  lemma {:induction false} NumbersApart(number: nat, byte: u8)
    ensures Xor(256 * (0x1_0000 * number), 0x1_0000 * byte) == 0x1_0000 * (256 * number + byte)
  {
    DoubledEight(number);
    DoubledEight(1);
    ShiftedXor(number, byte, 8);
    var a: nat, b: nat := 256 * number, byte;
    assert Xor(a, b) == a + b;
    hide Xor;
    ShiftedSum(a, b, 16);
    SixteenPlaces(a);
    SixteenPlaces(b);
    SixteenPlaces(a + b);
  }

  lemma SixteenPlaces(a: nat)
    ensures Doubled(a, 16) == 0x1_0000 * a
  {
    DoubledEight(a);
    DoubledEight(256 * a);
    DoubledTwice(a, 8, 8);
  }

  lemma {:induction false} FoldKeepsRemainder(c: u16, bytes: seq<u8>)
    ensures SameRemainder(Augmented(c, bytes), Fold(c, bytes))
  {
    hide SameRemainder, Xor, Doubled, Absorb, Number;
    if |bytes| == 0 {
      NoMessage(c);
      SameItself(c);
    } else {
      var n := |bytes| - 1;
      var head := bytes[..n];
      var byte: int := bytes[n];
      assert head + [byte] == bytes;
      var a, r := Augmented(c, head), Fold(c, head);
      FoldKeepsRemainder(c, head);
      AugmentedNext(c, head, byte);
      SameShifted(a, r, 8);
      SamePlus(Doubled(a, 8), Doubled(r, 8), 0x1_0000 * byte);
      AbsorbsAbove(r, byte);
      SameThen(Augmented(c, bytes), Xor(Doubled(r, 8), 0x1_0000 * byte), Fold(c, bytes));
    }
  }

  lemma {:induction false} NoMessage(c: u16)
    ensures Augmented(c, []) == c
  {
    XorZero(c);
    assert Doubled(c, 0) == c && Number([]) == 0;
  }

  /** A byte is taken in above the sixteen bits of the register. */
  lemma {:induction false} AbsorbsAbove(r: u16, byte: u8)
    ensures SameRemainder(Xor(Doubled(r, 8), 0x1_0000 * byte), Absorb(r, byte))
  {
    var b: nat := byte;
    var mixed := Xor16(r, 256 * b);
    StepsKeepRemainder(mixed, 8);
    ShiftedSum(r, 256 * b, 8);
    DoubledEight(256 * b);
    hide SameRemainder, Xor, Doubled, Steps;
  }

  /** The check is the one number below 2^16 that leaves the same remainder as the augmented message. */
  lemma {:induction false} CrcIsRemainder(bytes: seq<u8>, r: u16)
    ensures r == Crc(bytes) <==> SameRemainder(Augmented(0xFFFF, bytes), r)
  {
    FoldKeepsRemainder(INITIAL, bytes);
    var a, crc := Augmented(0xFFFF, bytes), Crc(bytes);
    if SameRemainder(a, r) {
      hide Augmented, Crc, Xor, Multiple;
      SameTurned(a, crc);
      SameThen(crc, a, r);
      var q: nat :| Xor(crc, r) == Multiple(q);
      DoubledSixteen();
      XorBound(crc, r, 16);
      if q > 0 { MultipleIsLarge(q); }
      NoMultiple();
      XorSelf(r);
      XorCancel(crc, r, r);
    }
  }
}
