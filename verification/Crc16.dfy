/** CRC-16/CCITT-FALSE: the register update is injective in the register and in
    the byte, linear, and keeps parity; what that makes the check reject. */
module Crc16 {
  import opened MachineInts

  const INITIAL: u16 := 0xFFFF
  const POLYNOMIAL: u16 := 0x1021

  function Xor16(a: u16, b: u16): (r: u16) {
    DoubledSixteen();
    XorBound(a, b, 16);
    Xor(a, b)
  }

  /** One left shift of the register, the polynomial added when a one falls out. */
  function Step(c: u16): u16 {
    if c >= 0x8000 then Xor16(2 * c - 0x1_0000, POLYNOMIAL) else 2 * c
  }

  function Steps(c: u16, n: nat): u16 {
    if n == 0 then c else Step(Steps(c, n - 1))
  }

  function Absorb(c: u16, byte: u8): u16 {
    Steps(Xor16(c, 256 * byte), 8)
  }

  function Fold(c: u16, bytes: seq<u8>): u16 {
    if |bytes| == 0 then c else Absorb(Fold(c, bytes[..|bytes| - 1]), bytes[|bytes| - 1])
  }

  function Crc(bytes: seq<u8>): u16 {
    Fold(INITIAL, bytes)
  }

  method Crc16CcittFalse(bytes: seq<u8>) returns (crc: u16)
    ensures crc == Crc(bytes)
  {
    crc := INITIAL;
    for i := 0 to |bytes|
      invariant crc == Fold(INITIAL, bytes[..i])
    {
      assert bytes[..i + 1][..i] == bytes[..i];
      var byte: int := bytes[i];
      crc := Xor16(crc, 256 * byte);
      ghost var mixed := crc;
      for bit := 0 to 8
        invariant crc == Steps(mixed, bit)
      {
        crc := if crc >= 0x8000 then Xor16(2 * crc - 0x1_0000, POLYNOMIAL) else 2 * crc;
      }
    }
    assert bytes[..|bytes|] == bytes;
  }

  // ----- one step ------------------------------------------------------------------

  /** Truncating before adding the polynomial is adding its seventeenth bit too. */
  lemma StepAsPolynomial(c: u16)
    ensures Step(c) == if c >= 0x8000 then Xor(2 * c, 0x1_1021) else 2 * c
  {
    DoubledSixteen();
    if c >= 0x8000 { XorTop(2 * c - 0x1_0000, POLYNOMIAL, 16); }
  }

  lemma StepInjective(a: u16, b: u16)
    requires Step(a) == Step(b)
    ensures a == b
  {
    StepAsPolynomial(a);
    StepAsPolynomial(b);
    if a >= 0x8000 && b >= 0x8000 { XorCancel(2 * a, 2 * b, 0x1_1021); }
  }

  lemma StepLinear(a: u16, b: u16)
    ensures Step(Xor16(a, b)) == Xor16(Step(a), Step(b))
  {
    hide Step, Xor;
    DoubledSixteen();
    StepAsPolynomial(a);
    StepAsPolynomial(b);
    StepAsPolynomial(Xor16(a, b));
    XorDouble(a, b);
    var p := 0x1_1021;
    if a < 0x8000 && b < 0x8000 {
      XorBound(a, b, 15);
    } else if a >= 0x8000 && b >= 0x8000 {
      XorTop(a - 0x8000, b - 0x8000, 15);
      XorBound(a - 0x8000, b - 0x8000, 15);
      XorComm(2 * b, p);
      XorAssoc(2 * a, p, Xor(p, 2 * b));
      XorAssoc(p, p, 2 * b);
      XorSelf(p);
      XorZero(2 * b);
    } else if a >= 0x8000 {
      XorTop(a - 0x8000, b, 15);
      XorAssoc(2 * a, p, 2 * b);
      XorComm(p, 2 * b);
      XorAssoc(2 * a, 2 * b, p);
    } else {
      XorTop(b - 0x8000, a, 15);
      XorComm(a, b);
      XorAssoc(2 * a, 2 * b, p);
    }
  }

  lemma OnesOfPolynomial()
    ensures Ones(0x1_1021) == 4
  {
    OnesUnfolds(1);
    assert Ones(0) == 0;
    hide Ones;
    OnesUnfolds(0x11);
    OnesUnfolds(0x8);
    OnesUnfolds(0x4);
    OnesUnfolds(0x2);
    OnesUnfolds(0x22);
    OnesUnfolds(0x44);
    OnesUnfolds(0x88);
    OnesUnfolds(0x110);
    OnesUnfolds(0x220);
    OnesUnfolds(0x440);
    OnesUnfolds(0x881);
    OnesUnfolds(0x1102);
    OnesUnfolds(0x2204);
    OnesUnfolds(0x4408);
    OnesUnfolds(0x8810);
    OnesUnfolds(0x1_1021);
  }

  lemma StepKeepsParity(c: u16)
    ensures Ones(Step(c)) % 2 == Ones(c) % 2
  {
    StepAsPolynomial(c);
    assert Ones(2 * c) == Ones(c);
    OnesXor(2 * c, 0x1_1021);
    OnesOfPolynomial();
  }

  // ----- eight steps and a byte ----------------------------------------------------------

  lemma {:induction false} StepsInjective(a: u16, b: u16, n: nat)
    requires Steps(a, n) == Steps(b, n)
    ensures a == b
  {
    hide Step;
    if n > 0 {
      StepInjective(Steps(a, n - 1), Steps(b, n - 1));
      StepsInjective(a, b, n - 1);
    }
  }

  lemma {:induction false} StepsLinear(a: u16, b: u16, n: nat)
    ensures Steps(Xor16(a, b), n) == Xor16(Steps(a, n), Steps(b, n))
  {
    hide Step, Xor16;
    if n > 0 {
      StepsLinear(a, b, n - 1);
      StepLinear(Steps(a, n - 1), Steps(b, n - 1));
    }
  }

  lemma {:induction false} StepsKeepParity(c: u16, n: nat)
    ensures Ones(Steps(c, n)) % 2 == Ones(c) % 2
  {
    hide Step, Ones;
    if n > 0 {
      StepsKeepParity(c, n - 1);
      StepKeepsParity(Steps(c, n - 1));
    }
  }

  /** A small register shifts out of its low byte without feedback. */
  lemma {:induction false} SmallSteps(b: u8, n: nat)
    requires n <= 8
    ensures Steps(b, n) == Doubled(b, n) < Doubled(256, n) <= 0x1_0000
  {
    DoubledEight(256);
    if n > 0 {
      SmallSteps(b, n - 1);
      Halved(n);
    }
  }

  lemma {:induction false} Halved(n: nat)
    requires 0 < n <= 8
    ensures Doubled(256, n - 1) <= 0x8000
    decreases 8 - n
  {
    DoubledEight(256);
    if n < 8 { Halved(n + 1); }
  }

  /** Injective in the register. */
  lemma AbsorbInjective(a: u16, b: u16, byte: u8)
    requires Absorb(a, byte) == Absorb(b, byte)
    ensures a == b
  {
    hide Steps;
    StepsInjective(Xor16(a, 256 * byte), Xor16(b, 256 * byte), 8);
    XorCancel(a, b, 256 * byte);
  }

  /** Injective in two bytes at once: two adjacent bytes fill the register exactly. */
  lemma PairInjective(c: u16, x: u8, y: u8, x': u8, y': u8)
    requires Absorb(Absorb(c, x), y) == Absorb(Absorb(c, x'), y')
    ensures x == x' && y == y'
  {
    hide Steps, Xor;
    PairAsWord(c, x, y);
    PairAsWord(c, x', y');
    StepsInjective(Xor16(c, 256 * x + y), Xor16(c, 256 * x' + y'), 16);
    XorComm(c, 256 * x + y);
    XorComm(c, 256 * x' + y');
    XorCancel(256 * x + y, 256 * x' + y', c);
  }

  lemma {:induction false} StepsAdd(c: u16, m: nat, n: nat)
    ensures Steps(Steps(c, m), n) == Steps(c, m + n)
  {
    if n > 0 { StepsAdd(c, m, n - 1); }
  }

  lemma LowByteJoins(x: u8, y: u8)
    ensures Xor(256 * x, y) == 256 * x + y
  {
    ShiftedXor(x, y, 8);
    DoubledEight(x);
    DoubledEight(1);
  }

  lemma {:induction false} ShiftedXor(x: nat, y: nat, n: nat)
    requires y < Doubled(1, n)
    ensures Xor(Doubled(x, n), y) == Doubled(x, n) + y
  {
    if n == 0 { XorZero(x); } else { ShiftedXor(x, y / 2, n - 1); }
  }

  /** Absorbing two bytes is absorbing them as one sixteen-bit word. */
  lemma PairAsWord(c: u16, x: u8, y: u8)
    ensures Absorb(Absorb(c, x), y) == Steps(Xor16(c, 256 * x + y), 16)
  {
    hide Steps, Xor;
    var first := Xor16(c, 256 * x);
    SmallSteps(y, 8);
    DoubledEight(y);
    StepsLinear(first, y, 8);
    StepsAdd(Xor16(first, y), 8, 8);
    XorAssoc(c, 256 * x, y);
    LowByteJoins(x, y);
  }

  lemma AbsorbParity(c: u16, byte: u8)
    ensures Ones(Absorb(c, byte)) % 2 == (Ones(c) + Ones(byte)) % 2
  {
    hide Steps, Xor, Ones;
    StepsKeepParity(Xor16(c, 256 * byte), 8);
    OnesXor(c, 256 * byte);
    OnesDoubled(byte, 8);
    DoubledEight(byte);
  }

  lemma {:induction false} OnesDoubled(b: nat, n: nat)
    ensures Ones(Doubled(b, n)) == Ones(b)
  {
    if n > 0 {
      OnesDoubled(b, n - 1);
      OnesUnfolds(Doubled(b, n));
      hide Ones;
    }
  }

  // ----- messages of any length -------------------------------------------------------------

  function OnesIn(bytes: seq<u8>): nat {
    if |bytes| == 0 then 0 else OnesIn(bytes[..|bytes| - 1]) + Ones(bytes[|bytes| - 1])
  }

  /** The bits in which two messages of one length differ. */
  function FlippedBits(a: seq<u8>, b: seq<u8>): nat
    requires |a| == |b|
  {
    if |a| == 0 then 0
    else FlippedBits(a[..|a| - 1], b[..|b| - 1]) + Ones(Xor(a[|a| - 1], b[|b| - 1]))
  }

  lemma {:induction false} FlippedParity(a: seq<u8>, b: seq<u8>)
    requires |a| == |b|
    ensures FlippedBits(a, b) % 2 == (OnesIn(a) + OnesIn(b)) % 2
  {
    hide Ones, Xor;
    if |a| > 0 {
      FlippedParity(a[..|a| - 1], b[..|b| - 1]);
      OnesXor(a[|a| - 1], b[|b| - 1]);
    }
  }

  lemma {:induction false} FoldParity(c: u16, bytes: seq<u8>)
    ensures Ones(Fold(c, bytes)) % 2 == (Ones(c) + OnesIn(bytes)) % 2
  {
    hide Ones, Absorb;
    if |bytes| > 0 {
      FoldParity(c, bytes[..|bytes| - 1]);
      AbsorbParity(Fold(c, bytes[..|bytes| - 1]), bytes[|bytes| - 1]);
    }
  }

  lemma {:induction false} FoldConcat(c: u16, a: seq<u8>, b: seq<u8>)
    ensures Fold(c, a + b) == Fold(Fold(c, a), b)
  {
    hide Absorb;
    if |b| == 0 {
      assert a + b == a;
    } else {
      assert (a + b)[..|a + b| - 1] == a + b[..|b| - 1];
      FoldConcat(c, a, b[..|b| - 1]);
    }
  }

  lemma {:induction false} FoldInjective(c: u16, d: u16, bytes: seq<u8>)
    requires Fold(c, bytes) == Fold(d, bytes)
    ensures c == d
  {
    hide Absorb;
    if |bytes| > 0 {
      var n := |bytes| - 1;
      AbsorbInjective(Fold(c, bytes[..n]), Fold(d, bytes[..n]), bytes[n]);
      FoldInjective(c, d, bytes[..n]);
    }
  }

  /** Two messages that differ only inside two adjacent bytes have different checks. */
  lemma AdjacentBytesDetected(before: seq<u8>, x: u8, y: u8, x': u8, y': u8, after: seq<u8>)
    requires Crc(before + [x, y] + after) == Crc(before + [x', y'] + after)
    ensures x == x' && y == y'
  {
    hide Absorb;
    PairFold(before, x, y, after);
    PairFold(before, x', y', after);
    var c := Fold(INITIAL, before);
    FoldInjective(Absorb(Absorb(c, x), y), Absorb(Absorb(c, x'), y'), after);
    PairInjective(c, x, y, x', y');
  }

  lemma PairFold(before: seq<u8>, x: u8, y: u8, after: seq<u8>)
    ensures Crc(before + [x, y] + after) == Fold(Absorb(Absorb(Fold(INITIAL, before), x), y), after)
  {
    hide Absorb;
    var c := Fold(INITIAL, before);
    FoldConcat(INITIAL, before + [x, y], after);
    FoldConcat(INITIAL, before, [x, y]);
    assert [x, y][..1] == [x] && [x][..0] == [];
    assert Fold(c, [x]) == Absorb(Fold(c, []), x);
  }

  /** Two messages of one length that differ only in one byte have different checks. */
  lemma OneByteDetected(before: seq<u8>, x: u8, x': u8, after: seq<u8>)
    requires Crc(before + [x] + after) == Crc(before + [x'] + after)
    ensures x == x'
  {
    hide Absorb;
    var c := Fold(INITIAL, before);
    FoldConcat(INITIAL, before + [x], after);
    FoldConcat(INITIAL, before, [x]);
    FoldConcat(INITIAL, before + [x'], after);
    FoldConcat(INITIAL, before, [x']);
    assert Fold(c, []) == c;
    FoldInjective(Absorb(c, x), Absorb(c, x'), after);
    AbsorbByteInjective(c, x, x');
  }

  lemma AbsorbByteInjective(c: u16, x: u8, x': u8)
    requires Absorb(c, x) == Absorb(c, x')
    ensures x == x'
  {
    PairInjective(c, x, 0, x', 0);
  }

  // ----- bursts across three bytes --------------------------------------------------------------

  /** A register that has room above it shifts without feedback. */
  lemma {:induction false} ShiftSteps(b: nat, k: nat, n: nat)
    requires b < Doubled(1, k) && k + n <= 16
    ensures b < 0x1_0000 && Doubled(b, n) < 0x1_0000 && Steps(b, n) == Doubled(b, n)
  {
    DoubledSixteen();
    DoubledMonotone(k, 16);
    DoubledMonotone(k + n, 16);
    DoubledBelow(b, k, n);
    if n > 0 {
      ShiftSteps(b, k, n - 1);
      DoubledBelow(b, k, n - 1);
      DoubledMonotone(k + n - 1, 15);
    }
  }

  /** Equal sums with a common term left out. */
  lemma XorLeftCancel(c: u16, a: u16, b: u16, a': u16, b': u16)
    requires Xor16(Xor16(c, a), b) == Xor16(Xor16(c, a'), b')
    ensures Xor16(a, b) == Xor16(a', b')
  {
    XorAssoc(c, a, b);
    XorAssoc(c, a', b');
    XorComm(c, Xor16(a, b));
    XorComm(c, Xor16(a', b'));
    XorCancel(Xor16(a, b), Xor16(a', b'), c);
  }

  lemma XorRightCancel(a: u16, b: u16, a': u16, b': u16, d: u16)
    requires Xor16(a, Xor16(b, d)) == Xor16(a', Xor16(b', d))
    ensures Xor16(a, b) == Xor16(a', b')
  {
    XorAssoc(a, b, d);
    XorAssoc(a', b', d);
    XorCancel(Xor16(a, b), Xor16(a', b'), d);
  }

  /** The 16 bits of a burst: the lower t + 8 bits of two bytes and the upper 8 - t of the third, as one word
      that is on its way through the register. */
  lemma BurstAsWord(m: nat, b: nat, t: nat)
    requires t <= 8 && m < Doubled(1, t + 8) && b < Doubled(1, 8 - t)
    ensures m < 0x1_0000 && Doubled(b, 8 + t) < 0x1_0000 && Doubled(m, 8 - t) + b < 0x1_0000
    ensures Xor16(Steps(m, 16), Doubled(b, 8 + t)) == Steps(Doubled(m, 8 - t) + b, 8 + t)
  {
    hide Steps, Xor, Xor16;
    ShiftSteps(m, t + 8, 8 - t);
    ShiftSteps(b, 8 - t, 8 + t);
    var high: u16 := Doubled(m, 8 - t);
    StepsAdd(m, 8 - t, 8 + t);
    StepsLinear(high, b, 8 + t);
    ShiftedXor(m, b, 8 - t);
    XorIs(high, b);
  }

  lemma XorIs(a: u16, b: u16)
    ensures Xor16(a, b) == Xor(a, b)
  {}

  /** Two bytes as a word whose upper part stays: what stays, and the rest. */
  lemma WordSplits(q: nat, a: nat, y: u8, t: nat)
    requires t <= 8 && a < Doubled(1, t) && Doubled(q, t) + a < 256
    ensures var m, top := 256 * a + y, Doubled(q, t + 8);
      m < Doubled(1, t + 8) && m < 0x1_0000 && top < 0x1_0000 && 256 * (Doubled(q, t) + a) + y == Xor16(top, m)
  {
    hide Xor;
    DoubledSixteen();
    DoubledEight(a);
    DoubledEight(Doubled(q, t));
    DoubledEight(Doubled(1, t));
    DoubledTwice(q, t, 8);
    DoubledTwice(1, t, 8);
    DoubledMonotone(t + 8, 16);
    ShiftedXor(q, 256 * a + y, t + 8);
  }

  /** The third byte: the part that may change, and the part that stays. */
  lemma LastSplits(b: nat, d: nat, t: nat)
    requires t <= 8 && d < Doubled(1, t) && b < Doubled(1, 8 - t)
    ensures 256 * d < 0x1_0000 && Doubled(b, 8 + t) < 0x1_0000 && Doubled(b, t) + d < 256
    ensures 256 * (Doubled(b, t) + d) == Xor16(Doubled(b, 8 + t), 256 * d)
  {
    LastFits(b, d, t);
    hide Xor;
    DoubledSixteen();
    DoubledEight(d);
    DoubledEight(Doubled(b, t));
    DoubledEight(Doubled(1, t));
    DoubledTwice(b, t, 8);
    DoubledTwice(1, t, 8);
    hide Doubled;
    ShiftedXor(b, 256 * d, 8 + t);
  }

  lemma LastFits(b: nat, d: nat, t: nat)
    requires t <= 8 && d < Doubled(1, t) && b < Doubled(1, 8 - t)
    ensures Doubled(b, t) + d < 256 && d < 256
  {
    DoubledEight(1);
    DoubledMonotone(t, 8);
    DoubledSum(b, 1, t);
    if b + 1 < Doubled(1, 8 - t) { DoubledBelow(b + 1, 8 - t, t); } else { DoubledTwice(1, 8 - t, t); }
  }

  /** Three absorbed bytes that differ in a window of 16 bits, and what is left of them when all that stays is cancelled. */
  lemma BurstInjective(c: u16, q: nat, d: nat, a: nat, y: u8, b: nat, a': nat, y': u8, b': nat, t: nat)
    requires t <= 8 && a < Doubled(1, t) && a' < Doubled(1, t) && d < Doubled(1, t)
    requires b < Doubled(1, 8 - t) && b' < Doubled(1, 8 - t)
    requires Doubled(q, t) + a < 256 && Doubled(q, t) + a' < 256 && Doubled(b, t) + d < 256 && Doubled(b', t) + d < 256
    requires Absorb(Absorb(Absorb(c, Doubled(q, t) + a), y), Doubled(b, t) + d)
          == Absorb(Absorb(Absorb(c, Doubled(q, t) + a'), y'), Doubled(b', t) + d)
    ensures a == a' && y == y' && b == b'
  {
    hide Steps, Xor, Xor16, Absorb;
    ThreeAbsorbed(c, q, d, a, y, b, t);
    ThreeAbsorbed(c, q, d, a', y', b', t);
    WordSplits(q, a, y, t);
    WordSplits(q, a', y', t);
    var m, m' := 256 * a + y, 256 * a' + y';
    var kept: u16 := Steps(Xor16(c, Doubled(q, t + 8)), 16);
    LastSplits(b, d, t);
    LastSplits(b', d, t);
    StepsInjective(Xor16(Xor16(kept, Steps(m, 16)), Xor16(Doubled(b, 8 + t), 256 * d)),
                   Xor16(Xor16(kept, Steps(m', 16)), Xor16(Doubled(b', 8 + t), 256 * d)), 8);
    XorLeftCancel(kept, Steps(m, 16), Xor16(Doubled(b, 8 + t), 256 * d), Steps(m', 16), Xor16(Doubled(b', 8 + t), 256 * d));
    XorRightCancel(Steps(m, 16), Doubled(b, 8 + t), Steps(m', 16), Doubled(b', 8 + t), 256 * d);
    BurstAsWord(m, b, t);
    BurstAsWord(m', b', t);
    StepsInjective(Doubled(m, 8 - t) + b, Doubled(m', 8 - t) + b', 8 + t);
    DoubledSplits(m, b, m', b', 8 - t);
  }

  /** The register after three bytes, with the bits that stay set apart. */
  lemma ThreeAbsorbed(c: u16, q: nat, d: nat, a: nat, y: u8, b: nat, t: nat)
    requires t <= 8 && a < Doubled(1, t) && d < Doubled(1, t) && b < Doubled(1, 8 - t)
    requires Doubled(q, t) + a < 256 && Doubled(b, t) + d < 256
    ensures var m := 256 * a + y;
      && m < 0x1_0000 && Doubled(q, t + 8) < 0x1_0000 && 256 * d < 0x1_0000 && Doubled(b, 8 + t) < 0x1_0000
      && var kept := Steps(Xor16(c, Doubled(q, t + 8)), 16);
      Absorb(Absorb(Absorb(c, Doubled(q, t) + a), y), Doubled(b, t) + d)
        == Steps(Xor16(Xor16(kept, Steps(m, 16)), Xor16(Doubled(b, 8 + t), 256 * d)), 8)
  {
    hide *;
    WordSplits(q, a, y, t);
    LastSplits(b, d, t);
    AbsorbedApart(c, Doubled(q, t) + a, y, Doubled(b, t) + d, Doubled(q, t + 8), 256 * a + y, Doubled(b, 8 + t), 256 * d);
  }

  /** Three absorbed bytes, the first two as the sum of two words and the last as the sum of two words. */
  lemma AbsorbedApart(c: u16, x: u8, y: u8, z: u8, top: u16, m: u16, high: u16, low: u16)
    requires 256 * x + y == Xor16(top, m) && 256 * z == Xor16(high, low)
    ensures Absorb(Absorb(Absorb(c, x), y), z)
         == Steps(Xor16(Xor16(Steps(Xor16(c, top), 16), Steps(m, 16)), Xor16(high, low)), 8)
  {
    hide Steps, Xor;
    PairAsWord(c, x, y);
    XorAssoc(c, top, m);
    hide Xor16;
    StepsLinear(Xor16(c, top), m, 16);
  }

  lemma TripleFold(before: seq<u8>, x: u8, y: u8, z: u8, after: seq<u8>)
    ensures Crc(before + [x, y, z] + after) == Fold(Absorb(Absorb(Absorb(Fold(INITIAL, before), x), y), z), after)
  {
    hide Absorb;
    assert before + [x, y, z] + after == before + [x, y] + ([z] + after);
    PairFold(before, x, y, [z] + after);
    var c := Absorb(Absorb(Fold(INITIAL, before), x), y);
    FoldConcat(c, [z], after);
    assert [z][..0] == [] && Fold(c, []) == c;
  }

  /** Messages of any length that differ only inside 16 consecutive bits have different checks, wherever in a byte
      the burst starts: here it takes the lower t bits of one byte, the next byte, and the upper 8 - t bits of the
      byte after it. */
  lemma {:induction false} BurstDetected(before: seq<u8>, x: u8, y: u8, z: u8, x': u8, y': u8, z': u8, after: seq<u8>, t: nat)
    requires t <= 8 && UpperBits(x, t) == UpperBits(x', t) && LowerBits(z, t) == LowerBits(z', t)
    requires Crc(before + [x, y, z] + after) == Crc(before + [x', y', z'] + after)
    ensures x == x' && y == y' && z == z'
  {
    hide Absorb;
    var c := Fold(INITIAL, before);
    TripleFold(before, x, y, z, after);
    TripleFold(before, x', y', z', after);
    FoldInjective(Absorb(Absorb(Absorb(c, x), y), z), Absorb(Absorb(Absorb(c, x'), y'), z'), after);
    ByteSplits(x, t);
    ByteSplits(x', t);
    ByteSplits(z, t);
    ByteSplits(z', t);
    BurstInjective(c, UpperBits(x, t), LowerBits(z, t), LowerBits(x, t), y, UpperBits(z, t), LowerBits(x', t), y', UpperBits(z', t), t);
  }

  lemma ByteSplits(x: u8, t: nat)
    requires t <= 8
    ensures x == Doubled(UpperBits(x, t), t) + LowerBits(x, t)
    ensures LowerBits(x, t) < Doubled(1, t) && UpperBits(x, t) < Doubled(1, 8 - t)
  {
    DoubledEight(1);
    BitsSplit(x, t, 8 - t);
  }
}
