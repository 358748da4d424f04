/** The machine integers of the modelled code, and their bits. */
module MachineInts {
  type u8 = x: int | 0 <= x < 0x100
  type u16 = x: int | 0 <= x < 0x1_0000
  type u32 = x: int | 0 <= x < 0x1_0000_0000
  type u64 = x: int | 0 <= x < 0x1_0000_0000_0000_0000
  type i16 = x: int | -0x8000 <= x < 0x8000
  type i32 = x: int | -0x8000_0000 <= x < 0x8000_0000
  type i64 = x: int | -0x8000_0000_0000_0000 <= x < 0x8000_0000_0000_0000

  const U16_MAX: u16 := 0xFFFF
  const U32_MAX: u32 := 0xFFFF_FFFF
  const U64_MAX: u64 := 0xFFFF_FFFF_FFFF_FFFF

  /** b shifted left by n places; Doubled(1, n) is the n-th power of two. */
  function Doubled(b: nat, n: nat): (r: nat) {
    if n == 0 then b else 2 * Doubled(b, n - 1)
  }

  lemma {:induction false} DoubledMonotone(n: nat, m: nat)
    requires n <= m
    ensures Doubled(1, n) <= Doubled(1, m)
  {
    if n < m { DoubledMonotone(n, m - 1); }
  }

  lemma DoubledEight(b: nat)
    ensures Doubled(b, 8) == 256 * b
  {
    assert Doubled(b, 0) == b;
    var d1, d2, d3 := Doubled(b, 1), Doubled(b, 2), Doubled(b, 3);
    assert d1 == 2 * b && d2 == 2 * d1 && d3 == 2 * d2;
    var d4, d5, d6 := Doubled(b, 4), Doubled(b, 5), Doubled(b, 6);
    assert d4 == 2 * d3 && d5 == 2 * d4 && d6 == 2 * d5;
    assert Doubled(b, 7) == 2 * d6;
  }

  lemma DoubledSixteen()
    ensures Doubled(1, 15) == 0x8000 && Doubled(1, 16) == 0x1_0000
  {
    DoubledEight(1);
    var d9, d10, d11 := Doubled(1, 9), Doubled(1, 10), Doubled(1, 11);
    assert d9 == 512 && d10 == 2 * d9 && d11 == 2 * d10;
    var d12, d13, d14 := Doubled(1, 12), Doubled(1, 13), Doubled(1, 14);
    assert d12 == 2 * d11 && d13 == 2 * d12 && d14 == 2 * d13;
    assert Doubled(1, 15) == 2 * d14;
  }

  lemma {:induction false} DoubledTwice(b: nat, m: nat, n: nat)
    ensures Doubled(Doubled(b, m), n) == Doubled(b, m + n)
  {
    if n > 0 { DoubledTwice(b, m, n - 1); }
  }

  lemma {:induction false} DoubledSum(a: nat, b: nat, n: nat)
    ensures Doubled(a + b, n) == Doubled(a, n) + Doubled(b, n)
  {
    if n > 0 { DoubledSum(a, b, n - 1); }
  }

  lemma {:induction false} DoubledBelow(b: nat, k: nat, n: nat)
    requires b < Doubled(1, k)
    ensures Doubled(b, n) < Doubled(1, k + n)
  {
    if n > 0 { DoubledBelow(b, k, n - 1); }
  }

  /** A number is its upper and its lower n bits. */
  lemma {:induction false} DoubledSplits(a: nat, low: nat, a': nat, low': nat, n: nat)
    requires low < Doubled(1, n) && low' < Doubled(1, n) && Doubled(a, n) + low == Doubled(a', n) + low'
    ensures a == a' && low == low'
  {
    if n > 0 {
      Halving(Doubled(a, n) + low, Doubled(a, n - 1) + low / 2, low % 2);
      Halving(Doubled(a', n) + low', Doubled(a', n - 1) + low' / 2, low' % 2);
      DoubledSplits(a, low / 2, a', low' / 2, n - 1);
    }
  }

  /** A number without its lower n bits, and those bits. */
  function UpperBits(x: nat, n: nat): (r: nat) {
    if n == 0 then x else UpperBits(x / 2, n - 1)
  }

  function LowerBits(x: nat, n: nat): (r: nat) {
    if n == 0 then 0 else 2 * LowerBits(x / 2, n - 1) + x % 2
  }

  lemma {:induction false} BitsSplit(x: nat, n: nat, k: nat)
    requires x < Doubled(1, n + k)
    ensures x == Doubled(UpperBits(x, n), n) + LowerBits(x, n)
    ensures LowerBits(x, n) < Doubled(1, n) && UpperBits(x, n) < Doubled(1, k)
  {
    if n > 0 { BitsSplit(x / 2, n - 1, k); }
  }

  /** Bitwise exclusive or. */
  function Xor(a: nat, b: nat): (r: nat)
    decreases a + b
  {
    if a == 0 && b == 0 then 0
    else 2 * Xor(a / 2, b / 2) + (if a % 2 == b % 2 then 0 else 1)
  }

  lemma XorUnfolds(a: nat, b: nat)
    ensures Xor(a, b) == 2 * Xor(a / 2, b / 2) + (if a % 2 == b % 2 then 0 else 1)
  {
    assert Xor(0, 0) == 0;
  }

  /** The number of one bits. */
  function Ones(a: nat): (r: nat) {
    if a == 0 then 0 else Ones(a / 2) + a % 2
  }

  lemma OnesUnfolds(a: nat)
    ensures Ones(a) == Ones(a / 2) + a % 2
  {
    assert Ones(0) == 0;
  }

  lemma {:induction false} XorComm(a: nat, b: nat)
    ensures Xor(a, b) == Xor(b, a)
    decreases a + b
  {
    if a + b > 0 { XorComm(a / 2, b / 2); }
  }

  lemma {:induction false} XorSelf(a: nat)
    ensures Xor(a, a) == 0
  {
    if a > 0 { XorSelf(a / 2); }
  }

  lemma {:induction false} XorZero(a: nat)
    ensures Xor(a, 0) == a && Xor(0, a) == a
  {
    if a > 0 { XorZero(a / 2); }
  }

  lemma {:induction false} XorAssoc(a: nat, b: nat, c: nat)
    ensures Xor(Xor(a, b), c) == Xor(a, Xor(b, c))
    decreases a + b + c
  {
    if a + b + c > 0 {
      XorAssoc(a / 2, b / 2, c / 2);
      var ab, bc := Xor(a, b), Xor(b, c);
      assert ab / 2 == Xor(a / 2, b / 2) && bc / 2 == Xor(b / 2, c / 2);
      assert ab % 2 == (if a % 2 == b % 2 then 0 else 1) && bc % 2 == (if b % 2 == c % 2 then 0 else 1);
      assert Xor(ab, c) == 2 * Xor(ab / 2, c / 2) + (if ab % 2 == c % 2 then 0 else 1);
      assert Xor(a, bc) == 2 * Xor(a / 2, bc / 2) + (if a % 2 == bc % 2 then 0 else 1);
    }
  }

  lemma XorCancel(a: nat, b: nat, c: nat)
    requires Xor(a, c) == Xor(b, c)
    ensures a == b
  {
    XorAssoc(a, c, c);
    XorAssoc(b, c, c);
    XorSelf(c);
    XorZero(a);
    XorZero(b);
  }

  lemma {:induction false} XorDouble(a: nat, b: nat)
    ensures Xor(2 * a, 2 * b) == 2 * Xor(a, b)
  {}

  lemma {:induction false} XorBound(a: nat, b: nat, n: nat)
    requires a < Doubled(1, n) && b < Doubled(1, n)
    ensures Xor(a, b) < Doubled(1, n)
  {
    if n > 0 { XorBound(a / 2, b / 2, n - 1); }
  }

  lemma HalfOfSum(a: nat, half: nat)
    ensures (a + 2 * half) / 2 == a / 2 + half && (a + 2 * half) % 2 == a % 2
  {}

  lemma XorOfOne()
    ensures Xor(0, 0) == 0 && Xor(1, 0) == 1 && Xor(1, 1) == 0
  {
    assert Xor(0, 0) == 0;
  }

  /** A bit above both operands passes through; two of them cancel. */
  lemma {:induction false} XorTop(a: nat, b: nat, n: nat)
    requires a < Doubled(1, n) && b < Doubled(1, n)
    ensures Xor(a + Doubled(1, n), b) == Xor(a, b) + Doubled(1, n)
    ensures Xor(a + Doubled(1, n), b + Doubled(1, n)) == Xor(a, b)
  {
    hide Xor;
    if n == 0 {
      XorOfOne();
    } else {
      var half := Doubled(1, n - 1);
      assert Doubled(1, n) == 2 * half;
      hide Doubled;
      XorTop(a / 2, b / 2, n - 1);
      XorUnfolds(a + 2 * half, b);
      XorUnfolds(a + 2 * half, b + 2 * half);
      XorUnfolds(a, b);
      HalfOfSum(a, half);
      HalfOfSum(b, half);
    }
  }

  lemma Halving(x: nat, half: nat, bit: nat)
    requires x == 2 * half + bit && bit < 2
    ensures x / 2 == half && x % 2 == bit
  {}

  lemma ParityAdds(x: nat, a: nat, b: nat, u: nat, v: nat)
    requires x % 2 == (a + b) % 2 && u < 2 && v < 2
    ensures (x + if u == v then 0 else 1) % 2 == (a + u + (b + v)) % 2
  {}

  lemma {:induction false} OnesXor(a: nat, b: nat)
    ensures Ones(Xor(a, b)) % 2 == (Ones(a) + Ones(b)) % 2
    decreases a + b
  {
    if a + b > 0 {
      OnesXor(a / 2, b / 2);
      XorUnfolds(a, b);
      OnesUnfolds(a);
      OnesUnfolds(b);
      OnesUnfolds(Xor(a, b));
      hide Xor, Ones;
      Halving(Xor(a, b), Xor(a / 2, b / 2), if a % 2 == b % 2 then 0 else 1);
      ParityAdds(Ones(Xor(a / 2, b / 2)), Ones(a / 2), Ones(b / 2), a % 2, b % 2);
    }
  }
}
