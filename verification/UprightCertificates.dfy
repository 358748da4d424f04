/** The structural certificates of the upright model: the controllability indicators as
    determinants of the coded blocks. */
module UprightCertificates {
  import opened Wrappers
  import opened LinearAlgebra
  import opened StateEstimator
  import opened DynamicsModel

  // ----- determinants --------------------------------------------------------------------

  function Det3(m: Mat): real
    requires |m| == 3 && |m[0]| == |m[1]| == |m[2]| == 3
  {
    m[0][0] * (m[1][1] * m[2][2] - m[1][2] * m[2][1])
    - m[0][1] * (m[1][0] * m[2][2] - m[1][2] * m[2][0])
    + m[0][2] * (m[1][0] * m[2][1] - m[1][1] * m[2][0])
  }

  function Without(v: Vec, j: nat): Vec
    requires j < |v|
  {
    v[..j] + v[j + 1..]
  }

  function Minor(m: Mat, j: nat): real
    requires |m| == 4 && |m[0]| == |m[1]| == |m[2]| == |m[3]| == 4 && j < 4
  {
    Det3([Without(m[1], j), Without(m[2], j), Without(m[3], j)])
  }

  /** Expansion along the first row. */
  function Det4(m: Mat): real
    requires |m| == 4 && |m[0]| == |m[1]| == |m[2]| == |m[3]| == 4
  {
    m[0][0] * Minor(m, 0) - m[0][1] * Minor(m, 1) + m[0][2] * Minor(m, 2) - m[0][3] * Minor(m, 3)
  }

  // ----- blocks and their Krylov matrices ---------------------------------------------------

  /** The n by n diagonal block starting at `from`. */
  function Block(m: Mat, from: nat, n: nat): (b: Mat)
    requires IsMat(m, |m|, |m|) && from + n <= |m|
    ensures IsMat(b, n, n)
  {
    seq(n, i requires 0 <= i < n => seq(n, j requires 0 <= j < n => m[from + i][from + j]))
  }

  /** Rows `from` .. of one column. */
  function ColumnPart(m: Mat, col: nat, from: nat, n: nat): (v: Vec)
    requires from + n <= |m| && forall i | 0 <= i < |m| :: col < |m[i]|
    ensures |v| == n
  {
    seq(n, i requires 0 <= i < n => m[from + i][col])
  }

  /** The powers of a applied to b, b first. */
  ghost function Krylov(a: Mat, b: Vec, k: nat): (v: Vec)
    requires IsMat(a, |b|, |b|)
    ensures |v| == |b|
  {
    if k == 0 then b else MulVec(a, Krylov(a, b, k - 1))
  }

  /** [b ab a^2b ...], the powers as columns. */
  ghost function ControllabilityMatrix(a: Mat, b: Vec): (m: Mat)
    requires IsMat(a, |b|, |b|)
    ensures IsMat(m, |b|, |b|)
  {
    seq(|b|, i requires 0 <= i < |b| => seq(|b|, j requires 0 <= j < |b| => Krylov(a, b, j)[i]))
  }

  lemma {:induction false} Dot4(u: Vec, x: Vec)
    requires |u| == |x| == 4
    ensures Dot(u, x) == u[0] * x[0] + u[1] * x[1] + u[2] * x[2] + u[3] * x[3]
  {
    assert Dot(u[..0], x[..0]) == 0.0;
    hide Dot;
    assert u[..4] == u && x[..4] == x;
    DotLast(u, x, 4);
    DotLast(u, x, 3);
    DotLast(u, x, 2);
    DotLast(u, x, 1);
  }

  lemma {:induction false} Dot3(u: Vec, x: Vec)
    requires |u| == |x| == 3
    ensures Dot(u, x) == u[0] * x[0] + u[1] * x[1] + u[2] * x[2]
  {
    assert Dot(u[..0], x[..0]) == 0.0;
    hide Dot;
    assert u[..3] == u && x[..3] == x;
    DotLast(u, x, 3);
    DotLast(u, x, 2);
    DotLast(u, x, 1);
  }

  function PitchBlock(e: Entries): Mat {
    [[0.0, 1.0, 0.0, 0.0], [0.0, 0.0, e.sTheta, 0.0], [0.0, 0.0, 0.0, 1.0], [0.0, 0.0, e.thetaTheta, 0.0]]
  }

  function RollBlock(e: Entries): Mat {
    [[0.0, 1.0, 0.0], [e.phiPhi, 0.0, 0.0], [-e.phiPhi, 0.0, 0.0]]
  }

  /** The two diagonal blocks of the coded matrix, and that nothing couples them. */
  lemma CodedBlocks(e: Entries)
    ensures var l := PlantOf(e);
      && Block(l.a, 0, 4) == PitchBlock(e) && Block(l.a, 4, 3) == RollBlock(e)
      && ColumnPart(l.b, 0, 0, 4) == [0.0, e.sDrive, 0.0, e.thetaDrive]
      && ColumnPart(l.b, 1, 4, 3) == [0.0, e.phiReaction, e.psiReaction]
      && (forall i, j | 0 <= i < 4 <= j < 7 :: l.a[i][j] == 0.0 && l.a[j][i] == 0.0)
      && (forall i | 0 <= i < 4 :: l.b[i][1] == 0.0) && (forall i | 4 <= i < 7 :: l.b[i][0] == 0.0)
  {
    var a := PlantOf(e).a;
    var pitch, roll := Block(a, 0, 4), Block(a, 4, 3);
    assert pitch[0] == PitchBlock(e)[0] && pitch[1] == PitchBlock(e)[1] && pitch[2] == PitchBlock(e)[2] && pitch[3] == PitchBlock(e)[3];
    assert roll[0] == RollBlock(e)[0] && roll[1] == RollBlock(e)[1] && roll[2] == RollBlock(e)[2];
  }

  lemma PitchTimes(e: Entries, x: Vec)
    requires |x| == 4
    ensures IsMat(PitchBlock(e), 4, 4) && MulVec(PitchBlock(e), x) == [x[1], Times(e.sTheta, x[2]), x[3], Times(e.thetaTheta, x[2])]
  {
    hide Dot;
    var m := PitchBlock(e);
    Dot4(m[0], x);
    Dot4(m[1], x);
    Dot4(m[2], x);
    Dot4(m[3], x);
    var y := MulVec(m, x);
    assert y[0] == x[1] && y[1] == Times(e.sTheta, x[2]) && y[2] == x[3] && y[3] == Times(e.thetaTheta, x[2]);
  }

  lemma RollTimes(e: Entries, x: Vec)
    requires |x| == 3
    ensures IsMat(RollBlock(e), 3, 3) && MulVec(RollBlock(e), x) == [x[1], Times(e.phiPhi, x[0]), Times(-e.phiPhi, x[0])]
  {
    hide Dot;
    var m := RollBlock(e);
    Dot3(m[0], x);
    Dot3(m[1], x);
    Dot3(m[2], x);
    var y := MulVec(m, x);
    assert y[0] == x[1] && y[1] == Times(e.phiPhi, x[0]) && y[2] == Times(-e.phiPhi, x[0]);
  }

  lemma PitchControllability(e: Entries)
    ensures IsMat(PitchBlock(e), 4, 4)
    ensures var x, y := e.sDrive, e.thetaDrive;
      ControllabilityMatrix(PitchBlock(e), [0.0, x, 0.0, y])
      == [[0.0, x, 0.0, Times(e.sTheta, y)], [x, 0.0, Times(e.sTheta, y), 0.0],
          [0.0, y, 0.0, Times(e.thetaTheta, y)], [y, 0.0, Times(e.thetaTheta, y), 0.0]]
  {
    var x, y := e.sDrive, e.thetaDrive;
    var b := [0.0, x, 0.0, y];
    var p, q := Times(e.sTheta, y), Times(e.thetaTheta, y);
    var b1, b2, b3 := [x, 0.0, y, 0.0], [0.0, p, 0.0, q], [p, 0.0, q, 0.0];
    assert Times(e.sTheta, 0.0) == 0.0 && Times(e.thetaTheta, 0.0) == 0.0;
    PitchTimes(e, b);
    PitchTimes(e, b1);
    PitchTimes(e, b2);
    hide MulVec, PitchBlock, Times;
    var a := PitchBlock(e);
    assert Krylov(a, b, 0) == b;
    assert Krylov(a, b, 1) == MulVec(a, b) == b1;
    assert Krylov(a, b, 2) == MulVec(a, b1) == b2;
    assert Krylov(a, b, 3) == MulVec(a, b2) == b3;
    hide Krylov;
    var c := ControllabilityMatrix(a, b);
    assert c[0] == [b[0], b1[0], b2[0], b3[0]] && c[1] == [b[1], b1[1], b2[1], b3[1]];
    assert c[2] == [b[2], b1[2], b2[2], b3[2]] && c[3] == [b[3], b1[3], b2[3], b3[3]];
  }

  lemma RollControllability(e: Entries)
    ensures IsMat(RollBlock(e), 3, 3)
    ensures var x, y, w := e.phiReaction, e.psiReaction, e.phiPhi;
      ControllabilityMatrix(RollBlock(e), [0.0, x, y]) == [[0.0, x, 0.0], [x, 0.0, Times(w, x)], [y, 0.0, Times(-w, x)]]
  {
    var x, y, w := e.phiReaction, e.psiReaction, e.phiPhi;
    var b, b1, b2 := [0.0, x, y], [x, 0.0, 0.0], [0.0, Times(w, x), Times(-w, x)];
    assert Times(w, 0.0) == 0.0 && Times(-w, 0.0) == 0.0;
    RollTimes(e, b);
    RollTimes(e, b1);
    hide MulVec, RollBlock, Times;
    var a := RollBlock(e);
    assert Krylov(a, b, 0) == b;
    assert Krylov(a, b, 1) == MulVec(a, b) == b1;
    assert Krylov(a, b, 2) == MulVec(a, b1) == b2;
    hide Krylov;
    var c := ControllabilityMatrix(a, b);
    assert c[0] == [b[0], b1[0], b2[0]] && c[1] == [b[1], b1[1], b2[1]] && c[2] == [b[2], b1[2], b2[2]];
  }

  function Minor2(x: real, q: real, p: real, y: real): real { x * q - p * y }

  function Square(z: real): real { z * z }

  /** The determinant of the chessboard pattern of the pitch matrix. */
  lemma ChessboardDet(x: real, y: real, p: real, q: real)
    ensures Det4([[0.0, x, 0.0, p], [x, 0.0, p, 0.0], [0.0, y, 0.0, q], [y, 0.0, q, 0.0]]) == Square(Minor2(x, q, p, y))
  {
    var m := [[0.0, x, 0.0, p], [x, 0.0, p, 0.0], [0.0, y, 0.0, q], [y, 0.0, q, 0.0]];
    assert Without(m[1], 1) == [x, p, 0.0] && Without(m[2], 1) == [0.0, 0.0, q] && Without(m[3], 1) == [y, q, 0.0];
    assert Without(m[1], 3) == [x, 0.0, p] && Without(m[2], 3) == [0.0, y, 0.0] && Without(m[3], 3) == [y, 0.0, q];
    assert Minor(m, 1) == x * (0.0 * 0.0 - q * q) - p * (0.0 * 0.0 - q * y) + 0.0 * (0.0 * q - 0.0 * y);
    assert Minor(m, 3) == x * (y * q - 0.0 * 0.0) - 0.0 * (0.0 * q - 0.0 * y) + p * (0.0 * 0.0 - y * y);
    hide Minor;
    var d := x * q - p * y;
    assert Minor(m, 1) == -(q * d);
    assert Minor(m, 3) == y * d;
    assert Det4(m) == -(x * Minor(m, 1)) - p * Minor(m, 3);
    assert d * d == x * q * d - p * y * d;
  }

  // ----- the coded indicators ------------------------------------------------------------------

  datatype Indicators = Indicators(pitch: real, roll: real)

  function Cube(x: real): real { x * x * x }

  function Fourth(x: real): real { Cube(x) * x }

  /** Coded closed forms of the two controllability determinants. */
  function ControllabilityIndicators(p: Upright): Indicators {
    AggregatesNeverRefused(p);
    Indicators(PitchIndicator(Aggregates(p), p.gravity, p.wheelRadius), RollIndicator(Aggregates(p), p.gravity, p.reactionSpin))
  }

  function PitchIndicator(a: UprightAggregates, g: real, r: real): (i: real)
    requires r > 0.0 && AggregatesValid(a) && g > 0.0
    ensures i > 0.0
  {
    var scale, n := PitchScale(r, a.delta), PitchNumerator(a.h, g, LeverArm(a, r));
    NumeratorPositive(a.h, g, LeverArm(a, r));
    PositiveQuotient(n, scale);
    n / scale
  }

  function LeverArm(a: UprightAggregates, r: real): (b: real)
    requires AggregatesValid(a) && r > 0.0
    ensures b > 0.0
  {
    PositiveTimes(a.mS, r, a.mS * r);
    a.h + a.mS * r
  }

  function PitchScale(r: real, delta: real): (k: real)
    requires r > 0.0 && delta > 0.0
    ensures k > 0.0
  {
    FourthPositive(r);
    FourthPositive(delta);
    PositiveTimes(Fourth(r), Fourth(delta), Fourth(r) * Fourth(delta));
    Fourth(r) * Fourth(delta)
  }

  function RollIndicator(a: UprightAggregates, g: real, jR: real): (i: real)
    requires jR > 0.0 && AggregatesValid(a) && g > 0.0
    ensures i > 0.0
  {
    var scale, n := RollScale(jR, a.jPhi), a.h * g;
    PositiveTimes(a.h, g, n);
    PositiveQuotient(n, scale);
    n / scale
  }

  function RollScale(jR: real, jPhi: real): (k: real)
    requires jR > 0.0 && jPhi > 0.0
    ensures k > 0.0
  {
    CubePositive(jPhi);
    PositiveTimes(jR, Cube(jPhi), jR * Cube(jPhi));
    jR * Cube(jPhi)
  }

  function PitchNumerator(h: real, g: real, b: real): real { h * h * g * g * b * b }

  lemma PositiveTimes(a: real, b: real, product: real)
    requires a > 0.0 && b > 0.0 && product == a * b
    ensures product > 0.0
  {}

  lemma FourthPositive(x: real)
    requires x > 0.0
    ensures Fourth(x) > 0.0
  {
    CubePositive(x);
    PositiveTimes(Cube(x), x, Fourth(x));
  }

  lemma CubePositive(x: real)
    requires x > 0.0
    ensures Cube(x) > 0.0
  {
    var square := x * x;
    PositiveTimes(x, x, square);
    PositiveTimes(square, x, Cube(x));
  }

  /** The input pair of pitch entries, cleared of their denominators. */
  predicate InputsCleared(h: real, m: real, j: real, r: real, d: real, x: real, y: real) {
    r * (d * x) == j + h * r && r * (d * y) == -(h + m * r)
  }

  /** The stiffness pair, cleared of their denominators. */
  predicate StiffnessCleared(h: real, m: real, g: real, d: real, p: real, q: real) {
    d * p == -(h * h * g) && d * q == h * m * g
  }

  /** The two combinations of entries the determinant is made of. */
  predicate MinorCleared(h: real, m: real, g: real, r: real, d: real, x: real, y: real, p: real, q: real) {
    r * d * (x * q - p * y) == h * g && r * d * y == -(h + m * r)
  }

  lemma EntriesCleared(a: UprightAggregates, e: Entries, g: real, r: real)
    requires r > 0.0 && PitchEntriesFit(a, e, g, r)
    ensures InputsCleared(a.h, a.mS, a.jTheta, r, a.delta, e.sDrive, e.thetaDrive)
    ensures StiffnessCleared(a.h, a.mS, g, a.delta, e.sTheta, e.thetaTheta)
  {
    TimesQuotient(a.jTheta, r);
    TimesQuotient(a.h, r);
    InputScalars(a.h, a.mS, a.jTheta, r, a.delta * e.sDrive, a.delta * e.thetaDrive, a.jTheta / r, a.h / r);
  }

  lemma InputScalars(h: real, m: real, j: real, r: real, dx: real, dy: real, jr: real, hr: real)
    requires r * jr == j && r * hr == h && dx == jr + h && dy == -(hr + m)
    ensures r * dx == j + h * r && r * dy == -(h + m * r)
  {}

  lemma MinorScalars(h: real, m: real, j: real, r: real, g: real, d: real, x: real, y: real, p: real, q: real)
    requires d == m * j - h * h && d > 0.0
    requires InputsCleared(h, m, j, r, d, x, y) && StiffnessCleared(h, m, g, d, p, q)
    ensures MinorCleared(h, m, g, r, d, x, y, p, q)
  {
    var minor := r * d * (x * q - p * y);
    assert d * minor == d * (h * g) by {
      Spread(r, d, x, y, p, q);
      CrossTerm(h, m, j, r, g, d, r * (d * x), d * q, d * p, r * (d * y));
    }
    CancelFactor(d, minor, h * g);
  }

  lemma Spread(r: real, d: real, x: real, y: real, p: real, q: real)
    ensures d * (r * d * (x * q - p * y)) == r * (d * x) * (d * q) - (d * p) * (r * (d * y))
  {
    var rdd := r * d * d;
    assert d * (r * d * (x * q - p * y)) == rdd * (x * q) - rdd * (p * y);
  }

  lemma CrossTerm(h: real, m: real, j: real, r: real, g: real, d: real, x: real, u: real, v: real, y: real)
    requires d == m * j - h * h && x == j + h * r && u == h * m * g && v == -(h * h * g) && y == -(h + m * r)
    ensures x * u - v * y == d * (h * g)
  {}

  lemma FourthSplits(r: real, d: real)
    ensures (r * d) * (r * d) * ((r * d) * (r * d)) == Fourth(r) * Fourth(d)
  {
    var rr, dd := r * r, d * d;
    assert (r * d) * (r * d) == rr * dd;
    assert rr * dd * (rr * dd) == (rr * rr) * (dd * dd);
    assert Fourth(r) == rr * rr && Fourth(d) == dd * dd;
  }

  lemma SquareIdentity(k: real, y: real, m: real, b: real, c: real, scale: real, z: real, zz: real)
    requires b == -(k * y) && c == k * m && scale == k * k * (k * k) && z == y * m && zz == z * z
    ensures scale * zz == c * c * (b * b)
  {}

  /** If r d y = -b and r d m = c then (y m)^2 is c c b b over r^4 d^4. */
  lemma SquareCleared(r: real, d: real, y: real, m: real, b: real, c: real, z: real, n: real)
    requires r > 0.0 && d > 0.0 && ProductCleared(r, d, y, m, b, c) && z == y * m && n == c * c * (b * b)
    ensures Square(z) == n / PitchScale(r, d)
  {
    var scale := PitchScale(r, d);
    FourthSplits(r, d);
    SquareIdentity(r * d, y, m, b, c, scale, z, Square(z));
    hide PitchScale, Square;
    QuotientIs(Square(z), scale, n);
  }

  lemma QuotientIs(x: real, k: real, y: real)
    requires k > 0.0 && k * x == y
    ensures x == y / k
  {
    TimesQuotient(y, k);
    CancelFactor(k, x, y / k);
  }

  /** The coded pitch indicator is the determinant of [B AB A^2B A^3B] of the coded pitch block. */
  lemma PitchIndicatorIsDeterminant(p: Upright)
    ensures var l := PlantOf(EntriesOf(p));
      Det4(ControllabilityMatrix(Block(l.a, 0, 4), ColumnPart(l.b, 0, 0, 4))) == ControllabilityIndicators(p).pitch
  {
    var e, a, g, r := EntriesOf(p), Aggregates(p), p.gravity, p.wheelRadius;
    AggregatesNeverRefused(p);
    PitchEntries(a, g, r, p.reactionSpin);
    EntriesCleared(a, e, g, r) by { hide EntriesOf, Aggregates; }
    assert a.delta == a.mS * a.jTheta - a.h * a.h by { hide CodedEntries; }
    hide InputsCleared, StiffnessCleared, MinorCleared, PitchEntriesFit;
    MinorScalars(a.h, a.mS, a.jTheta, r, g, a.delta, e.sDrive, e.thetaDrive, e.sTheta, e.thetaTheta);
    hide PlantOf, Aggregates, CodedEntries, EntriesOf, ControllabilityMatrix, Det4, Block, ColumnPart, PitchBlock, PitchIndicator, Times, Square, Minor2;
    CodedBlocks(e);
    PitchControllability(e);
    var x, y := e.sDrive, e.thetaDrive;
    var p1, q1 := Times(e.sTheta, y), Times(e.thetaTheta, y);
    PitchDeterminantValue(a, e, g, r, x, y, p1, q1);
    ChessboardDet(x, y, p1, q1);
  }

  /** y m scaled by r d, both ways. */
  predicate ProductCleared(r: real, d: real, y: real, m: real, b: real, c: real) {
    r * d * y == -b && r * d * m == c
  }

  lemma MinorIsProduct(h: real, ms: real, g: real, r: real, d: real, x: real, y: real, p: real, q: real, m: real, b: real, c: real)
    requires MinorCleared(h, ms, g, r, d, x, y, p, q) && m == x * q - p * y && b == h + ms * r && c == h * g
    ensures ProductCleared(r, d, y, m, b, c)
  {}

  lemma PitchDeterminantValue(a: UprightAggregates, e: Entries, g: real, r: real, x: real, y: real, p: real, q: real)
    requires AggregatesValid(a) && r > 0.0 && g > 0.0
    requires x == e.sDrive && y == e.thetaDrive && p == Times(e.sTheta, y) && q == Times(e.thetaTheta, y)
    requires MinorCleared(a.h, a.mS, g, r, a.delta, x, y, e.sTheta, e.thetaTheta)
    ensures Square(Minor2(x, q, p, y)) == PitchIndicator(a, g, r)
  {
    var m, z := x * e.thetaTheta - e.sTheta * y, Minor2(x, q, p, y);
    var b, c := LeverArm(a, r), a.h * g;
    Factored(x, e.thetaTheta, e.sTheta, y, p, q, m);
    MinorIsProduct(a.h, a.mS, g, r, a.delta, x, y, e.sTheta, e.thetaTheta, m, b, c);
    Reordered(a.h, g, b);
    hide PitchNumerator, PitchScale, Times, MinorCleared, Minor2, LeverArm, ProductCleared;
    SquareCleared(r, a.delta, y, m, b, c, z, PitchNumerator(a.h, g, b));
  }

  lemma Factored(x: real, k: real, l: real, y: real, p: real, q: real, m: real)
    requires q == Times(k, y) && p == Times(l, y) && m == x * k - l * y
    ensures Minor2(x, q, p, y) == y * m
  {}

  lemma Reordered(h: real, g: real, b: real)
    ensures (h * g) * (h * g) * (b * b) == PitchNumerator(h, g, b)
  {
    assert (h * g) * (h * g) == h * h * g * g;
  }

  /** The coded roll indicator is the determinant of [B AB A^2B] of the coded roll block. */
  lemma RollIndicatorIsDeterminant(p: Upright)
    ensures var l := PlantOf(EntriesOf(p));
      Det3(ControllabilityMatrix(Block(l.a, 4, 3), ColumnPart(l.b, 1, 4, 3))) == ControllabilityIndicators(p).roll
  {
    var e, a, g, jR := EntriesOf(p), Aggregates(p), p.gravity, p.reactionSpin;
    AggregatesNeverRefused(p);
    RollEntries(a, g, p.wheelRadius, jR);
    hide PlantOf, Aggregates, CodedEntries, EntriesOf, ControllabilityMatrix, Block, ColumnPart, RollBlock, RollIndicator, Det3, Times, RollProduct, RollEntriesFit;
    CodedBlocks(e);
    RollControllability(e);
    RollDet(e.phiReaction, e.psiReaction, e.phiPhi);
    RollCleared(a, e, g, jR);
  }

  function RollProduct(x: real, y: real, w: real): real { w * (x * x) * (x + y) }

  lemma RollDet(x: real, y: real, w: real)
    ensures Det3([[0.0, x, 0.0], [x, 0.0, Times(w, x)], [y, 0.0, Times(-w, x)]]) == RollProduct(x, y, w)
  {
    var m := [[0.0, x, 0.0], [x, 0.0, Times(w, x)], [y, 0.0, Times(-w, x)]];
    assert Det3(m) == -(x * (x * (-w * x) - w * x * y));
    assert x * (-w * x) == -(w * (x * x)) && x * (w * x * y) == w * (x * x) * y;
  }

  lemma RollCleared(a: UprightAggregates, e: Entries, g: real, jR: real)
    requires AggregatesValid(a) && g > 0.0 && jR > 0.0
    requires RollEntriesFit(a, e, g, jR)
    ensures RollProduct(e.phiReaction, e.psiReaction, e.phiPhi) == RollIndicator(a, g, jR)
  {
    var j, x, y, w := a.jPhi, e.phiReaction, e.psiReaction, e.phiPhi;
    var scale, value := RollScale(jR, j), RollProduct(x, y, w);
    RollIdentity(j, jR, x, x + y, w, j * x, jR * (x + y), j * w, scale, value);
    hide RollScale;
    QuotientIs(value, scale, a.h * g);
  }

  lemma RollIdentity(j: real, jR: real, x: real, s: real, w: real, jx: real, js: real, jw: real, scale: real, value: real)
    requires jx == j * x && js == jR * s && jw == j * w && scale == jR * Cube(j) && value == w * (x * x) * s
    ensures scale * value == jw * (jx * jx) * js
  {}

  lemma NumeratorPositive(h: real, g: real, b: real)
    requires h > 0.0 && g > 0.0 && b > 0.0
    ensures PitchNumerator(h, g, b) > 0.0
  {
    var c := h * g;
    PositiveTimes(h, g, c);
    var cc, bb := c * c, b * b;
    PositiveTimes(c, c, cc);
    PositiveTimes(b, b, bb);
    Reordered(h, g, b);
    PositiveTimes(cc, bb, PitchNumerator(h, g, b));
  }
}
