/** The coded Jacobian row of each channel is the first-order part of the coded measurement: what it leaves out
    is quadratic in the two angles. */
module EkfJacobian {
  import opened LinearAlgebra
  import opened StateEstimator
  import opened ActuatorModel
  import opened Ekf

  // ----- what is used of the two trigonometric functions ------------------------------------------

  ghost predicate AddsAngles(t: Trig, a: real, b: real) {
    && t.sin(a + b) == t.sin(a) * t.cos(b) + t.cos(a) * t.sin(b)
    && t.cos(a + b) == t.cos(a) * t.cos(b) - t.sin(a) * t.sin(b)
  }

  predicate OnCircle(t: Trig, a: real) {
    -1.0 <= t.sin(a) <= 1.0 && -1.0 <= t.cos(a) <= 1.0
  }

  predicate NearZero(t: Trig, a: real) {
    && Abs(t.sin(a) - a) <= a * a / 2.0 && Abs(t.sin(a)) <= Abs(a)
    && Abs(t.cos(a) - 1.0) <= a * a / 2.0 && Abs(t.cos(a) - 1.0) <= Abs(a)
  }

  /** The addition theorems, the unit circle, and how close sine and cosine are to their angle and to one. */
  ghost predicate Circular(t: Trig) {
    (forall a, b :: AddsAngles(t, a, b)) && (forall a :: OnCircle(t, a)) && (forall a :: NearZero(t, a))
  }

  // ----- one function, one step -----------------------------------------------------------------------

  /** A value moves by the slope's share, and at most this much more. */
  predicate Steps(from: real, to: real, share: real, bound: real) {
    Abs(to - from - share) <= bound
  }

  lemma ScaledWithin(k: real, x: real, bound: real, product: real)
    requires -1.0 <= k <= 1.0 && Abs(x) <= bound && product == k * x
    ensures Abs(product) <= bound
  {
    var m := Abs(k);
    assert 0.0 <= m <= 1.0;
    assert Abs(product) == m * Abs(x);
    assert m * Abs(x) <= Abs(x);
  }

  lemma DifferenceWithin(k: real, x: real, y: real, bound: real, kx: real, ky: real)
    requires -1.0 <= k <= 1.0 && Abs(x - y) <= bound && kx == k * x && ky == k * y
    ensures Abs(kx - ky) <= bound
  {
    assert k * (x - y) == kx - ky;
    ScaledWithin(k, x - y, bound, kx - ky);
  }

  lemma TwoWithin(x: real, y: real, z: real, w: real, a: real, b: real)
    requires Abs(x - y) <= a && Abs(z - w) <= b
    ensures Abs(x + z - y - w) <= a + b
  {}

  /** k cos a + l sin a against its value k at angle zero and its slope l there: within a square, and within the angle. */
  lemma Turned(t: Trig, k: real, l: real, a: real, kca: real, lsa: real, la: real, square: real, to: real)
    requires -1.0 <= k <= 1.0 && -1.0 <= l <= 1.0 && NearZero(t, a)
    requires kca == k * t.cos(a) && lsa == l * t.sin(a) && la == l * a && square == a * a && to == kca + lsa
    ensures Steps(k, to, la, square) && Abs(to - k) <= 2.0 * Abs(a)
  {
    var sa, ca := t.sin(a), t.cos(a);
    DifferenceWithin(k, ca, 1.0, square / 2.0, kca, k);
    DifferenceWithin(l, sa, a, square / 2.0, lsa, la);
    DifferenceWithin(k, ca, 1.0, Abs(a), kca, k);
    ScaledWithin(l, sa, Abs(a), lsa);
    hide NearZero;
    TwoWithin(kca, k, lsa, la, square / 2.0, square / 2.0);
    TwoWithin(kca, k, lsa, 0.0, Abs(a), Abs(a));
  }

  /** What is used of the functions at an angle x and a step a. */
  lemma AtStep(t: Trig, x: real, a: real)
    requires Circular(t)
    ensures t.sin(x + a) == t.sin(x) * t.cos(a) + t.cos(x) * t.sin(a)
    ensures t.cos(x + a) == t.cos(x) * t.cos(a) - t.sin(x) * t.sin(a)
    ensures OnCircle(t, x) && OnCircle(t, x + a) && NearZero(t, a)
  {
    assert AddsAngles(t, x, a);
    hide OnCircle, NearZero, Abs;
  }

  lemma SinStep(t: Trig, x: real, a: real, slope: real, square: real)
    requires Circular(t) && slope == t.cos(x) * a && square == a * a
    ensures Steps(t.sin(x), t.sin(x + a), slope, square)
  {
    hide Circular, NearZero;
    AtStep(t, x, a);
    var s, c := t.sin(x), t.cos(x);
    hide Steps, Abs, OnCircle;
    Turned(t, s, c, a, s * t.cos(a), c * t.sin(a), slope, square, t.sin(x + a));
  }

  lemma InRange(t: Trig, x: real)
    requires Circular(t)
    ensures -1.0 <= t.sin(x) <= 1.0 && -1.0 <= t.cos(x) <= 1.0
  {
    assert OnCircle(t, x);
  }

  lemma Opposite(s: real, y: real)
    ensures -s * y == -(s * y)
  {}

  lemma CosStep(t: Trig, x: real, a: real, slope: real, square: real)
    requires Circular(t) && slope == -(t.sin(x) * a) && square == a * a
    ensures Steps(t.cos(x), t.cos(x + a), slope, square)
    ensures Abs(t.cos(x + a) - t.cos(x)) <= 2.0 * Abs(a)
  {
    hide Circular, NearZero;
    AtStep(t, x, a);
    var s, c := t.sin(x), t.cos(x);
    var l := -s;
    Opposite(s, t.sin(a));
    Opposite(s, a);
    hide Steps, Abs, OnCircle;
    Turned(t, c, l, a, c * t.cos(a), l * t.sin(a), slope, square, t.cos(x + a));
  }

  lemma SquareOfSum(a: real, b: real)
    requires a >= 0.0 && b >= 0.0
    ensures (a + b) * (a + b) == a * a + b * b + 2.0 * (a * b)
  {}

  lemma AbsSquare(a: real)
    ensures Abs(a) * Abs(a) == a * a
  {}

  lemma ShareWithin(k: real, x: real, bound: real)
    requires -1.0 <= k <= 1.0 && Abs(x) <= bound
    ensures Abs(Times(k, x)) <= bound
  {
    ScaledWithin(k, x, bound, k * x);
  }

  lemma Turns(a: real, b: real)
    ensures Times(a, b) == Times(b, a) && Times(-a, b) == -Times(a, b) && Times(a, -b) == -Times(a, b)
  {}

  /** Two factors move, each by its slope and a square: the product moves by the product rule and a square. */
  lemma ProductStep(f: real, f': real, g: real, g': real, a: real, b: real, fb: real, ga: real, aa: real, bb: real)
    requires -1.0 <= f <= 1.0 && -1.0 <= g' <= 1.0 && Abs(fb) <= Abs(b)
    requires Steps(f, f', fb, bb) && Steps(g, g', ga, aa) && Abs(g' - g) <= 2.0 * Abs(a)
    ensures Abs(Times(f', g') - Times(f, g) - (Times(fb, g) + Times(f, ga))) <= aa + 2.0 * Times(Abs(a), Abs(b)) + bb
  {
    hide Times;
    var e, k := f' - f - fb, g' - g - ga;
    ShareWithin(f, k, aa);
    ShareWithin(g', e, bb);
    Turns(g', e);
    Crossed(fb, g' - g, Abs(a), Abs(b));
    Split(f, fb, f', e, g, ga, g', k);
    hide Abs;
    Sums(Times(f, k), Times(fb, g' - g), Times(e, g'), aa, 2.0 * Times(Abs(a), Abs(b)), bb);
  }

  lemma SumOfSquares(a: real, b: real)
    ensures (Abs(a) + Abs(b)) * (Abs(a) + Abs(b)) == a * a + b * b + 2.0 * (Abs(a) * Abs(b))
  {
    SquareOfSum(Abs(a), Abs(b));
    AbsSquare(a);
    AbsSquare(b);
  }

  lemma Sums(x: real, y: real, z: real, a: real, b: real, c: real)
    requires Abs(x) <= a && Abs(y) <= b && Abs(z) <= c
    ensures Abs(x + y + z) <= a + b + c
  {}

  lemma Crossed(fb: real, x: real, a: real, b: real)
    requires Abs(fb) <= b && Abs(x) <= 2.0 * a && a >= 0.0
    ensures Abs(Times(fb, x)) <= 2.0 * Times(a, b)
  {
    var m, n, product := Abs(fb), Abs(x), fb * x;
    assert Abs(product) == m * n;
    assert m * n <= b * n && b * n <= b * (2.0 * a);
  }

  lemma Split(f: real, fb: real, f': real, e: real, g: real, ga: real, g': real, k: real)
    requires f' == f + fb + e && g' == g + ga + k
    ensures Times(f', g') - Times(f, g) - (Times(fb, g) + Times(f, ga)) == Times(f, k) + Times(fb, g' - g) + Times(e, g')
  {
    assert f' * g' == f * g' + fb * g' + e * g';
    assert f * g' == f * g + f * ga + f * k;
    assert fb * g' == fb * g + fb * (g' - g);
  }

  // ----- the channels -------------------------------------------------------------------------------

  /** The slope of a channel's gravity term in pitch. */
  function PitchSlope(d: EkfDesign, x: StateVec, channel: nat): real {
    var theta, phi, g, sin, cos := x[PITCH], x[ROLL], d.gravity, d.trig.sin, d.trig.cos;
    if channel == ACCEL_X then g * (1.0 - cos(theta))
    else if channel == ACCEL_Y then -(g * sin(phi) * sin(theta))
    else if channel == ACCEL_Z then -(g * cos(phi) * sin(theta))
    else 0.0
  }

  /** The slope of a channel's gravity term in roll. */
  function RollSlope(d: EkfDesign, x: StateVec, channel: nat): real {
    var theta, phi, g, sin, cos := x[PITCH], x[ROLL], d.gravity, d.trig.sin, d.trig.cos;
    if channel == ACCEL_Y then g * (cos(phi) * cos(theta) - 1.0)
    else if channel == ACCEL_Z then -(g * sin(phi) * cos(theta))
    else 0.0
  }

  lemma {:induction false} TwoUpdates(row: StateVec, p: real, r: real, v: StateVec)
    ensures Dot(row[PITCH := row[PITCH] + p][ROLL := row[ROLL] + r], v) == Dot(row, v) + p * v[PITCH] + r * v[ROLL]
  {
    DotUpdate(row, PITCH, p, v);
    DotUpdate(row[PITCH := row[PITCH] + p], ROLL, r, v);
    hide Dot;
  }

  /** The coded row acts like the coded measurement row and the two slopes. */
  lemma {:induction false} RowActs(d: EkfDesign, x: StateVec, channel: nat, v: StateVec)
    requires d.WellFormed() && channel < CHANNELS
    ensures Dot(JacobianRow(d, x, channel), v)
         == Dot(d.measurement.c[channel], v) + Times(PitchSlope(d, x, channel), v[PITCH]) + Times(RollSlope(d, x, channel), v[ROLL])
  {
    var row, p, r := d.measurement.c[channel], PitchSlope(d, x, channel), RollSlope(d, x, channel);
    var next: Vec := JacobianRow(d, x, channel);
    var other: Vec := row[PITCH := row[PITCH] + p][ROLL := row[ROLL] + r];
    forall i | 0 <= i < STATES ensures next[i] == other[i] {}
    assert next == other;
    TwoUpdates(row, p, r, v);
    hide Dot, JacobianRow;
  }

  /** The gravity term moves by its slopes and at most this much more. */
  ghost predicate MovesBySlopes(d: EkfDesign, x: StateVec, x': StateVec, channel: nat, pa: real, rb: real, bound: real) {
    Within(GravityTerm(d, x, channel), GravityTerm(d, x', channel), pa, rb, bound)
  }

  predicate Within(from: real, to: real, first: real, second: real, bound: real) {
    Abs(to - from - (first + second)) <= bound
  }

  lemma ForwardChannel(d: EkfDesign, x: StateVec, x': StateVec, a: real, b: real, all: real)
    requires d.gravity > 0.0 && Circular(d.trig) && x'[PITCH] == x[PITCH] + a && a * a <= all
    ensures MovesBySlopes(d, x, x', ACCEL_X, Times(PitchSlope(d, x, ACCEL_X), a), Times(RollSlope(d, x, ACCEL_X), b), Times(d.gravity, all))
  {
    hide Circular, Within;
    var t, theta, g := d.trig, x[PITCH], d.gravity;
    var s, s', c, square := t.sin(theta), t.sin(theta + a), t.cos(theta), a * a;
    var ca := c * a;
    SinStep(t, theta, a, ca, square);
    var from, to, p := GravityTerm(d, x, ACCEL_X), GravityTerm(d, x', ACCEL_X), PitchSlope(d, x, ACCEL_X);
    ForwardMoves(g, theta, a, s, s', c, ca, all, from, to, p, Times(p, a), Times(g, all));
    assert Times(RollSlope(d, x, ACCEL_X), b) == 0.0;
  }

  lemma SideChannel(d: EkfDesign, x: StateVec, x': StateVec, a: real, b: real, all: real)
    requires d.gravity > 0.0 && Circular(d.trig) && x'[PITCH] == x[PITCH] + a && x'[ROLL] == x[ROLL] + b
    requires all == Times(a, a) + 2.0 * Times(Abs(a), Abs(b)) + Times(b, b)
    ensures MovesBySlopes(d, x, x', ACCEL_Y, Times(PitchSlope(d, x, ACCEL_Y), a), Times(RollSlope(d, x, ACCEL_Y), b), Times(d.gravity, all))
  {
    var t, theta, phi, g := d.trig, x[PITCH], x[ROLL], d.gravity;
    var s, c, s', st, ct, ct' := t.sin(phi), t.cos(phi), t.sin(phi + b), t.sin(theta), t.cos(theta), t.cos(theta + a);
    SideTerms(d, x);
    SideTerms(d, x');
    hide Circular, NearZero, Within, Abs, Steps, GravityTerm, PitchSlope, RollSlope;
    InRange(t, theta + a);
    InRange(t, phi);
    SinStep(t, phi, b, Times(c, b), Times(b, b));
    CosStep(t, theta, a, -Times(st, a), Times(a, a));
    hide Times, OnCircle;
    SideMoves(g, s, c, s', st, ct, ct', phi, a, b, all);
  }

  lemma SideTerms(d: EkfDesign, x: StateVec)
    ensures var g, sp, cp, st, ct := d.gravity, d.trig.sin(x[ROLL]), d.trig.cos(x[ROLL]), d.trig.sin(x[PITCH]), d.trig.cos(x[PITCH]);
      && GravityTerm(d, x, ACCEL_Y) == Times(g, Times(sp, ct) - x[ROLL])
      && PitchSlope(d, x, ACCEL_Y) == -Times(Times(g, sp), st) && RollSlope(d, x, ACCEL_Y) == Times(g, Times(cp, ct) - 1.0)
  {}

  lemma DownChannel(d: EkfDesign, x: StateVec, x': StateVec, a: real, b: real, all: real)
    requires d.gravity > 0.0 && Circular(d.trig) && x'[PITCH] == x[PITCH] + a && x'[ROLL] == x[ROLL] + b
    requires all == Times(a, a) + 2.0 * Times(Abs(a), Abs(b)) + Times(b, b)
    ensures MovesBySlopes(d, x, x', ACCEL_Z, Times(PitchSlope(d, x, ACCEL_Z), a), Times(RollSlope(d, x, ACCEL_Z), b), Times(d.gravity, all))
  {
    var t, theta, phi, g := d.trig, x[PITCH], x[ROLL], d.gravity;
    var s, c, c', st, ct, ct' := t.sin(phi), t.cos(phi), t.cos(phi + b), t.sin(theta), t.cos(theta), t.cos(theta + a);
    DownTerms(d, x);
    DownTerms(d, x');
    hide Circular, NearZero, Within, Abs, Steps, GravityTerm, PitchSlope, RollSlope;
    InRange(t, theta + a);
    InRange(t, phi);
    CosStep(t, phi, b, -Times(s, b), Times(b, b));
    CosStep(t, theta, a, -Times(st, a), Times(a, a));
    hide Times, OnCircle;
    DownMoves(g, s, c, c', st, ct, ct', a, b, all);
  }

  lemma DownTerms(d: EkfDesign, x: StateVec)
    ensures var g, sp, cp, st, ct := d.gravity, d.trig.sin(x[ROLL]), d.trig.cos(x[ROLL]), d.trig.sin(x[PITCH]), d.trig.cos(x[PITCH]);
      && GravityTerm(d, x, ACCEL_Z) == Times(g, Times(cp, ct) - 1.0)
      && PitchSlope(d, x, ACCEL_Z) == -Times(Times(g, cp), st) && RollSlope(d, x, ACCEL_Z) == -Times(Times(g, sp), ct)
  {}

  lemma GravityMoves(d: EkfDesign, x: StateVec, x': StateVec, channel: nat, a: real, b: real, all: real)
    requires d.gravity > 0.0 && Circular(d.trig) && x'[PITCH] == x[PITCH] + a && x'[ROLL] == x[ROLL] + b
    requires all == (Abs(a) + Abs(b)) * (Abs(a) + Abs(b))
    ensures MovesBySlopes(d, x, x', channel, Times(PitchSlope(d, x, channel), a), Times(RollSlope(d, x, channel), b), Times(d.gravity, all))
  {
    hide Circular, NearZero, Steps;
    assert all == Times(a, a) + 2.0 * Times(Abs(a), Abs(b)) + Times(b, b) && 0.0 <= a * a <= all by { SumOfSquares(a, b); }
    if channel == ACCEL_X { hide *; ForwardChannel(d, x, x', a, b, all); }
    else if channel == ACCEL_Y { hide *; SideChannel(d, x, x', a, b, all); }
    else if channel == ACCEL_Z { hide *; DownChannel(d, x, x', a, b, all); }
    else {
      assert Times(d.gravity, all) >= 0.0;
      assert Times(PitchSlope(d, x, channel), a) == 0.0 && Times(RollSlope(d, x, channel), b) == 0.0;
    }
  }

  /** The nonlinear measurement after the state has moved by v: the coded row's share of v, and no more besides
      than gravity times the square of the two angles moved. */
  lemma {:induction false} JacobianIsFirstOrder(d: EkfDesign, x: StateVec, u: InputVec, v: StateVec, channel: nat)
    requires d.WellFormed() && Circular(d.trig) && channel < CHANNELS
    ensures var angles := Abs(v[PITCH]) + Abs(v[ROLL]);
      Abs(NonlinearMeasurement(d, Add(x, v), u)[channel] - NonlinearMeasurement(d, x, u)[channel] - Dot(JacobianRow(d, x, channel), v))
      <= d.gravity * (angles * angles)
  {
    hide Circular, GravityTerm, PitchSlope, RollSlope, JacobianRow;
    var angles := Abs(v[PITCH]) + Abs(v[ROLL]);
    var all := angles * angles;
    GravityMoves(d, x, Add(x, v), channel, v[PITCH], v[ROLL], all);
    RowActs(d, x, channel, v);
    DotAdd(d.measurement.c[channel], x, v);
    hide Dot;
    assert Times(d.gravity, all) == d.gravity * (angles * angles);
    hide Times;
  }

  lemma WeightedWithin(g: real, x: real, bound: real, gx: real)
    requires g > 0.0 && Abs(x) <= bound && gx == g * x
    ensures Abs(gx) <= g * bound
  {
    assert Abs(gx) == g * Abs(x);
  }

  lemma ForwardMoves(g: real, theta: real, a: real, s: real, s': real, c: real, ca: real, all: real,
                     from: real, to: real, p: real, pa: real, bound: real)
    requires g > 0.0 && ca == c * a && Steps(s, s', ca, all) && pa == p * a && bound == g * all
    requires from == g * (theta - s) && to == g * (theta + a - s') && p == g * (1.0 - c)
    ensures Within(from, to, pa, 0.0, bound)
  {
    var e := s' - s - ca;
    var ge := g * e;
    assert to - from - pa == -ge by {
      Associates(g, 1.0 - c, a, p, pa);
      Differences(g, theta, a, s, s', from, to);
      Minus(a, c, ca);
    }
    WeightedWithin(g, e, all, ge);
  }

  lemma Minus(a: real, c: real, ca: real)
    requires ca == c * a
    ensures (1.0 - c) * a == a - ca
  {}

  lemma Differences(g: real, theta: real, a: real, s: real, s': real, from: real, to: real)
    requires from == g * (theta - s) && to == g * (theta + a - s')
    ensures to - from == g * (a - (s' - s))
  {}

  lemma Associates(g: real, k: real, a: real, p: real, pa: real)
    requires p == g * k && pa == p * a
    ensures pa == g * (k * a)
  {}

  /** How far a channel moves, gathered under the factor g. */
  lemma Gathered(g: real, e: real, all: real, from: real, to: real, pa: real, rb: real)
    requires g > 0.0 && Abs(e) <= all && to - from - (pa + rb) == Times(g, e)
    ensures Within(from, to, pa, rb, Times(g, all))
  {
    WeightedWithin(g, e, all, g * e);
  }

  lemma SideMoves(g: real, sp: real, cp: real, sp': real, st: real, ct: real, ct': real, phi: real, a: real, b: real, all: real)
    requires g > 0.0 && -1.0 <= sp <= 1.0 && -1.0 <= cp <= 1.0 && -1.0 <= ct' <= 1.0
    requires all == Times(a, a) + 2.0 * Times(Abs(a), Abs(b)) + Times(b, b)
    requires Steps(sp, sp', Times(cp, b), Times(b, b)) && Steps(ct, ct', -Times(st, a), Times(a, a)) && Abs(ct' - ct) <= 2.0 * Abs(a)
    ensures Within(Times(g, Times(sp, ct) - phi), Times(g, Times(sp', ct') - (phi + b)),
                   Times(-Times(Times(g, sp), st), a), Times(Times(g, Times(cp, ct) - 1.0), b), Times(g, all))
  {
    hide Within, Steps, Times;
    var fb, ga := Times(cp, b), -Times(st, a);
    ShareWithin(cp, b, Abs(b));
    ProductStep(sp, sp', ct, ct', a, b, fb, ga, Times(a, a), Times(b, b));
    hide Abs;
    SideGather(g, sp, cp, st, ct, phi, a, b, Times(sp', ct'));
    Gathered(g, Times(sp', ct') - Times(sp, ct) - (Times(fb, ct) + Times(sp, ga)), all,
             Times(g, Times(sp, ct) - phi), Times(g, Times(sp', ct') - (phi + b)),
             Times(-Times(Times(g, sp), st), a), Times(Times(g, Times(cp, ct) - 1.0), b));
  }

  lemma SideGather(g: real, sp: real, cp: real, st: real, ct: real, phi: real, a: real, b: real, moved: real)
    ensures Times(g, moved - (phi + b)) - Times(g, Times(sp, ct) - phi)
            - (Times(-Times(Times(g, sp), st), a) + Times(Times(g, Times(cp, ct) - 1.0), b))
         == Times(g, moved - Times(sp, ct) - (Times(Times(cp, b), ct) + Times(sp, -Times(st, a))))
  {
    var was, k, l := sp * ct, cp * b * ct, sp * -(st * a);
    SlopeOfAngle(g, sp, st, a, -(g * sp * st), -(g * sp * st) * a, -(st * a), l);
    SlopeOfShare(g, cp, ct, b, g * (cp * ct - 1.0), g * (cp * ct - 1.0) * b, cp * b, k);
    SideDifferences(g, moved, was, phi, b, k, l, g * (was - phi), g * (moved - (phi + b)), -(g * sp * st) * a, g * (cp * ct - 1.0) * b);
  }

  lemma SideDifferences(g: real, moved: real, was: real, phi: real, b: real, k: real, l: real, from: real, to: real, pa: real, rb: real)
    requires from == g * (was - phi) && to == g * (moved - (phi + b)) && pa == g * l && rb == g * (k - b)
    ensures to - from - (pa + rb) == g * (moved - was - (k + l))
  {}

  lemma SlopeOfAngle(g: real, f: real, st: real, a: real, p: real, pa: real, sta: real, l: real)
    requires p == -(g * f * st) && pa == p * a && sta == -(st * a) && l == f * sta
    ensures pa == g * l
  {
    var gf := g * f;
    assert p == -(gf * st);
    assert pa == gf * sta;
  }

  lemma SlopeOfShare(g: real, cp: real, ct: real, b: real, r: real, rb: real, cb: real, k: real)
    requires r == g * (cp * ct - 1.0) && rb == r * b && cb == cp * b && k == cb * ct
    ensures rb == g * (k - b)
  {
    var product := cp * ct;
    assert product * b == k;
    assert (product - 1.0) * b == k - b;
    Associates(g, product - 1.0, b, r, rb);
  }

  lemma DownMoves(g: real, sp: real, cp: real, cp': real, st: real, ct: real, ct': real, a: real, b: real, all: real)
    requires g > 0.0 && -1.0 <= sp <= 1.0 && -1.0 <= cp <= 1.0 && -1.0 <= ct' <= 1.0
    requires all == Times(a, a) + 2.0 * Times(Abs(a), Abs(b)) + Times(b, b)
    requires Steps(cp, cp', -Times(sp, b), Times(b, b)) && Steps(ct, ct', -Times(st, a), Times(a, a)) && Abs(ct' - ct) <= 2.0 * Abs(a)
    ensures Within(Times(g, Times(cp, ct) - 1.0), Times(g, Times(cp', ct') - 1.0),
                   Times(-Times(Times(g, cp), st), a), Times(-Times(Times(g, sp), ct), b), Times(g, all))
  {
    hide Within, Steps, Times;
    var fb, ga := -Times(sp, b), -Times(st, a);
    ShareWithin(sp, b, Abs(b));
    ProductStep(cp, cp', ct, ct', a, b, fb, ga, Times(a, a), Times(b, b));
    hide Abs;
    DownGather(g, sp, cp, st, ct, a, b, Times(cp', ct'));
    Gathered(g, Times(cp', ct') - Times(cp, ct) - (Times(fb, ct) + Times(cp, ga)), all,
             Times(g, Times(cp, ct) - 1.0), Times(g, Times(cp', ct') - 1.0),
             Times(-Times(Times(g, cp), st), a), Times(-Times(Times(g, sp), ct), b));
  }

  lemma DownGather(g: real, sp: real, cp: real, st: real, ct: real, a: real, b: real, moved: real)
    ensures Times(g, moved - 1.0) - Times(g, Times(cp, ct) - 1.0)
            - (Times(-Times(Times(g, cp), st), a) + Times(-Times(Times(g, sp), ct), b))
         == Times(g, moved - Times(cp, ct) - (Times(-Times(sp, b), ct) + Times(cp, -Times(st, a))))
  {
    var was, k, l := cp * ct, -(sp * b) * ct, cp * -(st * a);
    SlopeOfAngle(g, cp, st, a, -(g * cp * st), -(g * cp * st) * a, -(st * a), l);
    SlopeOfProduct(g, sp, ct, b, -(g * sp * ct), -(g * sp * ct) * b, -(sp * b), k);
    DownDifferences(g, moved, was, k, l, g * (was - 1.0), g * (moved - 1.0), -(g * cp * st) * a, -(g * sp * ct) * b);
  }

  lemma SlopeOfProduct(g: real, f: real, ct: real, b: real, r: real, rb: real, sb: real, k: real)
    requires r == -(g * f * ct) && rb == r * b && sb == -(f * b) && k == sb * ct
    ensures rb == g * k
  {
    var gc := g * ct;
    assert r == -(gc * f);
    assert rb == gc * sb;
    assert gc * sb == g * k;
  }

  lemma DownDifferences(g: real, moved: real, was: real, k: real, l: real, from: real, to: real, pa: real, rb: real)
    requires from == g * (was - 1.0) && to == g * (moved - 1.0) && pa == g * l && rb == g * k
    ensures to - from - (pa + rb) == g * (moved - was - (k + l))
  {}
}
