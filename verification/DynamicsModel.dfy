/** The stationary-upright balance model: the coded aggregates, linearization and
    certificates, against the mechanics they come from. */
module DynamicsModel {
  import opened Wrappers
  import opened LinearAlgebra
  import opened StateEstimator

  datatype PlantParameters = PlantParameters(
    gravity: real,
    bodyMass: real, bodyHeight: real, bodyRoll: real, bodyPitch: real, bodyYaw: real,
    wheelMass: real, wheelRadius: real, wheelSpin: real,
    reactionMass: real, reactionHeight: real, reactionSpin: real, reactionTransverse: real)

  predicate PhysicallyValid(p: PlantParameters) {
    && p.gravity > 0.0
    && p.bodyMass > 0.0 && p.bodyHeight > 0.0 && p.bodyRoll > 0.0 && p.bodyPitch > 0.0 && p.bodyYaw > 0.0
    && p.wheelMass > 0.0 && p.wheelRadius > 0.0 && p.wheelSpin > 0.0
    && p.reactionMass > 0.0 && p.reactionHeight > 0.0 && p.reactionSpin > 0.0 && p.reactionTransverse > 0.0
  }

  datatype UprightAggregates = UprightAggregates(h: real, s: real, mS: real, jTheta: real, jPhi: real, delta: real)

  predicate AggregatesValid(a: UprightAggregates) {
    a.h > 0.0 && a.s > 0.0 && a.mS > 0.0 && a.jTheta > 0.0 && a.jPhi > 0.0 && a.delta > 0.0
  }

  /** The coded sums, before the final check. */
  function Aggregates(p: PlantParameters): UprightAggregates
    requires PhysicallyValid(p)
  {
    RadiusSquared(p.wheelRadius);
    var h := p.bodyMass * p.bodyHeight + p.reactionMass * p.reactionHeight;
    var s := p.bodyMass * p.bodyHeight * p.bodyHeight + p.reactionMass * p.reactionHeight * p.reactionHeight;
    var mS := p.bodyMass + p.reactionMass + p.wheelMass + p.wheelSpin / (p.wheelRadius * p.wheelRadius);
    var jTheta := s + p.bodyPitch + p.reactionTransverse;
    UprightAggregates(h, s, mS, jTheta, s + p.bodyRoll, mS * jTheta - h * h)
  }

  function UprightAggregatesOf(p: PlantParameters): Option<UprightAggregates> {
    if !PhysicallyValid(p) then None
    else if AggregatesValid(Aggregates(p)) then Some(Aggregates(p)) else None
  }

  lemma RadiusSquared(r: real)
    requires r > 0.0
    ensures r * r > 0.0
  {}

  lemma ProductPositive(a: real, b: real)
    requires a > 0.0 && b > 0.0
    ensures a * b > 0.0
  {}

  lemma ProductOrder(a: real, b: real, c: real, d: real)
    requires 0.0 < a < b && 0.0 < c < d
    ensures a * c < b * d
  {
    assert a * c < b * c < b * d;
  }

  /** Two point masses: the first moment squared is at most mass times second moment. */
  lemma MomentInequality(m: real, a: real, n: real, b: real)
    requires m > 0.0 && n > 0.0
    ensures (m * a + n * b) * (m * a + n * b) <= (m + n) * (m * a * a + n * b * b)
  {
    ProductPositive(m, n);
    var gap := a - b;
    assert gap * gap >= 0.0;
    Nonnegative(m * n, gap * gap);
    calc {
      (m + n) * (m * a * a + n * b * b) - (m * a + n * b) * (m * a + n * b);
      m * n * (a * a) + m * n * (b * b) - 2.0 * (m * n * (a * b));
      m * n * (gap * gap);
    }
  }

  lemma Nonnegative(x: real, y: real)
    requires x >= 0.0 && y >= 0.0
    ensures x * y >= 0.0
  {}

  /** For all positive parameters the pitch determinant is positive, so the aggregates are never refused. */
  lemma AggregatesNeverRefused(p: PlantParameters)
    requires PhysicallyValid(p)
    ensures UprightAggregatesOf(p) == Some(Aggregates(p)) && AggregatesValid(Aggregates(p))
  {
    var a := Aggregates(p);
    var mb, hb, mr, hr := p.bodyMass, p.bodyHeight, p.reactionMass, p.reactionHeight;
    ProductPositive(mb, hb);
    ProductPositive(mr, hr);
    ProductPositive(mb * hb, hb);
    ProductPositive(mr * hr, hr);
    RadiusSquared(p.wheelRadius);
    PositiveQuotient(p.wheelSpin, p.wheelRadius * p.wheelRadius);
    MomentInequality(mb, hb, mr, hr);
    ProductOrder(mb + mr, a.mS, a.s, a.jTheta);
  }

  type Upright = p: PlantParameters | PhysicallyValid(p)
    witness PlantParameters(1.0, 1.0, 1.0, 1.0, 1.0, 1.0, 1.0, 1.0, 1.0, 1.0, 1.0, 1.0, 1.0)

  // ----- the coded linearization ---------------------------------------------------------

  datatype ContinuousLinearPlant = ContinuousLinearPlant(a: Mat, b: Mat)

  /** The coded nonzero entries. */
  datatype Entries = Entries(sTheta: real, thetaTheta: real, phiPhi: real,
                             sDrive: real, thetaDrive: real, phiReaction: real, psiReaction: real)

  function CodedEntries(a: UprightAggregates, g: real, r: real, jR: real): Entries
    requires AggregatesValid(a) && r > 0.0 && jR > 0.0
  {
    Entries(-(a.h * a.h * g) / a.delta, a.h * a.mS * g / a.delta, a.h * g / a.jPhi,
            (a.jTheta / r + a.h) / a.delta, -(a.h / r + a.mS) / a.delta, -1.0 / a.jPhi, 1.0 / jR + 1.0 / a.jPhi)
  }

  function PlantOf(e: Entries): (l: ContinuousLinearPlant)
    ensures IsMat(l.a, STATES, STATES) && IsMat(l.b, STATES, INPUTS)
  {
    ContinuousLinearPlant(
      [[0.0, 1.0, 0.0, 0.0, 0.0, 0.0, 0.0],
       [0.0, 0.0, e.sTheta, 0.0, 0.0, 0.0, 0.0],
       [0.0, 0.0, 0.0, 1.0, 0.0, 0.0, 0.0],
       [0.0, 0.0, e.thetaTheta, 0.0, 0.0, 0.0, 0.0],
       [0.0, 0.0, 0.0, 0.0, 0.0, 1.0, 0.0],
       [0.0, 0.0, 0.0, 0.0, e.phiPhi, 0.0, 0.0],
       [0.0, 0.0, 0.0, 0.0, -e.phiPhi, 0.0, 0.0]],
      [[0.0, 0.0], [e.sDrive, 0.0], [0.0, 0.0], [e.thetaDrive, 0.0],
       [0.0, 0.0], [0.0, e.phiReaction], [0.0, e.psiReaction]])
  }

  function EntriesOf(p: Upright): Entries {
    AggregatesNeverRefused(p);
    CodedEntries(Aggregates(p), p.gravity, p.wheelRadius, p.reactionSpin)
  }

  /** The linearization, refused where the parameters or their aggregates are. */
  function LinearizeStationaryUpright(p: PlantParameters): (l: Option<ContinuousLinearPlant>)
    ensures l.Some? ==> IsMat(l.value.a, STATES, STATES) && IsMat(l.value.b, STATES, INPUTS)
  {
    match UprightAggregatesOf(p)
    case None => None
    case Some(a) => Some(PlantOf(CodedEntries(a, p.gravity, p.wheelRadius, p.reactionSpin)))
  }

  /** Every valid plant has a linearization: the second refusal never happens. */
  lemma LinearizationNeverRefused(p: PlantParameters)
    ensures LinearizeStationaryUpright(p) == if PhysicallyValid(p) then Some(PlantOf(EntriesOf(p))) else None
  {
    hide Aggregates, AggregatesValid, CodedEntries, PlantOf;
    if PhysicallyValid(p) { AggregatesNeverRefused(p); }
  }

  // ----- the mechanics ------------------------------------------------------------------------

  /** Accelerations of the coordinates (s, theta, phi, psi). */
  datatype Accelerations = Accelerations(s: real, theta: real, phi: real, psi: real)

  datatype Forces = Forces(forward: real, pitch: real, roll: real, reaction: real)

  /** The coded generalized forces of the two motor torques. */
  function BalanceGeneralizedForces(p: PlantParameters, drive: real, reaction: real): Option<Forces> {
    if !PhysicallyValid(p) then None else Some(Forces(drive / p.wheelRadius, -drive, 0.0, reaction))
  }

  /** Kinetic energy at upright; the wheel turns with the body and relative to it. */
  function KineticEnergy(a: UprightAggregates, jR: real, s: real, theta: real, phi: real, psi: real): real {
    0.5 * a.mS * s * s + a.h * s * theta + 0.5 * a.jTheta * theta * theta
    + 0.5 * a.jPhi * phi * phi + 0.5 * jR * (phi + psi) * (phi + psi)
  }

  /** M(0) applied to the accelerations. */
  function InertialForces(a: UprightAggregates, jR: real, q: Accelerations): Forces {
    Forces(a.mS * q.s + a.h * q.theta, a.h * q.s + a.jTheta * q.theta,
           (a.jPhi + jR) * q.phi + jR * q.psi, jR * q.phi + jR * q.psi)
  }

  /** M(0) is the matrix of the kinetic energy: twice the energy is velocity against M velocity. */
  lemma InertiaIsOfEnergy(a: UprightAggregates, jR: real, v: Accelerations)
    ensures var f := InertialForces(a, jR, v);
      2.0 * KineticEnergy(a, jR, v.s, v.theta, v.phi, v.psi)
        == v.s * f.forward + v.theta * f.pitch + v.phi * f.roll + v.psi * f.reaction
  {
    assert jR * (v.phi + v.psi) * (v.phi + v.psi)
        == v.phi * (jR * v.phi) + v.phi * (jR * v.psi) + v.psi * (jR * v.phi) + v.psi * (jR * v.psi);
  }

  /** A rigid body carried at a height over the wheel's axle, rocking in pitch and roll with the robot. */
  function CarriedEnergy(mass: real, height: real, pitchInertia: real, rollInertia: real, s: real, theta: real, phi: real): real {
    var forward, sideways := s + height * theta, height * phi;
    0.5 * mass * (forward * forward) + 0.5 * mass * (sideways * sideways)
    + 0.5 * pitchInertia * (theta * theta) + 0.5 * rollInertia * (phi * phi)
  }

  /** A wheel that rolls without slipping. */
  function RollingEnergy(mass: real, spin: real, radius: real, s: real): real
    requires radius > 0.0
  {
    0.5 * mass * (s * s) + 0.5 * spin * ((s / radius) * (s / radius))
  }

  /** A wheel spinning about its own axle. */
  function SpinningEnergy(inertia: real, rate: real): real { 0.5 * inertia * (rate * rate) }

  /** The aggregates are those of the parts: with them the energy of the model is the energy of body, reaction
      wheel and drive wheel, the reaction wheel spinning with the body and relative to it. */
  lemma EnergyOfParts(p: Upright, s: real, theta: real, phi: real, psi: real)
    ensures KineticEnergy(Aggregates(p), p.reactionSpin, s, theta, phi, psi)
         == CarriedEnergy(p.bodyMass, p.bodyHeight, p.bodyPitch, p.bodyRoll, s, theta, phi)
            + CarriedEnergy(p.reactionMass, p.reactionHeight, p.reactionTransverse, 0.0, s, theta, phi)
            + SpinningEnergy(p.reactionSpin, phi + psi)
            + RollingEnergy(p.wheelMass, p.wheelSpin, p.wheelRadius, s)
  {
    RadiusPositive(p);
    hide *;
    var a := Aggregates(p);
    var ss, st, tt, pp := Times(s, s), Times(s, theta), Times(theta, theta), Times(phi, phi);
    var body, wheel := Times(p.bodyMass, p.bodyHeight), Times(p.reactionMass, p.reactionHeight);
    var body2, wheel2 := Times(body, p.bodyHeight), Times(wheel, p.reactionHeight);
    var added := AddedMass(p.wheelSpin, p.wheelRadius);
    AggregatesAre(p);
    CarriedSum(p.bodyMass, p.bodyHeight, p.bodyPitch, p.bodyRoll, s, theta, phi);
    CarriedSum(p.reactionMass, p.reactionHeight, p.reactionTransverse, 0.0, s, theta, phi);
    RollingSum(p.wheelMass, p.wheelSpin, p.wheelRadius, s);
    ModelSum(a, p.reactionSpin, s, theta, phi, psi);
    Shared(p.bodyMass, p.reactionMass, p.wheelMass, added, a.mS, ss);
    Shared(body, wheel, 0.0, 0.0, a.h, st);
    Shared(body2, wheel2, p.bodyPitch, p.reactionTransverse, a.jTheta, tt);
    Shared(body2, wheel2, p.bodyRoll, 0.0, a.jPhi, pp);
    NoTimes(st);
    NoTimes(pp);
  }

  lemma NoTimes(x: real)
    ensures Times(0.0, x) == 0.0
  {}

  lemma RadiusPositive(p: Upright)
    ensures p.wheelRadius > 0.0
  {}

  /** What a wheel's spin adds to the mass it rolls under. */
  function AddedMass(spin: real, r: real): real
    requires r > 0.0
  {
    RadiusSquared(r);
    spin / (r * r)
  }

  lemma AggregatesAre(p: Upright)
    requires p.wheelRadius > 0.0
    ensures var a := Aggregates(p);
      var body, wheel := Times(p.bodyMass, p.bodyHeight), Times(p.reactionMass, p.reactionHeight);
      var body2, wheel2 := Times(body, p.bodyHeight), Times(wheel, p.reactionHeight);
      && a.h == body + wheel && a.mS == p.bodyMass + p.reactionMass + p.wheelMass + AddedMass(p.wheelSpin, p.wheelRadius)
      && a.jTheta == body2 + wheel2 + p.bodyPitch + p.reactionTransverse && a.jPhi == body2 + wheel2 + p.bodyRoll
  {}

  /** The sum of four, times x. */
  lemma Shared(a: real, b: real, c: real, d: real, sum: real, x: real)
    requires sum == a + b + c + d
    ensures Times(sum, x) == Times(a, x) + Times(b, x) + Times(c, x) + Times(d, x)
  {}

  lemma ModelSum(a: UprightAggregates, jR: real, s: real, theta: real, phi: real, psi: real)
    ensures KineticEnergy(a, jR, s, theta, phi, psi)
         == 0.5 * Times(a.mS, Times(s, s)) + Times(a.h, Times(s, theta)) + 0.5 * Times(a.jTheta, Times(theta, theta))
            + 0.5 * Times(a.jPhi, Times(phi, phi)) + SpinningEnergy(jR, phi + psi)
  {
    var ss, st, tt, pp, rate := s * s, s * theta, theta * theta, phi * phi, phi + psi;
    assert 0.5 * a.mS * s * s == 0.5 * (a.mS * ss) && a.h * s * theta == a.h * st;
    assert 0.5 * a.jTheta * theta * theta == 0.5 * (a.jTheta * tt) && 0.5 * a.jPhi * phi * phi == 0.5 * (a.jPhi * pp);
    assert 0.5 * jR * rate * rate == 0.5 * jR * (rate * rate);
  }

  lemma Associates(m: real, h: real, x: real, mh: real, hx: real)
    requires mh == m * h && hx == h * x
    ensures m * hx == mh * x
  {}

  lemma CarriedSum(m: real, h: real, jPitch: real, jRoll: real, s: real, theta: real, phi: real)
    ensures var mh := Times(m, h);
      var ss, st, tt, pp := Times(s, s), Times(s, theta), Times(theta, theta), Times(phi, phi);
      CarriedEnergy(m, h, jPitch, jRoll, s, theta, phi)
        == 0.5 * Times(m, ss) + Times(mh, st) + 0.5 * Times(Times(mh, h), tt) + 0.5 * Times(Times(mh, h), pp)
           + 0.5 * Times(jPitch, tt) + 0.5 * Times(jRoll, pp)
  {
    CarriedTerms(m, h, jPitch, jRoll, s, theta, phi, m * h, m * h * h, s * s, s * theta, theta * theta, phi * phi);
  }

  lemma CarriedTerms(m: real, h: real, jPitch: real, jRoll: real, s: real, theta: real, phi: real,
                     mh: real, mhh: real, ss: real, st: real, tt: real, pp: real)
    requires mh == m * h && mhh == mh * h && ss == s * s && st == s * theta && tt == theta * theta && pp == phi * phi
    ensures CarriedEnergy(m, h, jPitch, jRoll, s, theta, phi)
         == 0.5 * (m * ss) + mh * st + 0.5 * (mhh * tt) + 0.5 * (mhh * pp) + 0.5 * (jPitch * tt) + 0.5 * (jRoll * pp)
  {
    var forward, sideways := s + h * theta, h * phi;
    var hst, htt, hpp := h * st, h * tt, h * pp;
    var hhtt, hhpp := h * htt, h * hpp;
    assert forward * forward == ss + 2.0 * hst + hhtt;
    assert sideways * sideways == hhpp;
    Associates(m, h, st, mh, hst);
    Associates(m, h, htt, mh, hhtt);
    Associates(mh, h, tt, mhh, htt);
    Associates(m, h, hpp, mh, hhpp);
    Associates(mh, h, pp, mhh, hpp);
    Halves(m, forward * forward, ss, hst, hhtt);
  }

  lemma Halves(m: real, square: real, ss: real, hst: real, hhtt: real)
    requires square == ss + 2.0 * hst + hhtt
    ensures 0.5 * m * square == 0.5 * (m * ss) + m * hst + 0.5 * (m * hhtt)
  {}

  lemma RollingSum(m: real, spin: real, r: real, s: real)
    requires r > 0.0
    ensures RollingEnergy(m, spin, r, s) == 0.5 * Times(m, Times(s, s)) + 0.5 * Times(AddedMass(spin, r), Times(s, s))
  {
    RadiusSquared(r);
    RollingTerm(spin, r, s, s * s, spin / (r * r));
  }

  lemma RollingTerm(spin: real, r: real, s: real, ss: real, added: real)
    requires r > 0.0 && r * r > 0.0 && ss == s * s && added == spin / (r * r)
    ensures added * ss == spin * ((s / r) * (s / r))
  {
    var q := s / r;
    assert s == q * r;
    assert ss == q * q * (r * r);
    assert spin == added * (r * r);
  }

  /** Gravity's stiffness at upright plus the generalized forces. */
  function AppliedForces(p: Upright, theta: real, phi: real, f: Forces): Forces {
    var hg := Aggregates(p).h * p.gravity;
    Forces(f.forward, hg * theta + f.pitch, hg * phi + f.roll, f.reaction)
  }

  /** How far a body at this height comes down when the robot leans this far, to second order. */
  function Drop(height: real, theta: real, phi: real): real {
    height * (theta * theta + phi * phi) / 2.0
  }

  /** What a body's weight gives up on the way down. */
  function WeightLost(mass: real, g: real, height: real, theta: real, phi: real): real {
    mass * g * Drop(height, theta, phi)
  }

  /** The work of these forces over a lean they grow with, twice over. */
  function LeanWork(f: Forces, theta: real, phi: real): real {
    f.pitch * theta + f.roll * phi
  }

  /** Gravity alone drives the lean on, and over a lean it grows with gives up what the two bodies come down by. */
  lemma GravityPullsDown(p: Upright, theta: real, phi: real)
    ensures LeanWork(AppliedForces(p, theta, phi, Forces(0.0, 0.0, 0.0, 0.0)), theta, phi)
         == 2.0 * WeightLost(p.bodyMass, p.gravity, p.bodyHeight, theta, phi)
            + 2.0 * WeightLost(p.reactionMass, p.gravity, p.reactionHeight, theta, phi)
  {
    RadiusPositive(p);
    hide *;
    var h, body, wheel := Aggregates(p).h, Times(p.bodyMass, p.bodyHeight), Times(p.reactionMass, p.reactionHeight);
    var lean := Times(p.gravity, Times(theta, theta) + Times(phi, phi));
    AggregatesAre(p);
    LeanWorkIs(p, theta, phi);
    Shared(body, wheel, 0.0, 0.0, h, lean);
    NoTimes(lean);
    Falls(p.bodyMass, p.bodyHeight, theta, phi, p.gravity);
    Falls(p.reactionMass, p.reactionHeight, theta, phi, p.gravity);
  }

  lemma LeanWorkIs(p: Upright, theta: real, phi: real)
    ensures LeanWork(AppliedForces(p, theta, phi, Forces(0.0, 0.0, 0.0, 0.0)), theta, phi)
         == Times(Aggregates(p).h, Times(p.gravity, Times(theta, theta) + Times(phi, phi)))
  {
    var h, g := Aggregates(p).h, p.gravity;
    hide Aggregates;
    Leans(h, g, theta, phi, h * g, theta * theta + phi * phi);
  }

  lemma Leans(h: real, g: real, theta: real, phi: real, hg: real, square: real)
    requires square == theta * theta + phi * phi && hg == h * g
    ensures (hg * theta + 0.0) * theta + (hg * phi + 0.0) * phi == h * (g * square)
  {
    assert hg * theta * theta == hg * (theta * theta) && hg * phi * phi == hg * (phi * phi);
    assert hg * square == h * (g * square);
  }

  lemma Falls(m: real, h: real, theta: real, phi: real, g: real)
    ensures 2.0 * WeightLost(m, g, h, theta, phi) == Times(Times(m, h), Times(g, Times(theta, theta) + Times(phi, phi)))
  {
    var square := theta * theta + phi * phi;
    FallTerms(m, h, g, square, m * g, m * h, g * square, h * square);
  }

  lemma FallTerms(m: real, h: real, g: real, square: real, mg: real, mh: real, gs: real, hs: real)
    requires mg == m * g && mh == m * h && gs == g * square && hs == h * square
    ensures 2.0 * (mg * (hs / 2.0)) == mh * gs
  {
    assert mg * hs == mh * gs;
  }

  /** The coded accelerations of a state and input. */
  function CodedAccelerations(e: Entries, theta: real, phi: real, drive: real, reaction: real): Accelerations {
    Accelerations(Mix(e.sTheta, theta, e.sDrive, drive), Mix(e.thetaTheta, theta, e.thetaDrive, drive),
                  Mix(e.phiPhi, phi, e.phiReaction, reaction), Mix(-e.phiPhi, phi, e.psiReaction, reaction))
  }

  function Mix(k: real, a: real, l: real, b: real): real { k * a + l * b }

  lemma {:induction false} Dot7(u: Vec, x: Vec)
    requires |u| == |x| == 7
    ensures Dot(u, x) == u[0] * x[0] + u[1] * x[1] + u[2] * x[2] + u[3] * x[3] + u[4] * x[4] + u[5] * x[5] + u[6] * x[6]
  {
    assert Dot(u[..0], x[..0]) == 0.0;
    hide Dot;
    assert u[..7] == u && x[..7] == x;
    DotLast(u, x, 7);
    DotLast(u, x, 6);
    DotLast(u, x, 5);
    DotLast(u, x, 4);
    DotLast(u, x, 3);
    DotLast(u, x, 2);
    DotLast(u, x, 1);
  }

  lemma DotLast(u: Vec, x: Vec, n: nat)
    requires 0 < n <= |u| == |x|
    ensures Dot(u[..n], x[..n]) == Dot(u[..n - 1], x[..n - 1]) + u[n - 1] * x[n - 1]
  {
    assert u[..n][..n - 1] == u[..n - 1] && x[..n][..n - 1] == x[..n - 1];
  }

  /** The rows of the coded matrices are the coded accelerations. */
  lemma {:induction false} RowsAreAccelerations(e: Entries, x: StateVec, u: InputVec)
    ensures var l := PlantOf(e);
      var q := CodedAccelerations(e, x[2], x[4], u[0], u[1]);
      && Dot(l.a[1], x) + Dot(l.b[1], u) == q.s && Dot(l.a[3], x) + Dot(l.b[3], u) == q.theta
      && Dot(l.a[5], x) + Dot(l.b[5], u) == q.phi && Dot(l.a[6], x) + Dot(l.b[6], u) == q.psi
      && Dot(l.a[0], x) == x[1] && Dot(l.a[2], x) == x[3] && Dot(l.a[4], x) == x[5]
  {
    var l := PlantOf(e);
    RowOfOne(x, 1);
    RowOfOne(x, 3);
    RowOfOne(x, 5);
    RowIs(e.sTheta, 2, x);
    RowIs(e.thetaTheta, 2, x);
    RowIs(e.phiPhi, 4, x);
    RowIs(-e.phiPhi, 4, x);
    InputRowIs(e.sDrive, 0, u);
    InputRowIs(e.thetaDrive, 0, u);
    InputRowIs(e.phiReaction, 1, u);
    InputRowIs(e.psiReaction, 1, u);
    hide Dot;
  }

  /** A row with one entry k at place i. */
  lemma RowIs(k: real, i: nat, x: StateVec)
    requires i == 2 || i == 4
    ensures i == 2 ==> Dot([0.0, 0.0, k, 0.0, 0.0, 0.0, 0.0], x) == k * x[2]
    ensures i == 4 ==> Dot([0.0, 0.0, 0.0, 0.0, k, 0.0, 0.0], x) == k * x[4]
  {
    hide Dot;
    if i == 2 { Dot7([0.0, 0.0, k, 0.0, 0.0, 0.0, 0.0], x); } else { Dot7([0.0, 0.0, 0.0, 0.0, k, 0.0, 0.0], x); }
  }

  lemma RowOfOne(x: StateVec, i: nat)
    requires i == 1 || i == 3 || i == 5
    ensures i == 1 ==> Dot([0.0, 1.0, 0.0, 0.0, 0.0, 0.0, 0.0], x) == x[1]
    ensures i == 3 ==> Dot([0.0, 0.0, 0.0, 1.0, 0.0, 0.0, 0.0], x) == x[3]
    ensures i == 5 ==> Dot([0.0, 0.0, 0.0, 0.0, 0.0, 1.0, 0.0], x) == x[5]
  {
    hide Dot;
    if i == 1 { Dot7([0.0, 1.0, 0.0, 0.0, 0.0, 0.0, 0.0], x); }
    else if i == 3 { Dot7([0.0, 0.0, 0.0, 1.0, 0.0, 0.0, 0.0], x); }
    else { Dot7([0.0, 0.0, 0.0, 0.0, 0.0, 1.0, 0.0], x); }
  }

  lemma InputRowIs(k: real, i: nat, u: InputVec)
    requires i < INPUTS
    ensures i == 0 ==> Dot([k, 0.0], u) == k * u[0]
    ensures i == 1 ==> Dot([0.0, k], u) == k * u[1]
  {
    hide Dot;
    if i == 0 { Dot2([k, 0.0], u); } else { Dot2([0.0, k], u); }
  }

  lemma {:induction false} Dot2(u: Vec, x: Vec)
    requires |u| == |x| == 2
    ensures Dot(u, x) == u[0] * x[0] + u[1] * x[1]
  {
    DotLast(u, x, 2);
    DotLast(u, x, 1);
    assert u[..2] == u && x[..2] == x;
  }

  // ----- the coded accelerations are the solution ----------------------------------------------------

  /** m x + h y = f and h x + j y = t. */
  predicate PitchEquations(m: real, h: real, j: real, f: real, t: real, x: real, y: real) {
    m * x + h * y == f && h * x + j * y == t
  }

  /** (j + jR) x + jR y = w and jR x + jR y = t. */
  predicate RollEquations(j: real, jR: real, w: real, t: real, x: real, y: real) {
    (j + jR) * x + jR * y == w && jR * x + jR * y == t
  }

  predicate Solves(k: real, x: real, v: real) { k * x == v }

  lemma SolvesOnce(k: real, x: real, c: real, v: real)
    requires k != 0.0 && Solves(k, c, v)
    ensures Solves(k, x, v) <==> x == c
  {
    if k * x == v { CancelFactor(k, x, c); }
  }

  /** Two linear equations with a nonzero determinant have one solution. */
  lemma TwoByTwo(m: real, h: real, j: real, x: real, y: real, f: real, t: real, delta: real, v: real, w: real)
    requires delta == m * j - h * h && delta != 0.0 && v == j * f - h * t && w == m * t - h * f
    ensures PitchEquations(m, h, j, f, t, x, y) <==> Solves(delta, x, v) && Solves(delta, y, w)
  {
    if m * x + h * y == f && h * x + j * y == t {
      assert delta * x == j * (m * x + h * y) - h * (h * x + j * y);
      assert delta * y == m * (h * x + j * y) - h * (m * x + h * y);
    }
    if delta * x == v && delta * y == w {
      Recombined(m, h, j, delta, delta * x, delta * y, x, y, f, t);
      CancelFactor(delta, m * x + h * y, f);
      CancelFactor(delta, h * x + j * y, t);
    }
  }

  lemma Recombined(m: real, h: real, j: real, delta: real, dx: real, dy: real, x: real, y: real, f: real, t: real)
    requires delta == m * j - h * h && dx == j * f - h * t && dy == m * t - h * f && dx == delta * x && dy == delta * y
    ensures delta * (m * x + h * y) == delta * f && delta * (h * x + j * y) == delta * t
  {
    assert delta * (m * x + h * y) == m * dx + h * dy;
    assert delta * (h * x + j * y) == h * dx + j * dy;
  }

  lemma CancelFactor(k: real, x: real, y: real)
    requires k != 0.0 && k * x == k * y
    ensures x == y
  {
    assert k * (x - y) == 0.0;
  }

  lemma TimesQuotient(x: real, k: real)
    requires k != 0.0
    ensures k * (x / k) == x
  {}

  lemma QuotientScales(k: real, x: real, r: real)
    requires r != 0.0
    ensures k * (x / r) == k / r * x
  {}

  lemma NegatedQuotient(x: real, k: real)
    requires k != 0.0
    ensures -x / k == -(x / k)
  {}

  /** The pitch entries, cleared of their denominators. */
  predicate PitchEntriesFit(a: UprightAggregates, e: Entries, g: real, r: real)
    requires r != 0.0
  {
    && a.delta * e.sTheta == -(a.h * a.h * g) && a.delta * e.thetaTheta == a.h * a.mS * g
    && a.delta * e.sDrive == a.jTheta / r + a.h && a.delta * e.thetaDrive == -(a.h / r + a.mS)
  }

  /** The roll entries, cleared of their denominators. */
  predicate RollEntriesFit(a: UprightAggregates, e: Entries, g: real, jR: real) {
    && a.jPhi * e.phiReaction == -1.0 && jR * (e.psiReaction + e.phiReaction) == 1.0 && a.jPhi * e.phiPhi == a.h * g
  }

  lemma PitchEntries(a: UprightAggregates, g: real, r: real, jR: real)
    requires AggregatesValid(a) && r > 0.0 && jR > 0.0
    ensures PitchEntriesFit(a, CodedEntries(a, g, r, jR), g, r)
  {
    TimesQuotient(-(a.h * a.h * g), a.delta);
    TimesQuotient(a.h * a.mS * g, a.delta);
    TimesQuotient(a.jTheta / r + a.h, a.delta);
    TimesQuotient(-(a.h / r + a.mS), a.delta);
  }

  lemma RollEntries(a: UprightAggregates, g: real, r: real, jR: real)
    requires AggregatesValid(a) && r > 0.0 && jR > 0.0
    ensures RollEntriesFit(a, CodedEntries(a, g, r, jR), g, jR)
  {
    var e, inv, invR := CodedEntries(a, g, r, jR), 1.0 / a.jPhi, 1.0 / jR;
    assert e.phiReaction == -inv by { NegatedQuotient(1.0, a.jPhi); }
    assert e.psiReaction == invR + inv;
    var quotient := a.h * g / a.jPhi;
    assert e.phiPhi == quotient;
    TimesQuotient(a.h * g, a.jPhi);
    TimesQuotient(1.0, a.jPhi);
    TimesQuotient(1.0, jR);
    hide CodedEntries, AggregatesValid;
    RollScalars(a.jPhi, jR, inv, invR, e.phiReaction, e.psiReaction);
  }

  lemma RollScalars(j: real, jR: real, inv: real, invR: real, x: real, y: real)
    requires j * inv == 1.0 && jR * invR == 1.0 && x == -inv && y == invR + inv
    ensures j * x == -1.0 && jR * (y + x) == 1.0
  {}

  /** The determinant times the coded pitch accelerations. */
  lemma PitchForces(a: UprightAggregates, e: Entries, g: real, r: real, theta: real, drive: real, f: real, t: real, v: real, w: real)
    requires r > 0.0 && PitchEntriesFit(a, e, g, r) && f == drive / r && t == a.h * g * theta + -drive
    requires v == a.jTheta * f - a.h * t && w == a.mS * t - a.h * f
    ensures Solves(a.delta, Mix(e.sTheta, theta, e.sDrive, drive), v)
    ensures Solves(a.delta, Mix(e.thetaTheta, theta, e.thetaDrive, drive), w)
  {
    QuotientScales(a.jTheta, drive, r);
    QuotientScales(a.h, drive, r);
    PitchForceScalars(a.h, a.mS, a.jTheta, g, a.delta, e.sTheta, e.thetaTheta, e.sDrive, e.thetaDrive, theta, drive,
                      a.jTheta / r, a.h / r, a.jTheta * f, a.h * f, t);
  }

  lemma PitchForceScalars(h: real, m: real, j: real, g: real, d: real, p: real, q: real, x: real, y: real, theta: real, drive: real,
                          jr: real, hr: real, jf: real, hf: real, t: real)
    requires d * p == -(h * h * g) && d * q == h * m * g && d * x == jr + h && d * y == -(hr + m)
    requires jf == jr * drive && hf == hr * drive && t == h * g * theta + -drive
    ensures d * (p * theta + x * drive) == jf - h * t && d * (q * theta + y * drive) == m * t - hf
  {
    assert d * (p * theta + x * drive) == (d * p) * theta + (d * x) * drive == -(h * h * g) * theta + (jr + h) * drive;
    assert d * (q * theta + y * drive) == (d * q) * theta + (d * y) * drive == h * m * g * theta - (hr + m) * drive;
  }

  lemma PitchSolved(a: UprightAggregates, e: Entries, g: real, r: real, theta: real, drive: real, x: real, y: real, f: real, t: real)
    requires a.delta == a.mS * a.jTheta - a.h * a.h && a.delta > 0.0 && r > 0.0
    requires PitchEntriesFit(a, e, g, r) && f == drive / r && t == a.h * g * theta + -drive
    ensures PitchEquations(a.mS, a.h, a.jTheta, f, t, x, y)
      <==> x == Mix(e.sTheta, theta, e.sDrive, drive) && y == Mix(e.thetaTheta, theta, e.thetaDrive, drive)
  {
    hide Mix, PitchEquations, PitchEntriesFit, Solves;
    var v, w := a.jTheta * f - a.h * t, a.mS * t - a.h * f;
    TwoByTwo(a.mS, a.h, a.jTheta, x, y, f, t, a.delta, v, w);
    PitchForces(a, e, g, r, theta, drive, f, t, v, w);
    SolvesOnce(a.delta, x, Mix(e.sTheta, theta, e.sDrive, drive), v);
    SolvesOnce(a.delta, y, Mix(e.thetaTheta, theta, e.thetaDrive, drive), w);
  }

  lemma RollTwo(j: real, jR: real, w: real, t: real, x: real, y: real)
    ensures RollEquations(j, jR, w, t, x, y) <==> Solves(j, x, w - t) && Solves(jR, x + y, t)
  {
    assert (j + jR) * x + jR * y == j * x + jR * (x + y) && jR * x + jR * y == jR * (x + y);
  }

  lemma RollForces(j: real, jR: real, p: real, x: real, y: real, hg: real, phi: real, t: real)
    requires j * x == -1.0 && jR * (y + x) == 1.0 && j * p == hg
    ensures Solves(j, Mix(p, phi, x, t), hg * phi - t)
    ensures Solves(jR, Mix(p, phi, x, t) + Mix(-p, phi, y, t), t)
  {
    assert j * (p * phi + x * t) == (j * p) * phi + (j * x) * t;
    assert jR * (p * phi + x * t + (-p * phi + y * t)) == (jR * (y + x)) * t;
  }

  lemma RollSolved(a: UprightAggregates, e: Entries, g: real, jR: real, phi: real, reaction: real, x: real, y: real, w: real)
    requires a.jPhi > 0.0 && jR > 0.0 && RollEntriesFit(a, e, g, jR) && w == a.h * g * phi
    ensures RollEquations(a.jPhi, jR, w, reaction, x, y)
      <==> x == Mix(e.phiPhi, phi, e.phiReaction, reaction) && y == Mix(-e.phiPhi, phi, e.psiReaction, reaction)
  {
    RollForces(a.jPhi, jR, e.phiPhi, e.phiReaction, e.psiReaction, a.h * g, phi, reaction);
    hide Mix, RollEquations, Solves, RollEntriesFit;
    var xc, yc := Mix(e.phiPhi, phi, e.phiReaction, reaction), Mix(-e.phiPhi, phi, e.psiReaction, reaction);
    RollTwo(a.jPhi, jR, w, reaction, x, y);
    SolvesOnce(a.jPhi, x, xc, w - reaction);
    SolvesOnce(jR, x + y, xc + yc, reaction);
  }

  /** The balance of forces is the two pairs of equations. */
  lemma EquationsOf(p: Upright, theta: real, phi: real, drive: real, reaction: real, q: Accelerations, f: real, t: real, w: real)
    requires f == drive / p.wheelRadius && t == Aggregates(p).h * p.gravity * theta + -drive && w == Aggregates(p).h * p.gravity * phi
    ensures (InertialForces(Aggregates(p), p.reactionSpin, q)
             == AppliedForces(p, theta, phi, BalanceGeneralizedForces(p, drive, reaction).value))
      <==> (PitchEquations(Aggregates(p).mS, Aggregates(p).h, Aggregates(p).jTheta, f, t, q.s, q.theta)
            && RollEquations(Aggregates(p).jPhi, p.reactionSpin, w, reaction, q.phi, q.psi))
  {
    hide Aggregates;
  }

  /** The coded matrices are the one solution of M(0) q'' = gravity stiffness + generalized forces. */
  lemma CodedSolvesMechanics(p: Upright, theta: real, phi: real, drive: real, reaction: real, q: Accelerations)
    ensures InertialForces(Aggregates(p), p.reactionSpin, q)
         == AppliedForces(p, theta, phi, BalanceGeneralizedForces(p, drive, reaction).value)
       <==> q == CodedAccelerations(EntriesOf(p), theta, phi, drive, reaction)
  {
    AggregatesNeverRefused(p);
    var a, g, r, jR := Aggregates(p), p.gravity, p.wheelRadius, p.reactionSpin;
    var e := EntriesOf(p);
    assert a.delta == a.mS * a.jTheta - a.h * a.h by { hide EntriesOf; }
    PitchEntries(a, g, r, jR);
    RollEntries(a, g, r, jR);
    hide Aggregates, CodedEntries, EntriesOf, Mix, PitchEquations, RollEquations, PitchEntriesFit, RollEntriesFit, InertialForces, AppliedForces;
    var f, t, w := drive / r, a.h * g * theta + -drive, a.h * g * phi;
    EquationsOf(p, theta, phi, drive, reaction, q, f, t, w);
    PitchSolved(a, e, g, r, theta, drive, q.s, q.theta, f, t);
    RollSolved(a, e, g, jR, phi, reaction, q.phi, q.psi, w);
  }

  /** The power the motors put in is torque times the rotor's speed relative to the body, and
      it is what changes kinetic energy and gravity's. */
  lemma PowerBalance(p: Upright, theta: real, phi: real, drive: real, reaction: real, v: Accelerations)
    ensures var q := CodedAccelerations(EntriesOf(p), theta, phi, drive, reaction);
      var f, hg := InertialForces(Aggregates(p), p.reactionSpin, q), Aggregates(p).h * p.gravity;
      v.s * f.forward + v.theta * f.pitch + v.phi * f.roll + v.psi * f.reaction
        == hg * theta * v.theta + hg * phi * v.phi + drive * (v.s / p.wheelRadius - v.theta) + reaction * v.psi
  {
    hide Aggregates, CodedAccelerations, EntriesOf, InertialForces;
    var q := CodedAccelerations(EntriesOf(p), theta, phi, drive, reaction);
    var f, hg := InertialForces(Aggregates(p), p.reactionSpin, q), Aggregates(p).h * p.gravity;
    CodedSolvesMechanics(p, theta, phi, drive, reaction, q);
    assert f == Forces(drive / p.wheelRadius, hg * theta + -drive, hg * phi + 0.0, reaction);
    QuotientScales(v.s, drive, p.wheelRadius);
    PowerTerms(hg, theta, phi, drive, drive / p.wheelRadius, v.s / p.wheelRadius, reaction, v);
  }

  lemma PowerTerms(hg: real, theta: real, phi: real, drive: real, force: real, rolling: real, reaction: real, v: Accelerations)
    requires v.s * force == rolling * drive
    ensures v.s * force + v.theta * (hg * theta + -drive) + v.phi * (hg * phi + 0.0) + v.psi * reaction
         == hg * theta * v.theta + hg * phi * v.phi + drive * (rolling - v.theta) + reaction * v.psi
  {}
}
