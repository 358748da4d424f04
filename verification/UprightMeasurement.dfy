/** The coded first-order measurement equation about stationary upright: what each
    row measures, and what its structure means for the estimators. */
module UprightMeasurement {
  import opened Wrappers
  import opened LinearAlgebra
  import opened StateEstimator
  import opened DynamicsModel
  import opened UprightCertificates
  import Ekf

  datatype ImuPlacement = ImuPlacement(forward: real, left: real, up: real)

  function Mixed(k: real, u: Vec, l: real, v: Vec): (w: Vec)
    requires |u| == |v|
    ensures |w| == |u|
  {
    Add(Scale(k, u), Scale(l, v))
  }

  lemma {:induction false} DotMixed(k: real, u: Vec, l: real, v: Vec, x: Vec)
    requires |u| == |v| == |x|
    ensures Dot(Mixed(k, u, l, v), x) == k * Dot(u, x) + l * Dot(v, x)
  {
    hide Dot;
    DotCommutes(Mixed(k, u, l, v), x);
    DotAdd(x, Scale(k, u), Scale(l, v));
    DotScale(x, k, u);
    DotScale(x, l, v);
    DotCommutes(x, u);
    DotCommutes(x, v);
  }

  function RowsFrom(l: ContinuousLinearPlant, g: real, r: real, imu: ImuPlacement): (m: UprightMeasurementModel)
    requires IsMat(l.a, STATES, STATES) && IsMat(l.b, STATES, INPUTS) && r > 0.0
  {
    var accelX := Mixed(1.0, l.a[1], imu.up, l.a[3]);
    var accelY := Mixed(-imu.up, l.a[5], 0.0, l.a[5]);
    UprightMeasurementModel(
      [0.0, 0.0, g, 0.0, 0.0, 0.0, 0.0, 0.0],
      [accelX[2 := accelX[2] + -g], accelY[4 := accelY[4] + g], Mixed(-imu.forward, l.a[3], imu.left, l.a[5]),
       Unit(STATES, 5), Unit(STATES, 3), Zero(STATES),
       [1.0 / r, 0.0, -1.0, 0.0, 0.0, 0.0, 0.0], Unit(STATES, 6)],
      [Mixed(1.0, l.b[1], imu.up, l.b[3]), Mixed(-imu.up, l.b[5], 0.0, l.b[5]),
       Mixed(-imu.forward, l.b[3], imu.left, l.b[5]),
       Zero(INPUTS), Zero(INPUTS), Zero(INPUTS), Zero(INPUTS), Zero(INPUTS)])
  }

  function MeasurementRows(p: Upright, imu: ImuPlacement): (m: UprightMeasurementModel) {
    RowsFrom(PlantOf(EntriesOf(p)), p.gravity, p.wheelRadius, imu)
  }

  /** The measurement model, refused where the linearization is. */
  function LinearizeMeasurement(p: PlantParameters, imu: ImuPlacement): (m: Option<UprightMeasurementModel>) {
    match LinearizeStationaryUpright(p)
    case None => None
    case Some(l) => Some(RowsFrom(l, p.gravity, p.wheelRadius, imu))
  }

  /** Every valid plant has a measurement model, whose rows are these. */
  lemma MeasurementNeverRefused(p: PlantParameters, imu: ImuPlacement)
    ensures LinearizeMeasurement(p, imu) == if PhysicallyValid(p) then Some(MeasurementRows(p, imu)) else None
  {
    LinearizationNeverRefused(p);
    hide LinearizeStationaryUpright, PlantOf, EntriesOf, RowsFrom;
  }

  lemma RowsWellShaped(p: Upright, imu: ImuPlacement)
    ensures MeasurementRows(p, imu).WellShaped()
  {
    hide EntriesOf;
  }

  lemma {:induction false} AccelerometerRows(p: Upright, imu: ImuPlacement, x: StateVec, u: InputVec, q: Accelerations)
    requires q == CodedAccelerations(EntriesOf(p), x[2], x[4], u[0], u[1])
    ensures var m := MeasurementRows(p, imu);
      && Dot(m.c[0], x) + Dot(m.d[0], u) == q.s + imu.up * q.theta - p.gravity * x[2]
      && Dot(m.c[1], x) + Dot(m.d[1], u) == p.gravity * x[4] - imu.up * q.phi
      && Dot(m.c[2], x) + Dot(m.d[2], u) == -imu.forward * q.theta + imu.left * q.phi
  {
    hide Dot, EntriesOf, CodedAccelerations;
    var e := EntriesOf(p);
    var l := PlantOf(e);
    RowsAreAccelerations(e, x, u);
    hide PlantOf;
    var accelX, accelY := Mixed(1.0, l.a[1], imu.up, l.a[3]), Mixed(-imu.up, l.a[5], 0.0, l.a[5]);
    DotMixed(1.0, l.a[1], imu.up, l.a[3], x);
    DotMixed(1.0, l.b[1], imu.up, l.b[3], u);
    DotMixed(-imu.up, l.a[5], 0.0, l.a[5], x);
    DotMixed(-imu.up, l.b[5], 0.0, l.b[5], u);
    DotMixed(-imu.forward, l.a[3], imu.left, l.a[5], x);
    DotMixed(-imu.forward, l.b[3], imu.left, l.b[5], u);
    DotUpdate(accelX, 2, -p.gravity, x);
    DotUpdate(accelY, 4, p.gravity, x);
    hide Mixed;
    Gathered(1.0, imu.up, Dot(l.a[1], x), Dot(l.b[1], u), q.s, Dot(l.a[3], x), Dot(l.b[3], u), q.theta);
    Gathered(-imu.up, 0.0, Dot(l.a[5], x), Dot(l.b[5], u), q.phi, Dot(l.a[5], x), Dot(l.b[5], u), q.phi);
    Gathered(-imu.forward, imu.left, Dot(l.a[3], x), Dot(l.b[3], u), q.theta, Dot(l.a[5], x), Dot(l.b[5], u), q.phi);
  }

  lemma Gathered(k: real, l: real, a: real, b: real, s: real, c: real, d: real, t: real)
    requires a + b == s && c + d == t
    ensures k * a + l * c + (k * b + l * d) == k * s + l * t
  {}

  /** The coded rows are the specific force at the IMU, the body rates, the drive encoder's
      relative angle and the reaction wheel's relative rate, with the coded accelerations. */
  lemma RowsMeasure(p: Upright, imu: ImuPlacement, x: StateVec, u: InputVec)
    ensures MeasurementRows(p, imu).WellShaped()
    ensures var y := MeasurementAt(MeasurementRows(p, imu), x, u);
      var q := CodedAccelerations(EntriesOf(p), x[2], x[4], u[0], u[1]);
      && y[0] == q.s + imu.up * q.theta - p.gravity * x[2]
      && y[1] == p.gravity * x[4] - imu.up * q.phi
      && y[2] == p.gravity - imu.forward * q.theta + imu.left * q.phi
      && y[3] == x[5] && y[4] == x[3] && y[5] == 0.0
      && y[6] == 1.0 / p.wheelRadius * x[0] - x[2] && y[7] == x[6]
  {
    hide MeasurementRows, Dot, EntriesOf, CodedAccelerations;
    RowsWellShaped(p, imu);
    AccelerometerRows(p, imu, x, u, CodedAccelerations(EntriesOf(p), x[2], x[4], u[0], u[1]));
    SensorRows(p, imu, x, u);
    NominalRows(p, imu);
  }

  /** On the coded rows the filter's nonlinear measurement is the specific force at the IMU with the whole
      gravity vector turned into the body, not just its first-order part; the other channels stay linear. */
  lemma {:induction false} FilterMeasuresSpecificForce(p: Upright, imu: ImuPlacement, d: Ekf.EkfDesign, x: StateVec, u: InputVec)
    requires d.WellFormed() && d.measurement == MeasurementRows(p, imu) && d.gravity == p.gravity
    ensures var y := Ekf.NonlinearMeasurement(d, x, u);
      var q := CodedAccelerations(EntriesOf(p), x[2], x[4], u[0], u[1]);
      var pitch, roll, g := x[2], x[4], p.gravity;
      && y[0] == q.s + imu.up * q.theta - g * d.trig.sin(pitch)
      && y[1] == g * (d.trig.sin(roll) * d.trig.cos(pitch)) - imu.up * q.phi
      && y[2] == g * (d.trig.cos(roll) * d.trig.cos(pitch)) - imu.forward * q.theta + imu.left * q.phi
      && forall i | 3 <= i < CHANNELS :: y[i] == MeasurementAt(d.measurement, x, u)[i]
  {
    hide MeasurementRows, MeasurementAt, Dot, EntriesOf, CodedAccelerations;
    RowsMeasure(p, imu, x, u);
    Distributed(p.gravity, x[2], d.trig.sin(x[2]));
    Distributed(p.gravity, d.trig.sin(x[4]) * d.trig.cos(x[2]), x[4]);
    Distributed(p.gravity, d.trig.cos(x[4]) * d.trig.cos(x[2]), 1.0);
  }

  lemma Distributed(g: real, a: real, b: real)
    ensures g * (a - b) == g * a - g * b
  {}

  lemma NominalRows(p: Upright, imu: ImuPlacement)
    ensures MeasurementRows(p, imu).nominal == [0.0, 0.0, p.gravity, 0.0, 0.0, 0.0, 0.0, 0.0]
  {
    hide EntriesOf;
  }

  lemma SensorRows(p: Upright, imu: ImuPlacement, x: StateVec, u: InputVec)
    ensures MeasurementRows(p, imu).WellShaped()
    ensures var m := MeasurementRows(p, imu);
      && Dot(m.c[3], x) == x[5] && Dot(m.c[4], x) == x[3] && Dot(m.c[5], x) == 0.0
      && Dot(m.c[6], x) == 1.0 / p.wheelRadius * x[0] - x[2] && Dot(m.c[7], x) == x[6]
      && forall i | 3 <= i < CHANNELS :: Dot(m.d[i], u) == 0.0
  {
    RowsWellShaped(p, imu);
    hide Dot, EntriesOf;
    DotUnit(5, x);
    DotUnit(3, x);
    DotUnit(6, x);
    DotZero(x);
    DotZero(u);
    DotCommutes(Unit(STATES, 5), x);
    DotCommutes(Unit(STATES, 3), x);
    DotCommutes(Unit(STATES, 6), x);
    DotCommutes(Zero(STATES), x);
    DotCommutes(Zero(INPUTS), u);
    Dot7([1.0 / p.wheelRadius, 0.0, -1.0, 0.0, 0.0, 0.0, 0.0], x);
  }

  /** The coded model gives the yaw rate no row at all, so a filter that is offered that channel
      never faults on it exactly when its noise variance is above the limit. */
  lemma YawRateFaultsExactly(p: Upright, imu: ImuPlacement, d: Ekf.EkfDesign, f: Ekf.FilterState, y: real, u: InputVec)
    requires d.WellFormed() && d.measurement == MeasurementRows(p, imu)
    ensures Ekf.Corrected(d, f, Ekf.GYRO_Z, y, u).None?
      <==> d.measurementVariance[Ekf.GYRO_Z] <= 0.000000000001
  {
    hide EntriesOf, PlantOf, Ekf.Corrected;
    Ekf.ZeroRowFaultsExactly(d, f, Ekf.GYRO_Z, y, u);
  }

  // ----- observability certificates --------------------------------------------------------

  /** Coded closed forms of two observability minors. */
  function ObservabilityIndicators(p: Upright): Indicators {
    AggregatesNeverRefused(p);
    var a, g, r := Aggregates(p), p.gravity, p.wheelRadius;
    Indicators(PitchMinor(a, g, r), a.h * g / a.jPhi)
  }

  function PitchMinor(a: UprightAggregates, g: real, r: real): (m: real)
    requires AggregatesValid(a) && r > 0.0
  {
    PositiveTimes(a.delta, r, a.delta * r);
    PositiveTimes(a.delta * r, r, a.delta * r * r);
    a.h * a.mS * g / (a.delta * r * r)
  }

  /** For every valid plant both minors are positive: the drive angle, the gyro rates and the wheel's rate
      observe it. */
  lemma ObservableAlways(p: Upright)
    ensures ObservabilityIndicators(p).pitch > 0.0 && ObservabilityIndicators(p).roll > 0.0
  {
    AggregatesNeverRefused(p);
    var a, g := Aggregates(p), p.gravity;
    hide Aggregates, PitchMinor;
    PitchMinorPositive(a, g, p.wheelRadius);
    PositiveTimes(a.h, g, a.h * g);
    PositiveQuotient(a.h * g, a.jPhi);
  }

  lemma PitchMinorPositive(a: UprightAggregates, g: real, r: real)
    requires AggregatesValid(a) && g > 0.0 && r > 0.0
    ensures PitchMinor(a, g, r) > 0.0
  {
    var upper, lower := a.h * a.mS, a.delta * r;
    PositiveTimes(a.h, a.mS, upper);
    PositiveTimes(a.delta, r, lower);
    PositiveTimes(upper, g, upper * g);
    PositiveTimes(lower, r, lower * r);
    PositiveQuotient(upper * g, lower * r);
  }

  /** A row times a block: how the next derivative of a measured output depends on the state. */
  function RowTimes(v: Vec, m: Mat): (w: Vec)
    requires |m| == |v| && forall i | 0 <= i < |m| :: |m[i]| == |v|
    ensures |w| == |v|
  {
    seq(|v|, j requires 0 <= j < |v| => Dot(v, seq(|v|, i requires 0 <= i < |v| => m[i][j])))
  }

  lemma PitchRowTimes(e: Entries, v: Vec)
    requires |v| == 4
    ensures IsMat(PitchBlock(e), 4, 4)
    ensures RowTimes(v, PitchBlock(e)) == [0.0, v[0], v[1] * e.sTheta + v[3] * e.thetaTheta, v[2]]
  {
    hide Dot;
    var m := PitchBlock(e);
    forall j | 0 <= j < 4
      ensures RowTimes(v, m)[j] == v[0] * m[0][j] + v[1] * m[1][j] + v[2] * m[2][j] + v[3] * m[3][j]
    {
      Dot4(v, seq(4, i requires 0 <= i < 4 => m[i][j]));
    }
    var w := RowTimes(v, m);
    assert w[0] == 0.0 && w[1] == v[0] && w[2] == v[1] * e.sTheta + v[3] * e.thetaTheta && w[3] == v[2];
  }

  lemma RollRowTimes(e: Entries, v: Vec)
    requires |v| == 3
    ensures IsMat(RollBlock(e), 3, 3)
    ensures RowTimes(v, RollBlock(e)) == [v[1] * e.phiPhi - v[2] * e.phiPhi, v[0], 0.0]
  {
    hide Dot;
    var m := RollBlock(e);
    forall j | 0 <= j < 3
      ensures RowTimes(v, m)[j] == v[0] * m[0][j] + v[1] * m[1][j] + v[2] * m[2][j]
    {
      Dot3(v, seq(3, i requires 0 <= i < 3 => m[i][j]));
    }
    var w := RowTimes(v, m);
    assert w[0] == v[1] * e.phiPhi - v[2] * e.phiPhi && w[1] == v[0] && w[2] == 0.0;
  }

  lemma TriangularDet(k: real, q: real)
    ensures Det4([[k, 0.0, -1.0, 0.0], [0.0, k, 0.0, -1.0], [0.0, 0.0, q, 0.0], [0.0, 0.0, 0.0, 1.0]]) == k * k * q
  {
    var m := [[k, 0.0, -1.0, 0.0], [0.0, k, 0.0, -1.0], [0.0, 0.0, q, 0.0], [0.0, 0.0, 0.0, 1.0]];
    assert Without(m[1], 0) == [k, 0.0, -1.0] && Without(m[2], 0) == [0.0, q, 0.0] && Without(m[3], 0) == [0.0, 0.0, 1.0];
    assert Without(m[1], 2) == [0.0, k, -1.0] && Without(m[2], 2) == [0.0, 0.0, 0.0] && Without(m[3], 2) == [0.0, 0.0, 1.0];
    assert Minor(m, 0) == k * q;
    assert Minor(m, 2) == 0.0;
    hide Minor;
    assert Det4(m) == k * Minor(m, 0) + -1.0 * Minor(m, 2);
  }

  /** The encoder and gyro rows of the measurement model each look at one block of the state only. */
  lemma RowsByBlock(p: Upright, imu: ImuPlacement)
    ensures MeasurementRows(p, imu).WellShaped()
    ensures var c, k := MeasurementRows(p, imu).c, 1.0 / p.wheelRadius;
      && c[6] == [k, 0.0, -1.0, 0.0] + Zero(3) && c[4] == [0.0, 0.0, 0.0, 1.0] + Zero(3)
      && c[3] == Zero(4) + [0.0, 1.0, 0.0] && c[7] == Zero(4) + [0.0, 0.0, 1.0]
  {
    hide EntriesOf;
    RowsWellShaped(p, imu);
  }

  /** The drive angle, its derivative, the derivative of the pitch rate and the pitch rate, all rows of the
      measurement model on the pitch block: the rows of the observability matrix whose determinant is the
      coded pitch indicator. */
  lemma PitchMinorIsDeterminant(p: Upright, imu: ImuPlacement)
    ensures MeasurementRows(p, imu).WellShaped()
    ensures var block, c := PitchBlock(EntriesOf(p)), MeasurementRows(p, imu).c;
      var angle, rate := c[6][..4], c[4][..4];
      && IsMat(block, 4, 4)
      && Det4([angle, RowTimes(angle, block), RowTimes(rate, block), rate]) == ObservabilityIndicators(p).pitch
  {
    RowsByBlock(p, imu);
    hide MeasurementRows;
    var e, a, g, r := EntriesOf(p), Aggregates(p), p.gravity, p.wheelRadius;
    AggregatesNeverRefused(p);
    PitchEntries(a, g, r, p.reactionSpin);
    hide EntriesOf, Aggregates, CodedEntries, Det4, RowTimes, PitchBlock, PitchMinor;
    var k := 1.0 / r;
    var angle, rate := [k, 0.0, -1.0, 0.0], [0.0, 0.0, 0.0, 1.0];
    assert (angle + Zero(3))[..4] == angle && (rate + Zero(3))[..4] == rate;
    PitchRowTimes(e, angle);
    PitchRowTimes(e, rate);
    TriangularDet(k, e.thetaTheta);
    PitchMinorValue(a, g, r, k, e.thetaTheta);
    var once, twice := RowTimes(angle, PitchBlock(e)), RowTimes(rate, PitchBlock(e));
    assert once == [0.0, k, 0.0, -1.0] && twice == [0.0, 0.0, e.thetaTheta, 0.0];
  }

  lemma PitchMinorValue(a: UprightAggregates, g: real, r: real, k: real, q: real)
    requires AggregatesValid(a) && r > 0.0 && k == 1.0 / r && a.delta * q == a.h * a.mS * g
    ensures k * k * q == PitchMinor(a, g, r)
  {
    TimesQuotient(1.0, r);
    PositiveTimes(a.delta, r, a.delta * r);
    PositiveTimes(a.delta * r, r, a.delta * r * r);
    ScaledMinor(a.delta, r, k, q, r * k, a.delta * q);
    QuotientIs(k * k * q, a.delta * r * r, a.h * a.mS * g);
  }

  lemma ScaledMinor(d: real, r: real, k: real, q: real, rk: real, dq: real)
    requires rk == r * k && dq == d * q && rk == 1.0
    ensures d * r * r * (k * k * q) == dq
  {
    assert d * r * r * (k * k * q) == rk * (rk * dq);
  }

  /** The derivative of the roll rate with the roll rate and the wheel's rate, rows of the measurement model
      on the roll block: the coded roll indicator. */
  lemma RollMinorIsDeterminant(p: Upright, imu: ImuPlacement)
    ensures MeasurementRows(p, imu).WellShaped()
    ensures var block, c := RollBlock(EntriesOf(p)), MeasurementRows(p, imu).c;
      var roll, wheel := c[3][4..], c[7][4..];
      && IsMat(block, 3, 3)
      && Det3([RowTimes(roll, block), roll, wheel]) == ObservabilityIndicators(p).roll
  {
    RowsByBlock(p, imu);
    hide MeasurementRows;
    var e := EntriesOf(p);
    AggregatesNeverRefused(p);
    assert e.phiPhi == ObservabilityIndicators(p).roll;
    hide EntriesOf, RowTimes, RollBlock, ObservabilityIndicators;
    assert (Zero(4) + [0.0, 1.0, 0.0])[4..] == [0.0, 1.0, 0.0] && (Zero(4) + [0.0, 0.0, 1.0])[4..] == [0.0, 0.0, 1.0];
    RollRowTimes(e, [0.0, 1.0, 0.0]);
    assert RowTimes([0.0, 1.0, 0.0], RollBlock(e)) == [e.phiPhi, 0.0, 0.0];
  }
}
