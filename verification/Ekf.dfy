/** Extended Kalman filter: matrix prediction and sequential scalar corrections
    in Joseph form, and what they keep of the covariance over every run. */
module Ekf {
  import opened LinearAlgebra
  import opened StateEstimator
  import opened Wrappers

  const MIN_INNOVATION_VARIANCE := 0.000000000001
  const MIN_COVARIANCE_DIAGONAL := 0.000000000001

  const ACCEL_X: nat := 0
  const ACCEL_Y: nat := 1
  const ACCEL_Z: nat := 2
  const GYRO_Z: nat := 5
  const PITCH: nat := 2
  const ROLL: nat := 4

  /** The two trigonometric functions, left uninterpreted. */
  datatype Trig = Trig(sin: real -> real, cos: real -> real)

  datatype EkfDesign = EkfDesign(
    plant: DiscreteLinearPlant,
    measurement: UprightMeasurementModel,
    gravity: real,
    processVariance: StateVec,
    measurementVariance: ChannelVec,
    used: MeasurementMask,
    required: MeasurementMask,
    trig: Trig)
  {
    ghost predicate WellFormed() {
      && plant.WellShaped() && measurement.WellShaped() && gravity > 0.0
      && (forall i | 0 <= i < STATES :: processVariance[i] >= 0.0)
      && (forall i | 0 <= i < CHANNELS :: measurementVariance[i] > 0.0)
      && used.channels != {} && used.InRange() && required.channels <= used.channels
    }
  }

  type Covariance = m: Mat | IsMat(m, 7, 7) witness seq(7, i => seq(7, j => 0.0))

  // ----- specification ---------------------------------------------------------

  /** What the exact gravity projection adds to the local one, channel by channel. */
  function GravityTerm(d: EkfDesign, x: StateVec, channel: nat): real {
    var theta, phi := x[PITCH], x[ROLL];
    if channel == ACCEL_X then d.gravity * (theta - d.trig.sin(theta))
    else if channel == ACCEL_Y then d.gravity * (d.trig.sin(phi) * d.trig.cos(theta) - phi)
    else if channel == ACCEL_Z then d.gravity * (d.trig.cos(phi) * d.trig.cos(theta) - 1.0)
    else 0.0
  }

  ghost function NonlinearMeasurement(d: EkfDesign, x: StateVec, u: InputVec): (y: ChannelVec)
    requires d.WellFormed()
  {
    seq(CHANNELS, i requires 0 <= i < CHANNELS => MeasurementAt(d.measurement, x, u)[i] + GravityTerm(d, x, i))
  }

  function JacobianRow(d: EkfDesign, x: StateVec, channel: nat): (h: StateVec)
    requires |d.measurement.c| == CHANNELS && channel < CHANNELS && |d.measurement.c[channel]| == STATES
  {
    var row := d.measurement.c[channel];
    var theta, phi, g := x[PITCH], x[ROLL], d.gravity;
    if channel == ACCEL_X then
      row[PITCH := row[PITCH] + g * (1.0 - d.trig.cos(theta))]
    else if channel == ACCEL_Y then
      row[PITCH := row[PITCH] - g * d.trig.sin(phi) * d.trig.sin(theta)]
         [ROLL := row[ROLL] + g * (d.trig.cos(phi) * d.trig.cos(theta) - 1.0)]
    else if channel == ACCEL_Z then
      row[PITCH := row[PITCH] - g * d.trig.cos(phi) * d.trig.sin(theta)]
         [ROLL := row[ROLL] - g * d.trig.sin(phi) * d.trig.cos(theta)]
    else row
  }

  /** Averages mirrored entries and lifts small diagonal entries to the floor. */
  ghost function Symmetrized(p: Covariance): (r: Covariance) {
    seq(STATES, i requires 0 <= i < STATES => seq(STATES, j requires 0 <= j < STATES =>
      if i != j then 0.5 * (p[i][j] + p[j][i])
      else if p[i][i] < MIN_COVARIANCE_DIAGONAL then MIN_COVARIANCE_DIAGONAL else p[i][i]))
  }

  ghost function Lift(p: Covariance): (q: StateVec) {
    seq(STATES, i requires 0 <= i < STATES =>
      if p[i][i] < MIN_COVARIANCE_DIAGONAL then MIN_COVARIANCE_DIAGONAL - p[i][i] else 0.0)
  }

  ghost function PredictedCovariance(d: EkfDesign, p: Covariance): (r: Covariance)
    requires d.WellFormed()
  {
    Symmetrized(AddDiagonal(Congruence(d.plant.aD, p), d.processVariance))
  }

  ghost function InnovationVariance(p: Covariance, h: StateVec, r: real): real {
    Dot(h, MulVec(p, h)) + r
  }

  ghost function Gain(p: Covariance, h: StateVec, r: real): (k: StateVec)
    requires InnovationVariance(p, h, r) > 0.0
  {
    var s := InnovationVariance(p, h, r);
    var ph := MulVec(p, h);
    seq(STATES, i requires 0 <= i < STATES => ph[i] / s)
  }

  /** I - k h' */
  ghost function IMinusKH(k: StateVec, h: StateVec): (m: Covariance) {
    seq(STATES, i requires 0 <= i < STATES => Sub(Unit(STATES, i), Scale(k[i], h)))
  }

  /** (I - k h') P (I - k h')' + k r k' */
  ghost function Joseph(p: Covariance, h: StateVec, r: real): (c: Covariance)
    requires InnovationVariance(p, h, r) > 0.0
  {
    var k := Gain(p, h, r);
    AddOuter(Congruence(IMinusKH(k, h), p), r, k)
  }

  /** P - (P h)(P h)' / S */
  ghost function RankOneDowndate(p: Covariance, h: StateVec, r: real): (c: Covariance)
    requires InnovationVariance(p, h, r) > 0.0
  {
    var ph := MulVec(p, h);
    var s := InnovationVariance(p, h, r);
    seq(STATES, i requires 0 <= i < STATES => seq(STATES, j requires 0 <= j < STATES =>
      p[i][j] - ph[i] * ph[j] / s))
  }

  ghost predicate CovarianceKept(p: Covariance) {
    Symmetric(p) && PositiveSemidefinite(p)
  }

  ghost predicate AboveFloor(p: Covariance) {
    forall i | 0 <= i < STATES :: p[i][i] >= MIN_COVARIANCE_DIAGONAL
  }

  ghost predicate Positive(variance: StateVec) {
    forall i | 0 <= i < STATES :: variance[i] > 0.0
  }

  ghost function InitialCovariance(variance: StateVec): (p: Covariance) {
    Diagonal(variance)
  }

  lemma DiagonalKept(variance: StateVec)
    requires Positive(variance)
    ensures CovarianceKept(InitialCovariance(variance))
  {
    DiagonalPositive(variance);
  }

  // ----- facts about one prediction and one correction ---------------------------

  lemma SymmetrizedLifts(p: Covariance)
    requires Symmetric(p)
    ensures Symmetrized(p) == AddDiagonal(p, Lift(p))
  {
    forall i, j | 0 <= i < STATES && 0 <= j < STATES
      ensures Symmetrized(p)[i][j] == AddDiagonal(p, Lift(p))[i][j] {}
    forall i | 0 <= i < STATES ensures Symmetrized(p)[i] == AddDiagonal(p, Lift(p))[i] {}
  }

  lemma SymmetrizedShape(p: Covariance)
    ensures Symmetric(Symmetrized(p)) && AboveFloor(Symmetrized(p))
  {}

  lemma LiftNonNegative(p: Covariance)
    ensures forall i | 0 <= i < STATES :: Lift(p)[i] >= 0.0
  {}

  /** Flooring keeps the covariance symmetric and positive semidefinite. */
  lemma SymmetrizedKeeps(p: Covariance)
    requires CovarianceKept(p)
    ensures CovarianceKept(Symmetrized(p)) && AboveFloor(Symmetrized(p))
  {
    hide Dot, MulVec, Quad, Bil, AddDiagonal, Symmetrized, Lift, Symmetric, PositiveSemidefinite;
    SymmetrizedShape(p);
    SymmetrizedLifts(p);
    LiftNonNegative(p);
    AddDiagonalPositive(p, Lift(p));
  }

  lemma AddDiagonalKeepsSymmetry(p: Covariance, q: StateVec)
    requires Symmetric(p)
    ensures Symmetric(AddDiagonal(p, q))
  {}

  lemma PredictionKeeps(d: EkfDesign, p: Covariance)
    requires d.WellFormed() && CovarianceKept(p)
    ensures CovarianceKept(PredictedCovariance(d, p)) && AboveFloor(PredictedCovariance(d, p))
  {
    hide Dot, MulVec, Quad, Bil, AddDiagonal, Symmetrized, Congruence, Symmetric, PositiveSemidefinite;
    var c := Congruence(d.plant.aD, p);
    CongruenceSymmetric(d.plant.aD, p);
    CongruencePositive(d.plant.aD, p);
    AddDiagonalKeepsSymmetry(c, d.processVariance);
    AddDiagonalPositive(c, d.processVariance);
    SymmetrizedKeeps(AddDiagonal(c, d.processVariance));
  }

  lemma VarianceAtLeast(p: Covariance, h: StateVec, r: real)
    requires PositiveSemidefinite(p)
    ensures InnovationVariance(p, h, r) >= r
  {
    assert Quad(p, h) >= 0.0;
  }

  /** Over all covariances the filter can hold and all Jacobian rows, the
      innovation-variance fault is unreachable exactly when r exceeds the limit. */
  lemma FaultUnreachableExactly(r: real)
    ensures r > MIN_INNOVATION_VARIANCE <==>
      (forall p: Covariance, h: StateVec | CovarianceKept(p) && AboveFloor(p) ::
        InnovationVariance(p, h, r) > MIN_INNOVATION_VARIANCE)
  {
    forall p: Covariance, h: StateVec | r > MIN_INNOVATION_VARIANCE && CovarianceKept(p) && AboveFloor(p)
      ensures InnovationVariance(p, h, r) > MIN_INNOVATION_VARIANCE
    {
      VarianceAtLeast(p, h, r);
    }
    if r <= MIN_INNOVATION_VARIANCE {
      var ones: StateVec := seq(STATES, i => 1.0);
      var p: Covariance, h: StateVec := Diagonal(ones), Zero(STATES);
      DiagonalPositive(ones);
      DotCommutes(h, MulVec(p, h));
      DotZero(MulVec(p, h));
      assert CovarianceKept(p) && AboveFloor(p) && InnovationVariance(p, h, r) == r;
    }
  }

  /** A channel whose measurement row is zero, as the upright model's yaw gyro
      row is, sees its own noise as the whole innovation variance. */
  lemma ZeroRowVariance(p: Covariance, h: StateVec, r: real)
    requires h == Zero(STATES)
    ensures InnovationVariance(p, h, r) == r
  {
    DotCommutes(h, MulVec(p, h));
    DotZero(MulVec(p, h));
  }

  lemma ClosedFormAlgebra(pij: real, phi: real, phj: real, hph: real, r: real, s: real, ki: real, kj: real)
    requires s == hph + r && s != 0.0 && ki == phi / s && kj == phj / s
    ensures (pij - kj * phi) - ki * (phj - kj * hph) + ki * r * kj == pij - phi * phj / s
  {
    assert phi == ki * s && phj == kj * s;
    assert kj * phi == ki * kj * s;
    assert ki * phj == ki * kj * s;
    assert ki * (kj * hph) + ki * r * kj == ki * kj * s;
    assert phi * phj / s == ki * kj * s by {
      assert phi * phj == (ki * kj * s) * s;
    }
  }

  lemma JosephEntry(p: Covariance, h: StateVec, r: real, i: nat, j: nat)
    requires Symmetric(p) && InnovationVariance(p, h, r) > 0.0 && i < STATES && j < STATES
    ensures Joseph(p, h, r)[i][j] == RankOneDowndate(p, h, r)[i][j]
  {
    var k := Gain(p, h, r);
    var m := IMinusKH(k, h);
    var ei, ej := Unit(STATES, i), Unit(STATES, j);
    var ph := MulVec(p, h);
    CongruenceEntry(m, p, i, j);
    BilLeftSub(p, ei, k[i], h, m[j]);
    BilRightSub(p, ei, ej, k[j], h);
    BilRightSub(p, h, ej, k[j], h);
    BilUnit(p, i, ej);
    DotUnit(j, p[i]);
    BilUnit(p, i, h);
    BilSymmetric(p, h, ej);
    BilUnit(p, j, h);
    ClosedFormAlgebra(p[i][j], ph[i], ph[j], Bil(p, h, h), r, InnovationVariance(p, h, r), k[i], k[j]);
  }

  /** The Joseph form is P - (P h)(P h)' / S. */
  lemma JosephClosedForm(p: Covariance, h: StateVec, r: real)
    requires Symmetric(p) && InnovationVariance(p, h, r) > 0.0
    ensures Joseph(p, h, r) == RankOneDowndate(p, h, r)
  {
    var a, b := Joseph(p, h, r), RankOneDowndate(p, h, r);
    forall i | 0 <= i < STATES ensures a[i] == b[i] {
      forall j | 0 <= j < STATES ensures a[i][j] == b[i][j] { JosephEntry(p, h, r, i, j); }
    }
  }

  lemma AddOuterKeepsSymmetry(p: Covariance, r: real, k: StateVec)
    requires Symmetric(p)
    ensures Symmetric(AddOuter(p, r, k))
  {
    var c := AddOuter(p, r, k);
    forall i, j | 0 <= i < STATES && 0 <= j < STATES ensures c[i][j] == c[j][i] {
      assert k[i] * r * k[j] == k[j] * r * k[i];
    }
  }

  lemma JosephKeeps(p: Covariance, h: StateVec, r: real)
    requires CovarianceKept(p) && r > 0.0 && InnovationVariance(p, h, r) > 0.0
    ensures CovarianceKept(Joseph(p, h, r))
  {
    hide Dot, MulVec, Quad, Bil, AddOuter, Congruence, Symmetric, PositiveSemidefinite, IMinusKH, Gain, InnovationVariance;
    var k := Gain(p, h, r);
    var m := IMinusKH(k, h);
    var c := Congruence(m, p);
    CongruenceSymmetric(m, p);
    CongruencePositive(m, p);
    AddOuterKeepsSymmetry(c, r, k);
    AddOuterPositive(c, r, k);
  }

  lemma CorrectionKeeps(p: Covariance, h: StateVec, r: real)
    requires CovarianceKept(p) && r > 0.0
    ensures InnovationVariance(p, h, r) > 0.0
    ensures CovarianceKept(Symmetrized(Joseph(p, h, r))) && AboveFloor(Symmetrized(Joseph(p, h, r)))
  {
    hide Dot, MulVec, Joseph, Symmetrized, Symmetric, PositiveSemidefinite, InnovationVariance;
    VarianceAtLeast(p, h, r);
    JosephKeeps(p, h, r);
    SymmetrizedKeeps(Joseph(p, h, r));
  }

  lemma QuotientOfSquareNonNegative(x: real, s: real)
    requires s > 0.0
    ensures x * x / s >= 0.0
  {
    SquareNonNegative(x);
  }

  ghost predicate DiagonalNotAbove(p: Covariance, q: Covariance) {
    forall i | 0 <= i < STATES :: p[i][i] <= q[i][i]
  }

  /** No scalar correction increases any diagonal entry, floor included. */
  lemma CorrectionShrinksDiagonal(p: Covariance, h: StateVec, r: real)
    requires CovarianceKept(p) && AboveFloor(p) && r > 0.0
    ensures InnovationVariance(p, h, r) > 0.0
    ensures DiagonalNotAbove(Symmetrized(Joseph(p, h, r)), p)
  {
    hide Dot, Joseph, Symmetric, PositiveSemidefinite, InnovationVariance;
    VarianceAtLeast(p, h, r);
    forall i | 0 <= i < STATES ensures Symmetrized(Joseph(p, h, r))[i][i] <= p[i][i] {
      JosephEntry(p, h, r, i, i);
      QuotientOfSquareNonNegative(MulVec(p, h)[i], InnovationVariance(p, h, r));
    }
  }

  // ----- the filter ----------------------------------------------------------------

  datatype FilterState = FilterState(x: StateVec, p: Covariance)

  /** One scalar correction: the closed-form gain and the rank-one downdate,
      or None when the innovation variance is not above the limit. */
  ghost function Corrected(d: EkfDesign, f: FilterState, channel: nat, y: real, u: InputVec): (r: Option<FilterState>)
    requires d.WellFormed() && channel < CHANNELS
  {
    var h := JacobianRow(d, f.x, channel);
    var s := InnovationVariance(f.p, h, d.measurementVariance[channel]);
    if s <= MIN_INNOVATION_VARIANCE then None
    else
      var k := Gain(f.p, h, d.measurementVariance[channel]);
      var innovation := y - NonlinearMeasurement(d, f.x, u)[channel];
      Some(FilterState(Add(f.x, Scale(innovation, k)), Symmetrized(Joseph(f.p, h, d.measurementVariance[channel]))))
  }

  /** The corrections of channels [channel..8) in order; None after a fault, with the state it stopped in. */
  ghost function Corrections(d: EkfDesign, f: FilterState, channel: nat, y: EstimatorMeasurement, u: InputVec): (r: (FilterState, bool))
    requires d.WellFormed() && channel <= CHANNELS
    decreases CHANNELS - channel
  {
    if channel == CHANNELS then (f, true)
    else if !d.used.Contains(channel) || !y.available.Contains(channel) then Corrections(d, f, channel + 1, y, u)
    else match Corrected(d, f, channel, y.values[channel], u)
      case None => (f, false)
      case Some(g) => Corrections(d, g, channel + 1, y, u)
  }

  ghost function PredictedFilter(d: EkfDesign, f: FilterState, u: InputVec): (r: FilterState)
    requires d.WellFormed()
  {
    FilterState(PredictedState(d.plant, f.x, u), PredictedCovariance(d, f.p))
  }

  /** A refused step leaves the filter alone; an accepted one predicts, then
      corrects channel by channel, stopping where a fault stops it. */
  ghost function FilterAfter(d: EkfDesign, f: FilterState, previous: InputVec, current: InputVec, y: EstimatorMeasurement): (r: FilterState)
    requires d.WellFormed()
  {
    if Refusal(d.required, y).None? then Corrections(d, PredictedFilter(d, f, previous), 0, y, current).0 else f
  }

  /** The used channels below n that carry a sample. */
  ghost function Usable(d: EkfDesign, y: EstimatorMeasurement, n: nat): MeasurementMask {
    MeasurementMask(set c: nat | c < n && d.used.Contains(c) && y.available.Contains(c))
  }

  lemma UsableNone(d: EkfDesign, y: EstimatorMeasurement)
    ensures Usable(d, y, 0) == MeasurementMask({})
  {}

  lemma UsableNext(d: EkfDesign, y: EstimatorMeasurement, n: nat)
    requires n < CHANNELS
    ensures Usable(d, y, n + 1)
         == if d.used.Contains(n) && y.available.Contains(n) then Usable(d, y, n).With(n) else Usable(d, y, n)
  {
    var next := Usable(d, y, n + 1).channels;
    var was := Usable(d, y, n).channels;
    assert forall c | c in next :: c == n || c in was;
  }

  ghost function StepResult(d: EkfDesign, f: FilterState, previous: InputVec, current: InputVec, y: EstimatorMeasurement):
    (r: Result<MeasurementMask, EstimateError>)
    requires d.WellFormed()
  {
    match Refusal(d.required, y)
    case Some(e) => Err(e)
    case None =>
      if Corrections(d, PredictedFilter(d, f, previous), 0, y, current).1 then Ok(Usable(d, y, CHANNELS))
      else Err(NumericalFault)
  }

  function Rows(a: array2<real>): (m: Mat)
    reads a
  {
    seq(a.Length0, i requires 0 <= i < a.Length0 reads a =>
      seq(a.Length1, j requires 0 <= j < a.Length1 reads a => a[i, j]))
  }

  ghost predicate Square(a: array2<real>) {
    a.Length0 == STATES && a.Length1 == STATES
  }

  lemma RowsAre(a: array2<real>, goal: Covariance)
    requires Square(a)
    requires forall i, j | 0 <= i < STATES && 0 <= j < STATES :: a[i, j] == goal[i][j]
    ensures Rows(a) == goal
  {
    var rows := Rows(a);
    forall i | 0 <= i < STATES ensures rows[i] == goal[i] {
      assert forall j | 0 <= j < STATES :: rows[i][j] == a[i, j];
    }
  }

  method GatherColumn(p: Covariance, col: nat) returns (pCol: array<real>)
    requires col < STATES
    ensures fresh(pCol) && pCol[..] == Col(p, col)
  {
    pCol := new real[STATES](i => 0.0);
    for k := 0 to STATES
      invariant forall i | 0 <= i < k :: pCol[i] == p[i][col]
    {
      pCol[k] := p[k][col];
    }
  }

  /** Row i is the i-th row of m times p. */
  ghost function ProductOf(m: Covariance, p: Covariance): (r: Covariance) {
    seq(STATES, i requires 0 <= i < STATES => VecMat(m[i], p, STATES))
  }

  /** m times p, one dot product of a row with a gathered column at a time. */
  method Product(m: Covariance, p: Covariance) returns (product: Covariance)
    ensures product == ProductOf(m, p)
  {
    hide Dot;
    ghost var goal := ProductOf(m, p);
    var out := new real[STATES, STATES]((i, j) => 0.0);
    for row := 0 to STATES
      invariant forall i, j | 0 <= i < row && 0 <= j < STATES :: out[i, j] == goal[i][j]
    {
      for col := 0 to STATES
        invariant forall i, j | 0 <= i < row && 0 <= j < STATES :: out[i, j] == goal[i][j]
        invariant forall j | 0 <= j < col :: out[row, j] == goal[row][j]
      {
        var pCol := GatherColumn(p, col);
        VecMatEntry(m[row], p, STATES, col);
        out[row, col] := Dot(m[row], pCol[..]);
      }
    }
    RowsAre(out, goal);
    product := Rows(out);
  }

  /** The covariance half of the prediction: a p a' plus the process noise, then symmetrised. */
  method PredictCovariance(d: EkfDesign, p: Covariance) returns (updated: Covariance)
    requires d.WellFormed()
    ensures updated == PredictedCovariance(d, p)
  {
    hide Dot, VecMat;
    var a: Covariance := d.plant.aD;
    var aP := Product(a, p);
    ghost var congruence: Covariance := Congruence(a, p);
    ghost var goal: Covariance := AddDiagonal(congruence, d.processVariance);
    var predicted := new real[STATES, STATES]((i, j) => 0.0);
    for row := 0 to STATES
      invariant forall i, j | 0 <= i < row && 0 <= j < STATES :: predicted[i, j] == goal[i][j]
    {
      for col := 0 to STATES
        invariant forall i, j | 0 <= i < row && 0 <= j < STATES :: predicted[i, j] == goal[i][j]
        invariant forall j | 0 <= j < col :: predicted[row, j] == congruence[row][j]
      {
        predicted[row, col] := Dot(aP[row], a[col]);
      }
      predicted[row, row] := predicted[row, row] + d.processVariance[row];
    }
    RowsAre(predicted, goal);
    Symmetrize(predicted);
    updated := Rows(predicted);
  }

  method Symmetrize(matrix: array2<real>)
    requires Square(matrix)
    modifies matrix
    ensures Rows(matrix) == Symmetrized(old(Rows(matrix)))
  {
    ghost var was: Covariance := Rows(matrix);
    ghost var goal := Symmetrized(was);
    for row := 0 to STATES
      invariant forall i, j | 0 <= i < STATES && 0 <= j < STATES ::
        matrix[i, j] == if i < row || j < row then goal[i][j] else was[i][j]
    {
      for col := row + 1 to STATES
        invariant forall i, j | 0 <= i < STATES && 0 <= j < STATES ::
          matrix[i, j] == if i < row || j < row || (i == row < j < col) || (j == row < i < col)
                          then goal[i][j] else was[i][j]
      {
        var average := 0.5 * (matrix[row, col] + matrix[col, row]);
        matrix[row, col] := average;
        matrix[col, row] := average;
      }
      if matrix[row, row] < MIN_COVARIANCE_DIAGONAL {
        matrix[row, row] := MIN_COVARIANCE_DIAGONAL;
      }
    }
    RowsAre(matrix, goal);
  }

  class ExtendedKalmanFilter {
    const design: EkfDesign
    var state: StateVec
    var covariance: Covariance
    var resetVariance: StateVec
    var validity: StateValidity

    ghost predicate Valid()
      reads this
    {
      design.WellFormed() && CovarianceKept(covariance)
    }

    ghost function View(): FilterState
      reads this
    {
      FilterState(state, covariance)
    }

    constructor (design: EkfDesign, initial: StateVec, variance: StateVec)
      requires design.WellFormed() && Positive(variance)
      ensures Valid() && this.design == design
      ensures View() == FilterState(initial, InitialCovariance(variance))
      ensures resetVariance == variance && validity == Invalid
    {
      hide Dot, CovarianceKept, InitialCovariance;
      this.design := design;
      state := initial;
      var p := DiagonalMatrix(variance);
      covariance := Rows(p);
      resetVariance := variance;
      validity := Invalid;
      DiagonalKept(variance);
    }

    /** Accepts exactly the positive variances. */
    method Reset(value: StateVec, variance: StateVec) returns (ok: bool)
      requires Valid()
      modifies this
      ensures Valid() && validity == Invalid
      ensures ok <==> Positive(variance)
      ensures View() == if ok then FilterState(value, InitialCovariance(variance)) else old(View())
      ensures resetVariance == if ok then variance else old(resetVariance)
    {
      hide Dot, CovarianceKept, InitialCovariance, EkfDesign.WellFormed, Positive;
      var positive := AllPositive(variance);
      if !positive {
        validity := Invalid;
        return false;
      }
      state := value;
      resetVariance := variance;
      var p := DiagonalMatrix(variance);
      covariance := Rows(p);
      validity := Invalid;
      DiagonalKept(variance);
      ok := true;
    }

    /** One opportunity: either nothing but validity changes, or the filter
        becomes exactly its predicted and corrected self. */
    method Step(previous: InputVec, current: InputVec, y: EstimatorMeasurement)
      returns (r: Result<MeasurementMask, EstimateError>)
      requires Valid()
      modifies this
      ensures Valid() && resetVariance == old(resetVariance)
      ensures View() == FilterAfter(design, old(View()), previous, current, y)
      ensures r == StepResult(design, old(View()), previous, current, y)
      ensures validity == if r.Ok? then StateValidity.Valid else Invalid
      ensures Refusal(design.required, y).None? ==> AboveFloor(covariance)
    {
      hide Dot, CovarianceKept, Corrected, PredictedFilter, EkfDesign.WellFormed, Corrections, Usable, AboveFloor;
      var refusal := ValidateInputs(y);
      if refusal.Some? { return Err(refusal.value); }

      Predict(previous);
      var corrected := CorrectChannels(y, current);
      if corrected.None? { return Err(NumericalFault); }

      // The closing covariance check cannot fail.
      var sound := CovarianceValid();
      assert sound;
      validity := StateValidity.Valid;
      r := Ok(corrected.value);
    }

    /** Corrects every used and available channel in order, up to the first fault. */
    method CorrectChannels(y: EstimatorMeasurement, current: InputVec) returns (r: Option<MeasurementMask>)
      requires Valid() && AboveFloor(covariance)
      modifies this
      ensures Valid() && AboveFloor(covariance) && resetVariance == old(resetVariance)
      ensures (View(), r.Some?) == Corrections(design, old(View()), 0, y, current)
      ensures if r.None? then validity == Invalid else r == Some(Usable(design, y, CHANNELS))
    {
      hide Dot, CovarianceKept, Corrected, EkfDesign.WellFormed, AboveFloor, Usable;
      var corrected := MeasurementMask({});
      assert corrected == Usable(design, y, 0) by { UsableNone(design, y); }
      for channel := 0 to CHANNELS
        invariant Valid() && AboveFloor(covariance) && resetVariance == old(resetVariance)
        invariant Corrections(design, View(), channel, y, current) == Corrections(design, old(View()), 0, y, current)
        invariant corrected == Usable(design, y, channel)
      {
        UsableNext(design, y, channel);
        if !design.used.Contains(channel) || !y.available.Contains(channel) { continue; }
        var ok := CorrectScalar(channel, y.values[channel], current);
        if !ok { return None; }
        corrected := corrected.With(channel);
      }
      r := Some(corrected);
    }

    method ValidateInputs(y: EstimatorMeasurement) returns (refusal: Option<EstimateError>)
      modifies this`validity
      ensures refusal == Refusal(design.required, y)
      ensures validity == if refusal.None? then old(validity) else Invalid
    {
      if !y.timingValid {
        validity := Invalid;
        return Some(TimingInvalid);
      }
      for channel := 0 to CHANNELS
        invariant validity == old(validity)
        invariant FirstMissing(design.required, y.available, 0) == FirstMissing(design.required, y.available, channel)
      {
        if design.required.Contains(channel) && !y.available.Contains(channel) {
          validity := Invalid;
          return Some(MissingRequiredMeasurement(channel));
        }
      }
      refusal := None;
    }

    method Predict(input: InputVec)
      requires Valid()
      modifies this
      ensures Valid() && AboveFloor(covariance)
      ensures View() == PredictedFilter(design, old(View()), input)
      ensures resetVariance == old(resetVariance) && validity == old(validity)
    {
      hide Dot, MulVec, VecMat, PredictedState, PredictedCovariance, CovarianceKept;
      PredictionKeeps(design, covariance);
      var predicted := PredictState(design.plant, state, input);
      state := predicted[..];
      covariance := PredictCovariance(design, covariance);
    }

    method CorrectScalar(channel: nat, measured: real, input: InputVec) returns (ok: bool)
      requires Valid() && AboveFloor(covariance) && channel < CHANNELS
      modifies this
      ensures Valid() && AboveFloor(covariance) && resetVariance == old(resetVariance)
      ensures match Corrected(design, old(View()), channel, measured, input)
        case Some(g) => ok && View() == g && validity == old(validity)
        case None => !ok && View() == old(View()) && validity == Invalid
      ensures DiagonalNotAbove(covariance, old(covariance))
    {
      hide Dot, VecMat, CovarianceKept, NonlinearMeasurement, Joseph, Symmetrized, JacobianRow;
      ghost var was := View();
      var predictedMeasurement := PredictNonlinear(design, state, input);
      var h := JacobianRow(design, state, channel);
      var r := design.measurementVariance[channel];
      var pH := TimesVector(covariance, h);
      var innovationVariance := Dot(h, pH[..]) + r;
      if innovationVariance <= MIN_INNOVATION_VARIANCE {
        validity := Invalid;
        return false;
      }

      CorrectionKeeps(covariance, h, r);
      CorrectionShrinksDiagonal(covariance, h, r);
      var innovation := measured - predictedMeasurement[channel];
      var gain := ApplyGain(pH[..], innovationVariance, innovation);
      assert gain == Gain(was.p, h, r);
      covariance := JosephUpdate(covariance, h, r, gain);
      ok := true;
    }

    /** Fills the gain and moves the state along it, entry by entry. */
    method ApplyGain(pH: StateVec, innovationVariance: real, innovation: real) returns (k: StateVec)
      requires innovationVariance > 0.0
      modifies this`state
      ensures k == seq(STATES, i requires 0 <= i < STATES => pH[i] / innovationVariance)
      ensures state == Add(old(state), Scale(innovation, k))
    {
      var gain := new real[STATES](i => 0.0);
      for index := 0 to STATES
        invariant forall i | 0 <= i < index ::
          gain[i] == pH[i] / innovationVariance && state[i] == old(state)[i] + gain[i] * innovation
        invariant forall i | index <= i < STATES :: state[i] == old(state)[i]
      {
        gain[index] := pH[index] / innovationVariance;
        state := state[index := state[index] + gain[index] * innovation];
      }
      k := gain[..];
      forall i | 0 <= i < STATES ensures state[i] == Add(old(state), Scale(innovation, k))[i] {
        assert state[i] == old(state)[i] + k[i] * innovation;
      }
    }

    method CovarianceValid() returns (ok: bool)
      requires Valid()
      ensures ok <==> AboveFloor(covariance)
    {
      for i := 0 to STATES
        invariant forall j | 0 <= j < i :: covariance[j][j] >= MIN_COVARIANCE_DIAGONAL
      {
        if covariance[i][i] < MIN_COVARIANCE_DIAGONAL { return false; }
      }
      ok := true;
    }
  }

  method AllPositive(variance: StateVec) returns (ok: bool)
    ensures ok <==> Positive(variance)
  {
    for i := 0 to STATES
      invariant forall j | 0 <= j < i :: variance[j] > 0.0
    {
      if variance[i] <= 0.0 { return false; }
    }
    ok := true;
  }

  method DiagonalMatrix(variance: StateVec) returns (p: array2<real>)
    ensures fresh(p) && Rows(p) == InitialCovariance(variance)
  {
    p := new real[STATES, STATES]((i, j) => 0.0);
    for index := 0 to STATES
      invariant forall i, j | 0 <= i < STATES && 0 <= j < STATES ::
        p[i, j] == if i == j < index then variance[i] else 0.0
    {
      p[index, index] := variance[index];
    }
    RowsAre(p, InitialCovariance(variance));
  }

  method PredictNonlinear(d: EkfDesign, x: StateVec, u: InputVec) returns (output: array<real>)
    requires d.WellFormed()
    ensures fresh(output) && output.Length == CHANNELS
    ensures output[..] == NonlinearMeasurement(d, x, u)
  {
    hide Dot, GravityTerm;
    output := PredictMeasurement(d.measurement, x, u);
    output[ACCEL_X] := output[ACCEL_X] + GravityTerm(d, x, ACCEL_X);
    output[ACCEL_Y] := output[ACCEL_Y] + GravityTerm(d, x, ACCEL_Y);
    output[ACCEL_Z] := output[ACCEL_Z] + GravityTerm(d, x, ACCEL_Z);
    assert forall i | ACCEL_Z < i < CHANNELS :: NonlinearMeasurement(d, x, u)[i] == MeasurementAt(d.measurement, x, u)[i] by {
      forall i | ACCEL_Z < i < CHANNELS { GravityTermElsewhere(d, x, i); }
    }
  }

  lemma GravityTermElsewhere(d: EkfDesign, x: StateVec, channel: nat)
    requires channel > ACCEL_Z
    ensures GravityTerm(d, x, channel) == 0.0
  {}

  method TimesVector(p: Covariance, h: StateVec) returns (pH: array<real>)
    ensures fresh(pH) && pH[..] == MulVec(p, h)
  {
    hide Dot;
    pH := new real[STATES](i => 0.0);
    for row := 0 to STATES
      invariant forall i | 0 <= i < row :: pH[i] == MulVec(p, h)[i]
    {
      pH[row] := Dot(p[row], h);
    }
  }

  method IdentityMinus(gain: StateVec, h: StateVec) returns (m: Covariance)
    ensures m == IMinusKH(gain, h)
  {
    ghost var goal := IMinusKH(gain, h);
    var iMinusKH := new real[STATES, STATES]((i, j) => 0.0);
    for row := 0 to STATES
      invariant forall i, j | 0 <= i < row && 0 <= j < STATES :: iMinusKH[i, j] == goal[i][j]
    {
      for col := 0 to STATES
        invariant forall i, j | 0 <= i < row && 0 <= j < STATES :: iMinusKH[i, j] == goal[i][j]
        invariant forall j | 0 <= j < col :: iMinusKH[row, j] == goal[row][j]
      {
        iMinusKH[row, col] := (if row == col then 1.0 else 0.0) - gain[row] * h[col];
        assert Scale(gain[row], h)[col] == gain[row] * h[col];
      }
    }
    RowsAre(iMinusKH, goal);
    m := Rows(iMinusKH);
  }

  /** The covariance half of a scalar correction, in the nested loops of the Joseph form. */
  method JosephUpdate(p: Covariance, h: StateVec, r: real, gain: StateVec) returns (updated: Covariance)
    requires InnovationVariance(p, h, r) > 0.0 && gain == Gain(p, h, r)
    ensures updated == Symmetrized(Joseph(p, h, r))
  {
    hide Dot, VecMat, InnovationVariance, Gain;
    var m := IdentityMinus(gain, h);
    var left := Product(m, p);
    ghost var goal := Joseph(p, h, r);
    var joseph := new real[STATES, STATES]((i, j) => 0.0);
    for row := 0 to STATES
      invariant forall i, j | 0 <= i < row && 0 <= j < STATES :: joseph[i, j] == goal[i][j]
    {
      for col := 0 to STATES
        invariant forall i, j | 0 <= i < row && 0 <= j < STATES :: joseph[i, j] == goal[i][j]
        invariant forall j | 0 <= j < col :: joseph[row, j] == goal[row][j]
      {
        joseph[row, col] := Dot(left[row], m[col]) + gain[row] * r * gain[col];
        assert Congruence(m, p)[row][col] == Dot(left[row], m[col]);
      }
    }
    RowsAre(joseph, goal);
    Symmetrize(joseph);
    updated := Rows(joseph);
  }

  // ----- whole runs ------------------------------------------------------------------

  datatype FilterStep = FilterStep(previous: InputVec, current: InputVec, y: EstimatorMeasurement)

  ghost function FilterRun(d: EkfDesign, f: FilterState, steps: seq<FilterStep>): (g: FilterState)
    requires d.WellFormed()
  {
    if |steps| == 0 then f
    else var s := steps[|steps| - 1];
      FilterAfter(d, FilterRun(d, f, steps[..|steps| - 1]), s.previous, s.current, s.y)
  }

  ghost predicate AnyAccepted(d: EkfDesign, steps: seq<FilterStep>) {
    |steps| > 0 && (AnyAccepted(d, steps[..|steps| - 1]) || Refusal(d.required, steps[|steps| - 1].y).None?)
  }

  ghost predicate NoiseAboveLimit(d: EkfDesign) {
    forall i | 0 <= i < CHANNELS :: d.used.Contains(i) ==> d.measurementVariance[i] > MIN_INNOVATION_VARIANCE
  }

  lemma DiagonalNotAboveTransitive(p: Covariance, q: Covariance, r: Covariance)
    requires DiagonalNotAbove(p, q) && DiagonalNotAbove(q, r)
    ensures DiagonalNotAbove(p, r)
  {}

  lemma CorrectedKeeps(d: EkfDesign, f: FilterState, channel: nat, y: real, u: InputVec)
    requires d.WellFormed() && CovarianceKept(f.p) && AboveFloor(f.p) && channel < CHANNELS
    ensures match Corrected(d, f, channel, y, u)
      case Some(g) => CovarianceKept(g.p) && AboveFloor(g.p) && DiagonalNotAbove(g.p, f.p)
      case None => d.measurementVariance[channel] <= MIN_INNOVATION_VARIANCE
  {
    hide Dot, MulVec, CovarianceKept, AboveFloor, Joseph, Symmetrized, JacobianRow, InnovationVariance, NonlinearMeasurement;
    var h := JacobianRow(d, f.x, channel);
    var r := d.measurementVariance[channel];
    KeptIsPositive(f.p);
    VarianceAtLeast(f.p, h, r);
    CorrectionKeeps(f.p, h, r);
    CorrectionShrinksDiagonal(f.p, h, r);
  }

  lemma KeptIsPositive(p: Covariance)
    requires CovarianceKept(p)
    ensures PositiveSemidefinite(p)
  {}

  /** However many channels are corrected, and wherever a fault stops them, the
      covariance stays kept and no diagonal entry grows. */
  lemma {:induction false} CorrectionsKeep(d: EkfDesign, f: FilterState, channel: nat, y: EstimatorMeasurement, u: InputVec)
    requires d.WellFormed() && CovarianceKept(f.p) && AboveFloor(f.p) && channel <= CHANNELS
    ensures var (g, ok) := Corrections(d, f, channel, y, u);
      && CovarianceKept(g.p) && AboveFloor(g.p) && DiagonalNotAbove(g.p, f.p)
      && (NoiseAboveLimit(d) ==> ok)
    decreases CHANNELS - channel
  {
    hide Dot, CovarianceKept, AboveFloor, Corrected;
    if channel == CHANNELS {
    } else if !d.used.Contains(channel) || !y.available.Contains(channel) {
      CorrectionsKeep(d, f, channel + 1, y, u);
    } else {
      CorrectedKeeps(d, f, channel, y.values[channel], u);
      match Corrected(d, f, channel, y.values[channel], u)
      case None =>
      case Some(g) =>
        CorrectionsKeep(d, g, channel + 1, y, u);
        DiagonalNotAboveTransitive(Corrections(d, g, channel + 1, y, u).0.p, g.p, f.p);
    }
  }

  /** With every used noise variance above the limit an accepted step never faults. */
  lemma StepKeeps(d: EkfDesign, f: FilterState, s: FilterStep)
    requires d.WellFormed() && CovarianceKept(f.p)
    ensures var g := FilterAfter(d, f, s.previous, s.current, s.y);
      && CovarianceKept(g.p)
      && (if Refusal(d.required, s.y).None? then AboveFloor(g.p) && DiagonalNotAbove(g.p, PredictedCovariance(d, f.p)) else g == f)
    ensures NoiseAboveLimit(d) && Refusal(d.required, s.y).None? ==>
      StepResult(d, f, s.previous, s.current, s.y) == Ok(Usable(d, s.y, CHANNELS))
  {
    hide Dot, CovarianceKept, AboveFloor, Corrected, PredictedCovariance, PredictedState, Corrections, DiagonalNotAbove, Refusal;
    PredictionKeeps(d, f.p);
    CorrectionsKeep(d, PredictedFilter(d, f, s.previous), 0, s.y, s.current);
  }

  /** Over any sequence of steps, accepted, refused or faulted, with any masks
      and any measurements, the covariance is symmetric positive semidefinite,
      and from the first accepted step on its diagonal is at or above the floor. */
  lemma {:induction false} RunKeepsCovariance(d: EkfDesign, f: FilterState, steps: seq<FilterStep>)
    requires d.WellFormed() && CovarianceKept(f.p)
    ensures CovarianceKept(FilterRun(d, f, steps).p)
    ensures AnyAccepted(d, steps) ==> AboveFloor(FilterRun(d, f, steps).p)
  {
    hide Dot, CovarianceKept, AboveFloor, FilterAfter, Refusal;
    if |steps| > 0 {
      var n := |steps| - 1;
      RunKeepsCovariance(d, f, steps[..n]);
      StepKeeps(d, FilterRun(d, f, steps[..n]), steps[n]);
    }
  }

  /** Where the measurement row is zero and gravity adds nothing, a correction
      faults exactly when the channel's noise variance is not above the limit. */
  lemma ZeroRowFaultsExactly(d: EkfDesign, f: FilterState, channel: nat, y: real, u: InputVec)
    requires d.WellFormed() && ACCEL_Z < channel < CHANNELS && d.measurement.c[channel] == Zero(STATES)
    ensures Corrected(d, f, channel, y, u).None? <==> d.measurementVariance[channel] <= MIN_INNOVATION_VARIANCE
  {
    hide Dot, NonlinearMeasurement, Joseph, Symmetrized;
    ZeroRowVariance(f.p, JacobianRow(d, f.x, channel), d.measurementVariance[channel]);
  }
}
