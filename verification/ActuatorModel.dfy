/** The static actuator model and its inverse: deadzone, gain, friction. */
module ActuatorModel {
  import LinearAlgebra

  datatype Parameters = Parameters(gain: real, deadzone: real, viscous: real, coulomb: real, signEpsilon: real)

  predicate Admissible(p: Parameters) {
    p.gain > 0.0 && 0.0 <= p.deadzone < 1.0 && p.viscous >= 0.0 && p.coulomb >= 0.0 && p.signEpsilon > 0.0
  }

  type Model = p: Parameters | Admissible(p) witness Parameters(1.0, 0.0, 0.0, 0.0, 1.0)

  type Command = c: real | -1.0 <= c <= 1.0

  datatype Bounded = Bounded(command: Command, saturated: bool, predicted: real)

  function Abs(x: real): real { if x >= 0.0 then x else -x }

  function Signum(x: real): real { if x >= 0.0 then 1.0 else -1.0 }

  function Clamp(x: real, low: real, high: real): (r: real)
    requires low <= high
    ensures low <= r <= high
  {
    if x < low then low else if x > high then high else x
  }

  function EffectiveCommand(command: real, deadzone: real): real
    requires deadzone < 1.0
  {
    var magnitude := Abs(command);
    if magnitude <= deadzone then 0.0 else Signum(command) * (magnitude - deadzone) / (1.0 - deadzone)
  }

  function InverseEffectiveCommand(effective: real, deadzone: real): real {
    if effective == 0.0 then 0.0 else Signum(effective) * (deadzone + (1.0 - deadzone) * Abs(effective))
  }

  function FrictionTorque(p: Model, speed: real): real {
    p.viscous * speed + p.coulomb * (if speed > p.signEpsilon then 1.0 else if speed < -p.signEpsilon then -1.0 else 0.0)
  }

  function TorqueFromCommand(p: Model, command: Command, speed: real): real {
    p.gain * EffectiveCommand(command, p.deadzone) - FrictionTorque(p, speed)
  }

  function RequiredEffective(p: Model, requested: real, speed: real): real {
    (requested + FrictionTorque(p, speed)) / p.gain
  }

  function CommandForTorque(p: Model, requested: real, speed: real): Bounded {
    var required := RequiredEffective(p, requested, speed);
    var bounded := Clamp(required, -1.0, 1.0);
    InverseInRange(bounded, p.deadzone);
    var command: Command := InverseEffectiveCommand(bounded, p.deadzone);
    Bounded(command, Abs(required) > 1.0, TorqueFromCommand(p, command, speed))
  }

  // ----- the deadzone maps -------------------------------------------------------------

  lemma SignedBy(e: real, x: real)
    ensures Signum(e) * x == if e >= 0.0 then x else -x
  {}

  lemma ScaledRange(scale: real, x: real)
    requires 0.0 <= x <= 1.0 && 0.0 <= scale
    ensures 0.0 <= scale * x <= scale
  {}

  /** An admissible effort always has an admissible command. */
  lemma InverseInRange(e: real, d: real)
    requires -1.0 <= e <= 1.0 && 0.0 <= d < 1.0
    ensures -1.0 <= InverseEffectiveCommand(e, d) <= 1.0
  {
    if e != 0.0 {
      var m := InverseAway(e, d);
      hide InverseEffectiveCommand;
    }
  }

  lemma ProductQuotient(a: real, b: real)
    requires b != 0.0
    ensures b * a / b == a && b * (a / b) == a
  {}

  lemma SignedQuotient(e: real, x: real, scale: real)
    requires scale > 0.0
    ensures Signum(e) * x / scale == if e >= 0.0 then x / scale else -(x / scale)
  {
    SignedBy(e, x);
    assert (-x) / scale == -(x / scale);
  }

  /** Outside the deadzone the effort keeps the sign and grows linearly from zero to one. */
  lemma EffectiveBeyond(c: real, d: real)
    requires 0.0 <= d < 1.0 && Abs(c) > d
    ensures EffectiveCommand(c, d) == (if c >= 0.0 then (Abs(c) - d) / (1.0 - d) else -((Abs(c) - d) / (1.0 - d)))
    ensures (Abs(c) - d) / (1.0 - d) > 0.0
  {
    SignedQuotient(c, Abs(c) - d, 1.0 - d);
    LinearAlgebra.PositiveQuotient(Abs(c) - d, 1.0 - d);
    hide Signum;
  }

  /** The command's magnitude is above the deadzone, and undoes to the effort's. */
  lemma Stretched(a: real, d: real) returns (m: real)
    requires a > 0.0 && 0.0 <= d < 1.0
    ensures m == d + (1.0 - d) * a && m > d && (a <= 1.0 ==> m <= 1.0) && (m - d) / (1.0 - d) == a
  {
    m := StretchedBy(a, d, 1.0 - d);
  }

  /** The same with the slope as one number, so that it is not multiplied out. */
  lemma StretchedBy(a: real, d: real, scale: real) returns (m: real)
    requires a > 0.0 && scale > 0.0
    ensures m == d + scale * a && m > d && (a <= 1.0 ==> m <= d + scale) && (m - d) / scale == a
  {
    m := d + scale * a;
    PositiveProduct(scale, a);
    if a <= 1.0 { ScaledRange(scale, a); }
    QuotientOfProduct(m - d, scale, a);
  }

  lemma InverseAway(e: real, d: real) returns (m: real)
    requires e != 0.0 && 0.0 <= d < 1.0
    ensures InverseEffectiveCommand(e, d) == if e >= 0.0 then m else -m
    ensures m > d && (Abs(e) <= 1.0 ==> m <= 1.0) && (m - d) / (1.0 - d) == Abs(e)
  {
    m := Stretched(Abs(e), d);
    SignedBy(e, m);
  }

  /** Every effort is recovered from its command. */
  lemma EffectiveOfInverse(e: real, d: real)
    requires 0.0 <= d < 1.0
    ensures EffectiveCommand(InverseEffectiveCommand(e, d), d) == e
  {
    if e != 0.0 {
      var m := InverseAway(e, d);
      hide InverseEffectiveCommand, EffectiveCommand;
      EffectiveBeyond(InverseEffectiveCommand(e, d), d);
    }
  }

  lemma QuotientOfProduct(x: real, scale: real, a: real)
    requires scale > 0.0 && x == scale * a
    ensures x / scale == a
  {}

  lemma PositiveProduct(a: real, b: real)
    requires a > 0.0 && b > 0.0
    ensures a * b > 0.0
  {}

  /** A command is recovered from its effort exactly when it lies outside the deadzone or is zero. */
  lemma InverseOfEffective(c: real, d: real)
    requires 0.0 <= d < 1.0
    ensures InverseEffectiveCommand(EffectiveCommand(c, d), d) == c <==> c == 0.0 || Abs(c) > d
  {
    if Abs(c) > d {
      EffectiveBeyond(c, d);
      hide InverseEffectiveCommand, EffectiveCommand;
      var m := InverseAway(EffectiveCommand(c, d), d);
      SameQuotient(m - d, Abs(c) - d, 1.0 - d);
    }
  }

  lemma SameQuotient(x: real, y: real, scale: real)
    requires scale > 0.0 && x / scale == y / scale
    ensures x == y
  {
    ProductQuotient(x, scale);
    ProductQuotient(y, scale);
  }

  /** The effort of an admissible command is admissible. */
  lemma EffectiveInRange(c: Command, d: real)
    requires 0.0 <= d < 1.0
    ensures -1.0 <= EffectiveCommand(c, d) <= 1.0
  {
    if Abs(c) > d {
      EffectiveBeyond(c, d);
      hide EffectiveCommand;
      QuotientAtMostOne(Abs(c) - d, 1.0 - d);
    }
  }

  lemma QuotientAtMostOne(a: real, b: real)
    requires 0.0 <= a <= b && b > 0.0
    ensures 0.0 <= a / b <= 1.0
  {}

  // ----- the inverse model -----------------------------------------------------------------

  /** The torque the command is predicted to give: the request plus the loss, limited
      to what the motor can make, less the loss. */
  lemma PredictedIsClamped(p: Model, requested: real, speed: real)
    ensures var loss := FrictionTorque(p, speed);
      CommandForTorque(p, requested, speed).predicted == Clamp(requested + loss, -p.gain, p.gain) - loss
  {
    var required := RequiredEffective(p, requested, speed);
    var loss := FrictionTorque(p, speed);
    hide FrictionTorque;
    EffectiveOfInverse(Clamp(required, -1.0, 1.0), p.deadzone);
    ScaledClamp(requested + loss, p.gain);
  }

  lemma ScaledClamp(x: real, gain: real)
    requires gain > 0.0
    ensures gain * Clamp(x / gain, -1.0, 1.0) == Clamp(x, -gain, gain)
  {
    ProductQuotient(x, gain);
    var q := x / gain;
    assert x == gain * q;
    if q > 1.0 { assert gain * q > gain * 1.0; }
    if q < -1.0 { assert gain * q < gain * -1.0; }
  }

  lemma BeyondGain(x: real, gain: real)
    requires gain > 0.0
    ensures Abs(x / gain) > 1.0 <==> Abs(x) > gain
  {
    ScaledClamp(x, gain);
    ProductQuotient(x, gain);
  }

  /** The request is met exactly when the command is not saturated. */
  lemma MetExactlyUnsaturated(p: Model, requested: real, speed: real)
    ensures var b := CommandForTorque(p, requested, speed);
      b.predicted == requested <==> !b.saturated
  {
    PredictedIsClamped(p, requested, speed);
    BeyondGain(requested + FrictionTorque(p, speed), p.gain);
    hide FrictionTorque;
  }

  /** Every admissible command's motor torque lies within the gain. */
  lemma MotorTorqueBounded(p: Model, c: Command)
    ensures -p.gain <= p.gain * EffectiveCommand(c, p.deadzone) <= p.gain
  {
    EffectiveInRange(c, p.deadzone);
    hide EffectiveCommand;
    SignedRange(p.gain, EffectiveCommand(c, p.deadzone));
  }

  lemma SignedRange(gain: real, e: real)
    requires gain > 0.0 && -1.0 <= e <= 1.0
    ensures -gain <= gain * e <= gain
  {
    ScaledRange(gain, Abs(e));
    assert gain * -e == -(gain * e);
  }

  /** No other admissible command comes closer to the request. */
  lemma BestCommand(p: Model, requested: real, speed: real, other: Command)
    ensures Abs(CommandForTorque(p, requested, speed).predicted - requested)
         <= Abs(TorqueFromCommand(p, other, speed) - requested)
  {
    var b := CommandForTorque(p, requested, speed);
    var loss, motor := FrictionTorque(p, speed), p.gain * EffectiveCommand(other, p.deadzone);
    assert b.predicted == Clamp(requested + loss, -p.gain, p.gain) - loss by { PredictedIsClamped(p, requested, speed); }
    assert -p.gain <= motor <= p.gain by { MotorTorqueBounded(p, other); }
    assert TorqueFromCommand(p, other, speed) == motor - loss;
    ClampIsNearest(requested + loss, p.gain, motor, loss);
    hide *;
  }

  lemma ClampIsNearest(x: real, gain: real, y: real, loss: real)
    requires gain > 0.0 && -gain <= y <= gain
    ensures Abs(Clamp(x, -gain, gain) - loss - (x - loss)) <= Abs(y - loss - (x - loss))
  {}

  /** Asking for a torque some command gives yields that torque. */
  lemma ReproducesAttainable(p: Model, c: Command, speed: real)
    ensures var t := TorqueFromCommand(p, c, speed);
      var b := CommandForTorque(p, t, speed);
      && b.predicted == t && !b.saturated
      && (b.command == c <==> c == 0.0 || Abs(c) > p.deadzone)
  {
    var t := TorqueFromCommand(p, c, speed);
    var e := EffectiveCommand(c, p.deadzone);
    EffectiveInRange(c, p.deadzone);
    ProductQuotient(e, p.gain);
    assert RequiredEffective(p, t, speed) == p.gain * e / p.gain == e;
    MetExactlyUnsaturated(p, t, speed);
    InverseOfEffective(c, p.deadzone);
    hide FrictionTorque, EffectiveCommand, InverseEffectiveCommand, TorqueFromCommand, RequiredEffective;
  }

  /** Friction never drives: it takes power whatever the speed. */
  lemma FrictionDissipates(p: Model, speed: real)
    ensures FrictionTorque(p, speed) * speed >= 0.0
  {
    var sign := if speed > p.signEpsilon then 1.0 else if speed < -p.signEpsilon then -1.0 else 0.0;
    assert sign * speed >= 0.0;
    var square, turned := speed * speed, sign * speed;
    assert p.viscous * square >= 0.0 && p.coulomb * turned >= 0.0;
    assert FrictionTorque(p, speed) * speed == p.viscous * square + p.coulomb * turned;
  }

  /** Friction opposes either direction alike: viscous alone where the shaft is as good as still, and the Coulomb
      torque on top of it beyond. */
  lemma FrictionShape(p: Model, speed: real)
    ensures FrictionTorque(p, -speed) == -FrictionTorque(p, speed)
    ensures Abs(speed) <= p.signEpsilon ==> FrictionTorque(p, speed) == p.viscous * speed
    ensures speed > p.signEpsilon ==> FrictionTorque(p, speed) - p.viscous * speed == p.coulomb
  {
    assert p.viscous * -speed == -(p.viscous * speed);
  }

  /** A larger request never gives a smaller torque, and the torque moves no more than the request. */
  lemma PredictedMonotone(p: Model, less: real, more: real, speed: real)
    requires less <= more
    ensures var a, b := CommandForTorque(p, less, speed).predicted, CommandForTorque(p, more, speed).predicted;
      a <= b <= a + (more - less)
  {
    PredictedIsClamped(p, less, speed);
    PredictedIsClamped(p, more, speed);
    hide FrictionTorque, CommandForTorque;
  }
}
