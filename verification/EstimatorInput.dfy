/** From body-frame sensor evidence to the measurement the estimators consume. */
module EstimatorInput {
  import opened Wrappers
  import opened MachineInts
  import opened ObservationRecord
  import opened EncoderTracking
  import opened StateEstimator

  const DRIVE_ENCODER_RELATIVE_ANGLE: nat := 6
  const REACTION_WHEEL_RELATIVE_RATE: nat := 7

  datatype BodyImu = BodyImu(acceleration: seq<real>, angularRate: seq<real>, quality: u16)

  type BodyImuObservation = i: BodyImu | |i.acceleration| == 3 && |i.angularRate| == 3
    witness BodyImu([0.0, 0.0, 0.0], [0.0, 0.0, 0.0], 0)

  datatype ChannelStatus = Primed | Ready | Rejected(error: TrackingError)

  datatype Frame = Frame(measurement: EstimatorMeasurement, drive: ChannelStatus, reaction: ChannelStatus)

  predicate Usable(quality: u16) {
    Has(quality, AVAILABLE) && Has(quality, IO_OK) && !Has(quality, IO_ERROR) && !Has(quality, STALE)
  }

  predicate TimingProven(quality: u16) {
    Usable(quality) && Has(quality, TIMING_VALID) && Has(quality, FRESHNESS_VERIFIED)
  }

  /** A reading is usable when taken and transferred without an error and not stale; its timing is proven when
      besides that both its time and its freshness are. */
  lemma QualityMeans(quality: u16)
    ensures Usable(quality) <==> BitSet(quality, 0) && BitSet(quality, 1) && !BitSet(quality, 2) && !BitSet(quality, 6)
    ensures TimingProven(quality) <==> Usable(quality) && BitSet(quality, 3) && BitSet(quality, 4)
  {
    FlagIsBit(quality);
    hide Has, BitSet;
  }

  /** The status an encoder channel reports from this tracker state. */
  function StatusOf(t: Tracker, raw: Encoder): ChannelStatus {
    match TrackingRefusal(t, raw)
    case Some(e) => Rejected(e)
    case None => if t.previous.None? then Primed else Ready
  }

  /** The channels a frame makes available: the IMU's six when it is usable, the drive
      angle unless its encoder was refused, the reaction rate once its encoder has two samples. */
  ghost function AvailableChannels(imu: BodyImuObservation, drive: ChannelStatus, reaction: ChannelStatus): set<nat> {
    (if Usable(imu.quality) then {0, 1, 2, 3, 4, 5} else {})
    + (if drive.Rejected? then {} else {DRIVE_ENCODER_RELATIVE_ANGLE})
    + (if reaction.Ready? then {REACTION_WHEEL_RELATIVE_RATE} else {})
  }

  /** The frame the builder makes of one acquisition with its trackers in these states. */
  function BuiltFrame(imu: BodyImuObservation, drive: Tracker, driveRaw: Encoder, reaction: Tracker, reactionRaw: Encoder): Frame {
    var base: ChannelVec := if Usable(imu.quality) then imu.acceleration + imu.angularRate + [0.0, 0.0]
                            else [0.0, 0.0, 0.0, 0.0, 0.0, 0.0, 0.0, 0.0];
    var mask := if Usable(imu.quality) then WithImu(MeasurementMask({})) else MeasurementMask({});
    var angle, rate := Report(drive, driveRaw), Report(reaction, reactionRaw);
    var withAngle := if angle.Ok? then base[DRIVE_ENCODER_RELATIVE_ANGLE := angle.value.angle] else base;
    var angleMask := if angle.Ok? then mask.With(DRIVE_ENCODER_RELATIVE_ANGLE) else mask;
    var hasRate := rate.Ok? && rate.value.rate.Some?;
    Frame(EstimatorMeasurement(
            if hasRate then withAngle[REACTION_WHEEL_RELATIVE_RATE := rate.value.rate.value] else withAngle,
            if hasRate then angleMask.With(REACTION_WHEEL_RELATIVE_RATE) else angleMask,
            TimingProven(imu.quality)),
          StatusOf(drive, driveRaw), StatusOf(reaction, reactionRaw))
  }

  function WithImu(mask: MeasurementMask): (r: MeasurementMask)
    ensures r == MeasurementMask(mask.channels + {0, 1, 2, 3, 4, 5})
  {
    mask.With(0).With(1).With(2).With(3).With(4).With(5)
  }

  method ObserveEncoder(tracker: EncoderTracker, raw: Encoder) returns (status: ChannelStatus, sample: Option<Sample>)
    requires tracker.Valid()
    modifies tracker
    ensures tracker.Valid() && tracker.View() == After(old(tracker.View()), raw)
    ensures status == StatusOf(old(tracker.View()), raw)
    ensures var report := Report(old(tracker.View()), raw);
      sample == if report.Ok? then Some(report.value) else None
  {
    hide TrackingRefusal, After, RadiansPerCount, Seconds;
    var r := tracker.Observe(raw);
    match r
    case Ok(value) => return if value.rate.Some? then Ready else Primed, Some(value);
    case Err(e) => return Rejected(e), None;
  }

  class EstimatorInputBuilder {
    const drive: EncoderTracker
    const reaction: EncoderTracker

    ghost predicate Valid()
      reads drive, reaction
    {
      drive != reaction && drive.Valid() && reaction.Valid()
    }

    constructor (driveTransfer: EncoderTransfer, reactionTransfer: EncoderTransfer)
      ensures Valid() && fresh(drive) && fresh(reaction)
      ensures drive.View() == Tracker(driveTransfer, None, 0) && reaction.View() == Tracker(reactionTransfer, None, 0)
    {
      drive := new EncoderTracker(driveTransfer);
      reaction := new EncoderTracker(reactionTransfer);
    }

    method Reset()
      requires Valid()
      modifies drive, reaction
      ensures Valid()
      ensures drive.View() == Tracker(drive.transfer, None, 0) && reaction.View() == Tracker(reaction.transfer, None, 0)
    {
      drive.Reset();
      reaction.Reset();
    }

    method Build(imu: BodyImuObservation, driveRaw: Encoder, reactionRaw: Encoder) returns (f: Frame)
      requires Valid()
      modifies drive, reaction
      ensures Valid() && drive.View() == After(old(drive.View()), driveRaw)
      ensures reaction.View() == After(old(reaction.View()), reactionRaw)
      ensures f == BuiltFrame(imu, old(drive.View()), driveRaw, old(reaction.View()), reactionRaw)
    {
      hide Report, StatusOf, After, Usable, TimingProven;
      var values: ChannelVec := [0.0, 0.0, 0.0, 0.0, 0.0, 0.0, 0.0, 0.0];
      var available := MeasurementMask({});
      if Usable(imu.quality) {
        values := imu.acceleration + imu.angularRate + [0.0, 0.0];
        available := WithImu(available);
      }
      var driveStatus, driveSample := ObserveEncoder(drive, driveRaw);
      if driveSample.Some? {
        values := values[DRIVE_ENCODER_RELATIVE_ANGLE := driveSample.value.angle];
        available := available.With(DRIVE_ENCODER_RELATIVE_ANGLE);
      }
      var reactionStatus, reactionSample := ObserveEncoder(reaction, reactionRaw);
      if reactionSample.Some? && reactionSample.value.rate.Some? {
        values := values[REACTION_WHEEL_RELATIVE_RATE := reactionSample.value.rate.value];
        available := available.With(REACTION_WHEEL_RELATIVE_RATE);
      }
      f := Frame(EstimatorMeasurement(values, available, TimingProven(imu.quality)), driveStatus, reactionStatus);
    }
  }

  /** What a frame makes available is exactly what the statuses say. */
  lemma FrameChannels(imu: BodyImuObservation, drive: Tracker, driveRaw: Encoder, reaction: Tracker, reactionRaw: Encoder)
    ensures var f := BuiltFrame(imu, drive, driveRaw, reaction, reactionRaw);
      && f.measurement.available == MeasurementMask(AvailableChannels(imu, f.drive, f.reaction))
      && f.measurement.timingValid == TimingProven(imu.quality)
  {
    ReportStatus(drive, driveRaw);
    ReportStatus(reaction, reactionRaw);
    hide Report, StatusOf, After, Usable, TimingProven, RateFits;
  }

  /** Unavailable encoder channels read zero; available ones read the tracker's angle and the step's rate. */
  lemma FrameValues(imu: BodyImuObservation, drive: Tracker, driveRaw: Encoder, reaction: Tracker, reactionRaw: Encoder)
    requires (drive.previous.None? ==> drive.counts == 0) && (reaction.previous.None? ==> reaction.counts == 0)
    ensures var f := BuiltFrame(imu, drive, driveRaw, reaction, reactionRaw);
      && (Usable(imu.quality) ==> f.measurement.values[..6] == imu.acceleration + imu.angularRate)
      && f.measurement.values[6] == (if f.drive.Rejected? then 0.0 else AngleOf(drive.transfer, After(drive, driveRaw).counts))
      && (if f.reaction.Ready? then RateFits(reaction, reactionRaw, f.measurement.values[7]) else f.measurement.values[7] == 0.0)
  {
    ReportStatus(drive, driveRaw);
    ReportReports(drive, driveRaw);
    ReportStatus(reaction, reactionRaw);
    ReportReports(reaction, reactionRaw);
    hide Report, StatusOf, After, Usable, TimingProven, AngleOf, RateFits, WithImu;
  }

  lemma ReportStatus(t: Tracker, raw: Encoder)
    ensures var report, status := Report(t, raw), StatusOf(t, raw);
      (report.Ok? <==> !status.Rejected?) && (report.Ok? && report.value.rate.Some? <==> status.Ready?)
  {
    hide TrackingRefusal, WrappedDelta, AngleOf, RateOf;
  }

  lemma ReportReports(t: Tracker, raw: Encoder)
    requires t.previous.None? ==> t.counts == 0
    ensures var report, status := Report(t, raw), StatusOf(t, raw);
      && (report.Ok? ==> report.value.angle == AngleOf(t.transfer, After(t, raw).counts))
      && (status.Ready? ==> report.Ok? && report.value.rate.Some? && RateFits(t, raw, report.value.rate.value))
  {
    hide TrackingRefusal, WrappedDelta, AngleOf, RateOf, Seconds;
    if TrackingRefusal(t, raw).None? { ReportMeans(t, raw); }
  }

  /** The rate times the elapsed time is how far the tracked angle moved. */
  predicate RateFits(t: Tracker, raw: Encoder, rate: real) {
    && raw.capturedAt.Known? && t.previous.Some?
    && rate * Seconds(raw.capturedAt.at - t.previous.value.at) == AngleOf(t.transfer, After(t, raw).counts - t.counts)
  }

  /** An observer that needs all eight channels accepts a frame exactly when the IMU's
      timing is proven, the drive encoder was not refused and the reaction encoder has a rate. */
  lemma CompleteFrameExactly(imu: BodyImuObservation, drive: ChannelStatus, reaction: ChannelStatus)
    ensures TimingProven(imu.quality) && (forall i | 0 <= i < CHANNELS :: i in AvailableChannels(imu, drive, reaction))
      <==> TimingProven(imu.quality) && !drive.Rejected? && reaction.Ready?
  {
    hide Has;
    var channels := AvailableChannels(imu, drive, reaction);
    if forall i | 0 <= i < CHANNELS :: i in channels {
      assert 6 in channels && 7 in channels;
    }
  }
}
