# Single-wheel platform: a verified model

This project models the core of the single-wheel balancing platform in Dafny and
proves what its parts promise: the two state estimators, the plant physics and its
simulation, the recording wire format and the link that carries it, encoder
unwrapping, the bit-banged I2C master, the control runtime with its supervisor, and
the deterministic scheduler that drives all of them as one closed loop.

Every part that changes state step by step is a class or a method with loops, proved
against a specification function; the theorems about whole runs are lemmas about those
functions. One module per file:

- `Wrappers`, `MachineInts`, `LinearAlgebra`: shared vocabulary (machine integers and
  their bits, real vectors and matrices).
- `StateEstimator`, `Ekf`, `EkfMeaning`, `EkfJacobian`: the fixed-gain observer with its
  exact error recursion, the extended Kalman filter with its covariance invariant, what its
  corrections do and why its gain is the best, and its Jacobian as a first-order part.
- `I2cWire`, `I2cPlan`, `SoftwareI2c`: what a bus monitor sees and reads (NXP UM10204
  sections 3.1.3 to 3.1.6, 3.1.9 and 3.1.10), what a transaction means to clock out, and
  the driver itself.
- `Crc16`, `Crc16Remainder`, `ObservationRecord`, `RecordStream`, `RecordLink`: the record
  codec and its check as a polynomial remainder, the stream decoders, the interrupt/DMA queue and the receiver's gap counter.
- `EncoderTracking`, `EstimatorInput`: 16-bit unwrapping and the measurement frame.
- `ActuatorModel`, `DynamicsModel`, `UprightCertificates`, `UprightMeasurement`,
  `SimulationWorld`: the physics, its certificates and its integrator.
- `RuntimeState`, `RuntimeSupervisor`, `ControlRuntime`: timing, authority, fault latch,
  guarded integrator.
- `Scheduler`, `SitlRun`, `RunLoop`, `RunTimeline`: scenarios, schedule, run loop.
- `ClosedLoop`, `ClosedLoopLaw`, `ClosedLoopRuns`, `ClosedLoopTheorems`: the composition,
  what its events mean for shafts, torque and momentum, and the theorems about every slice
  boundary of every run.

Expectations the code does not meet as commonly put, each with an input that shows it and
its exact condition:

- A slave that moves SDA only while SCL is low can still spoil an I2C waveform by holding
  SDA where the master needs it high (`I2cPlan.SlaveCanHideTheStop`); the monitor recovers
  the transaction if and only if it does not (`I2cPlan.MonitorRecoversExactly`).
- The filter's innovation-variance fault is unreachable only for channels with noise
  variance above 1e-12 (`Ekf.FaultUnreachableExactly`); the production model's yaw-rate
  row is zero, so there the limit is what decides (`UprightMeasurement.YawRateFaultsExactly`).
- A failed I2C transaction need not end in a STOP with both lines released
  (`SoftwareI2c.RefusalCanStayHeld`), nor show a single START
  (`SoftwareI2c.TimeoutCanShowStart`); `SoftwareI2c.SoftwareI2c.Transaction` says exactly
  when it does, by the stretch the slave has left.
- Bytes the decoder accepts need not come back when re-encoded
  (`ObservationRecord.AcceptedNotReencoded`); they do if and only if no optional offset
  leaves the 64-bit range (`ObservationRecord.EncodeDecoded`).
- Closed loop can be reached without a hardware check
  (`RuntimeSupervisor.ClearSkipsHardwareCheck`); past it the check was accepted if and only
  if no fault was latched before it (`RuntimeSupervisor.WayUp`).

`dafny verify dfyconfig.toml` checks the whole project.

## Model

| member | source | states |
|---|---|---|
| `StateEstimator.PredictMeasurement` | plant/measurement-model/src/lib.rs:60-73 | the loop over eight rows yields nominal + C x + D u |
| `StateEstimator.PredictState` | supervisor/state-estimator/src/lib.rs:226-230 | each entry of the predicted state is A x + B u |
| `StateEstimator.PredictionIsLinear` | supervisor/state-estimator/src/lib.rs:226-230 | a change of state or input adds its own response, and each state and each input alone responds with its own column of A or B |
| `StateEstimator.AcceptedExactly` | supervisor/state-estimator/src/lib.rs:196-224 | a step is accepted if and only if timing is valid and every required channel is available |
| `StateEstimator.FirstMissingIsFirst` | supervisor/state-estimator/src/lib.rs:212-224 | the channel an error names is the lowest required one that is missing, and there is none exactly when all are present |
| `StateEstimator.RefusedExactly` | supervisor/state-estimator/src/lib.rs:196-224 | a step is refused for timing if and only if timing is invalid, for a channel if and only if timing is valid and it is the lowest required channel without a sample, and for nothing else |
| `StateEstimator.LinearObserver.Step` | supervisor/state-estimator/src/lib.rs:190-256 | a refused step names its cause, drops validity and leaves the state vector alone; an accepted one stores prediction plus gain times the masked innovation |
| `StateEstimator.LinearObserver.FindMissing` | supervisor/state-estimator/src/lib.rs:212-224 | the scan returns the first required channel without a sample |
| `StateEstimator.LinearObserver.Innovate` | supervisor/state-estimator/src/lib.rs:232-241 | the innovation is measurement minus prediction on required channels and zero elsewhere, whatever the other channels hold |
| `StateEstimator.LinearObserver.AddCorrection` | supervisor/state-estimator/src/lib.rs:243-246 | the correction loop adds the gain times the innovation to every row |
| `StateEstimator.LinearObserver.Reset` | supervisor/state-estimator/src/lib.rs:163-172 | the state is replaced and no longer valid |
| `StateEstimator.ErrorStep` | supervisor/state-estimator/src/lib.rs:190-256 | against the exact plant one accepted step maps the error by T = (I - L M C) A, whatever the inputs, feedthrough, nominal output and non-required channels |
| `StateEstimator.ErrorAfterRun` | supervisor/state-estimator/src/lib.rs:190-256 | after n accepted steps the error is T applied n times to the first error |
| `StateEstimator.TransitionIsSynthesised` | tools/control/synthesize_upright.py:307-318 | T is the matrix whose spectral radius the synthesis checks, built from the selected gain columns and measurement rows |
| `Ekf.PredictNonlinear` | supervisor/ekf/src/lib.rs:366-381 | the affine measurement plus the three gravity terms |
| `Ekf.Product` | supervisor/ekf/src/lib.rs:261-290 | the nested index loops compute the matrix product |
| `Ekf.PredictCovariance` | supervisor/ekf/src/lib.rs:261-290 | the predict loops leave A P A' + Q, symmetrized and floored |
| `Ekf.Symmetrize` | supervisor/ekf/src/lib.rs:422-436 | in place: off-diagonal pairs averaged, diagonal raised to the floor, nothing else |
| `Ekf.JosephUpdate` | supervisor/ekf/src/lib.rs:330-357 | the loops compute (I-KH) P (I-KH)' + K r K', symmetrized |
| `Ekf.ExtendedKalmanFilter.CorrectScalar` | supervisor/ekf/src/lib.rs:292-358 | a channel's correction moves the state along the gain by measured minus predicted and leaves the Joseph update's covariance, or faults without change when the innovation variance is not above the limit |
| `Ekf.ExtendedKalmanFilter.Predict` | supervisor/ekf/src/lib.rs:261-290 | state and covariance become their predictions |
| `Ekf.ExtendedKalmanFilter.CorrectChannels` | supervisor/ekf/src/lib.rs:202-211 | usable channels are corrected in index order and counted, up to the first fault |
| `Ekf.ExtendedKalmanFilter.ValidateInputs` | supervisor/ekf/src/lib.rs:226-259 | inputs are refused for timing first, then for the lowest required channel that is missing |
| `Ekf.ExtendedKalmanFilter.Step` | supervisor/ekf/src/lib.rs:190-224 | one whole step: refusal without change, or predict then correct, and validity only when it ends well |
| `Ekf.ExtendedKalmanFilter.Reset` | supervisor/ekf/src/lib.rs:157-181 | accepted exactly for positive variances: state and diagonal covariance start over; refused, only validity is dropped |
| `Ekf.ExtendedKalmanFilter.CovarianceValid` | supervisor/ekf/src/lib.rs:438-444 | true exactly when every diagonal entry is at or above the floor |
| `Ekf.SymmetrizedKeeps` | supervisor/ekf/src/lib.rs:422-436 | flooring keeps a symmetric positive semidefinite matrix so, and puts its diagonal at or above the floor |
| `Ekf.PredictionKeeps` | supervisor/ekf/src/lib.rs:261-290 | the predicted covariance is symmetric positive semidefinite with its diagonal at or above the floor |
| `Ekf.JosephClosedForm` | supervisor/ekf/src/lib.rs:292-357 | for any measurement row the Joseph result is P - (Ph)(Ph)'/S |
| `Ekf.JosephKeeps` | supervisor/ekf/src/lib.rs:330-357 | the Joseph update keeps symmetry and positive semidefiniteness |
| `Ekf.CorrectionKeeps` | supervisor/ekf/src/lib.rs:292-358 | so does the floored correction, for any row and any positive noise variance |
| `Ekf.CorrectionShrinksDiagonal` | supervisor/ekf/src/lib.rs:292-358 | no correction increases any diagonal entry |
| `Ekf.FaultUnreachableExactly` | supervisor/ekf/src/lib.rs:318-327 | the innovation-variance fault is unreachable for every covariance and row if and only if r > 1e-12 |
| `Ekf.StepKeeps` | supervisor/ekf/src/lib.rs:190-358 | one step with any mask keeps the covariance property; an accepted one ends with every diagonal entry at or above the floor and at or below the prediction's; with all noise above the limit it never faults |
| `Ekf.RunKeepsCovariance` | supervisor/ekf/src/lib.rs:190-444 | over any sequence of steps the covariance stays symmetric positive semidefinite, floored after any accepted step |
| `Ekf.ZeroRowFaultsExactly` | supervisor/ekf/src/lib.rs:318-327 | a channel with a zero row faults if and only if its noise variance is not above the limit |
| `EkfMeaning.CorrectionClosesResidual` | supervisor/ekf/src/lib.rs:292-328 | a correction moves the linearised measurement towards the measured value by the share (S - R) / S of the residual; on every channel past the accelerometer the residual itself shrinks by exactly R / S |
| `EkfMeaning.VarianceAfter` | supervisor/ekf/src/lib.rs:292-357 | the variance a correction with any gain leaves in any direction: a parabola in how far the gain reaches there |
| `EkfMeaning.GainIsBest` | supervisor/ekf/src/lib.rs:318-328 | no other gain leaves less variance in any direction of the state than the coded one |
| `EkfMeaning.SymmetrizedVariance` | supervisor/ekf/src/lib.rs:422-436 | averaging mirrored entries of any matrix changes the variance in no direction, and the floor adds exactly what lifts a diagonal entry to it |
| `EkfMeaning.PredictedVariance` | supervisor/ekf/src/lib.rs:261-290 | the predicted variance in any direction is that of the direction carried back by A, plus the process noise, plus what the floor lifts |
| `EkfMeaning.InitialVariance` | supervisor/ekf/src/lib.rs:157-181 | after a reset each state has its own variance, independent of the others |
| `EkfMeaning.ExactStaysExact` | supervisor/ekf/src/lib.rs:190-224 | started at the plant's state and shown what the plant shows, the filter is at the plant's state after any run, whatever covariance, noise settings and masks |
| `EkfMeaning.CorrectionsInOrder` | supervisor/ekf/src/lib.rs:202-211 | a step corrects once by each usable channel in ascending order, each correction starting where the one before it ended, up to the first channel that faults or past the last |
| `EkfMeaning.ReportsUsable` | supervisor/ekf/src/lib.rs:202-223 | an accepted step without a fault reports exactly the usable channels as corrected |
| `EkfJacobian.JacobianIsFirstOrder` | supervisor/ekf/src/lib.rs:366-399 | for every channel, state and change of state, the coded row is the first-order part of the coded measurement: what it leaves out is at most gravity times the square of the two angles moved |
| `I2cWire.ParsePrint` | firmware/buses/software-i2c/src/lib.rs:196-228 | a frame sequence printed as line symbols is read back whole (UM10204 sections 3.1.4 to 3.1.6) |
| `I2cWire.ParsesExactly` | firmware/buses/software-i2c/src/lib.rs:196-228 | a monitor reads a given frame sequence if and only if the wire carried its printed form |
| `I2cWire.BitsRoundTrip` | firmware/buses/software-i2c/src/lib.rs:196-203 | the eight bits shifted out of the top of a byte spell that byte, highest first |
| `I2cWire.BitsAreBinary` | firmware/buses/software-i2c/src/lib.rs:196-203 | the bit clocked out first weighs 128 and the last one |
| `I2cWire.SymbolsMean` | firmware/buses/software-i2c/src/lib.rs:136-184 | SDA falling under a high clock reads as START, rising as STOP, and a level held over a clock pulse as its bit |
| `I2cPlan.WireIsMeantExactly` | firmware/buses/software-i2c/src/lib.rs:136-219 | the wire carries what the master meant if and only if the slave stays off SDA in the periods where the master needs it high |
| `I2cPlan.MonitorRecoversExactly` | firmware/buses/software-i2c/src/lib.rs:266-317 | for any operation list and any slave that acknowledged every byte, the monitor recovers exactly START, address, bytes, repeated STARTs and STOP if and only if the slave left SDA released where the master needed it high |
| `I2cPlan.SlaveCanHideTheStop` | firmware/buses/software-i2c/src/lib.rs:162-170 | moving SDA only while SCL is low is not enough: a slave that keeps holding SDA hides the STOP |
| `I2cPlan.FollowsExactly` | firmware/buses/software-i2c/src/lib.rs:239-248 | more read data follows if and only if the next run of one direction is a read run with a byte |
| `I2cPlan.TranscriptIsRuns` | firmware/buses/software-i2c/src/lib.rs:275-306 | the frames are one START-address-bytes group per change of direction, each read group acknowledged in all but its last byte, and one STOP |
| `I2cPlan.AddressByteMeans` | firmware/buses/software-i2c/src/lib.rs:221-228 | the address byte holds the address in its upper seven bits and one in the lowest exactly for a read |
| `I2cPlan.TranscriptIsUnderstood` | firmware/buses/software-i2c/src/lib.rs:266-318 | read by the target's rules (address, direction bit, acknowledges) a transcript says exactly the operations asked for: each run of one direction at this address, in that direction, with its bytes in order |
| `I2cPlan.RefusedBeforeAnyStop` | firmware/buses/software-i2c/src/lib.rs:308-316 | up to a refused byte the wire shows no STOP, so the abandoning one is the only one |
| `I2cPlan.AbandonedIsRead` | firmware/buses/software-i2c/src/lib.rs:308-316 | the monitor reads the transcript cut at the refused byte and a STOP, if and only if the slave left SDA released where needed; the byte is behind a START exactly when the address was reported refused |
| `SoftwareI2c.SoftwareI2c.ReleaseScl` | firmware/buses/software-i2c/src/lib.rs:111-122 | succeeds if and only if the slave lets SCL rise within the timeout's polls |
| `SoftwareI2c.SoftwareI2c.Begin` | firmware/buses/software-i2c/src/lib.rs:136-149 | from any state with SCL released: START is made if and only if the stretch left ends in time and the slave is off SDA, behind a STOP if an earlier one was left unfinished; otherwise busy or timed out, with nothing on the wire |
| `SoftwareI2c.SoftwareI2c.RepeatedStart` | firmware/buses/software-i2c/src/lib.rs:151-160 | one more clock period in which SDA falls while SCL is high, unless the slave stalls |
| `SoftwareI2c.SoftwareI2c.End` | firmware/buses/software-i2c/src/lib.rs:162-170 | both lines end released, and STOP shows if the slave lets SDA rise, if and only if the stretch ends within the timeout; otherwise SDA stays driven low |
| `SoftwareI2c.SoftwareI2c.WriteBit` | firmware/buses/software-i2c/src/lib.rs:172-184 | one clock period carries the bit, low when either side holds the line |
| `SoftwareI2c.SoftwareI2c.ReadBit` | firmware/buses/software-i2c/src/lib.rs:186-194 | one clock period; the value is what the slave left on the line |
| `SoftwareI2c.SoftwareI2c.WriteByte` | firmware/buses/software-i2c/src/lib.rs:196-203 | eight bits highest first and an acknowledge period, true exactly when the slave pulled it low; or the periods clocked up to the one the slave stalled in |
| `SoftwareI2c.SoftwareI2c.ReadBits` | firmware/buses/software-i2c/src/lib.rs:205-214 | the byte assembled is the one heard in the eight periods |
| `SoftwareI2c.SoftwareI2c.ReadByte` | firmware/buses/software-i2c/src/lib.rs:205-219 | eight heard bits and the master's own acknowledge bit |
| `SoftwareI2c.SoftwareI2c.SendAddress` | firmware/buses/software-i2c/src/lib.rs:221-228 | address and direction bit sent; refusal exactly when the acknowledge read high |
| `SoftwareI2c.SoftwareI2c.WriteData` | firmware/buses/software-i2c/src/lib.rs:230-237 | all bytes acknowledged, or clocked exactly to the first refused one or the first period the slave stalled in |
| `SoftwareI2c.SoftwareI2c.FollowingReadData` | firmware/buses/software-i2c/src/lib.rs:239-248 | the scan agrees with the definition of following read data |
| `SoftwareI2c.SoftwareI2c.ReadInto` | firmware/buses/software-i2c/src/lib.rs:294-301 | the buffer is filled in place with the bytes heard, acknowledged all but the last one wanted |
| `SoftwareI2c.SoftwareI2c.SendHeader` | firmware/buses/software-i2c/src/lib.rs:284-292 | an address only on the first transfer and on a change of direction, the latter behind a repeated START |
| `SoftwareI2c.SoftwareI2c.SendBody` | firmware/buses/software-i2c/src/lib.rs:294-303 | the transfer's bytes, or the part of them up to a refusal or a stall |
| `SoftwareI2c.SoftwareI2c.SendNext` | firmware/buses/software-i2c/src/lib.rs:275-304 | the next transfer keeps what earlier reads put in their buffers |
| `SoftwareI2c.SoftwareI2c.Exchange` | firmware/buses/software-i2c/src/lib.rs:271-307 | START, every transfer in turn, STOP; success means the whole plan was carried and every buffer filled, a failure where and why sending ended |
| `SoftwareI2c.SoftwareI2c.Transaction` | firmware/buses/software-i2c/src/lib.rs:266-317 | from any state with SCL released; it succeeds if and only if the slave lets the START be made, keeps within the timeout in every period and acknowledges every byte, and then leaves exactly the planned waveform and all read buffers filled; a refusal or a timeout leaves the plan up to where it ended, and both lines released behind a STOP exactly when the stretch then left ends within the timeout; busy sends nothing |
| `SoftwareI2c.SoftwareI2c.Abandon` | firmware/buses/software-i2c/src/lib.rs:308-316 | what the STOP after a failure shows, and that it releases both lines exactly when the stretch left ends within the timeout |
| `SoftwareI2c.SoftwareI2c.CompletedIsRead` | firmware/buses/software-i2c/src/lib.rs:266-317 | behind any frames the monitor reads the driver's own wire as the transcript if and only if the slave left SDA released where needed, and the target understands the operations asked for from it |
| `SoftwareI2c.SoftwareI2c.RefusalIsRead` | firmware/buses/software-i2c/src/lib.rs:308-316 | a refused transaction is read cut at the refused byte with a STOP, the byte being behind a START exactly when the address was reported refused |
| `SoftwareI2c.RefusalCanStayHeld` | firmware/buses/software-i2c/src/lib.rs:162-170 | a slave that refuses the address and then stretches past the timeout leaves SDA driven low, and the wire shows START and the refused address byte and no STOP |
| `SoftwareI2c.TimeoutCanShowStart` | firmware/buses/software-i2c/src/lib.rs:111-170 | a stretch that ends with the last poll leaves SCL up when SDA is pulled down for the STOP, so a second START shows |
| `Crc16.Crc16CcittFalse` | firmware/recording/observation-record/src/lib.rs:152-165 | the two loops compute the byte-by-byte fold |
| `Crc16.StepAsPolynomial` | firmware/recording/observation-record/src/lib.rs:157-161 | shift, truncate and xor is addition of the 17-bit polynomial |
| `Crc16.StepInjective` | firmware/recording/observation-record/src/lib.rs:157-161 | one register step loses nothing |
| `Crc16.StepLinear` | firmware/recording/observation-record/src/lib.rs:157-161 | one register step is linear over exclusive or |
| `Crc16.StepKeepsParity` | firmware/recording/observation-record/src/lib.rs:157-161 | one register step keeps the parity of the register |
| `Crc16.AbsorbInjective` | firmware/recording/observation-record/src/lib.rs:155-162 | absorbing a byte is injective in the register |
| `Crc16.PairInjective` | firmware/recording/observation-record/src/lib.rs:155-162 | absorbing two bytes is injective in both |
| `Crc16.AbsorbByteInjective` | firmware/recording/observation-record/src/lib.rs:155-162 | absorbing a byte is injective in the byte |
| `Crc16.FoldParity` | firmware/recording/observation-record/src/lib.rs:152-165 | for any message the parity of the check is that of the message and the initial register |
| `Crc16.FoldInjective` | firmware/recording/observation-record/src/lib.rs:152-165 | for any message the check is injective in the register it starts from |
| `Crc16.AdjacentBytesDetected` | firmware/recording/observation-record/src/lib.rs:152-165 | messages of any length that differ only inside two adjacent bytes have different checks |
| `Crc16.BurstDetected` | firmware/recording/observation-record/src/lib.rs:152-165 | messages of any length that differ only inside 16 consecutive bits, starting at any bit of a byte, have different checks |
| `Crc16.OneByteDetected` | tools/recording/decode.py:33-39 | messages of any length that differ only in one byte have different checks |
| `Crc16Remainder.CrcIsRemainder` | firmware/recording/observation-record/src/lib.rs:152-165 | the check is the one 16-bit number with the same remainder as the augmented message on division by x^16 + x^12 + x^5 + 1: the message, sixteen zeros behind it, all ones added to its front |
| `ObservationRecord.Encode` | firmware/recording/observation-record/src/lib.rs:37-106 | writing the fields in place at their offsets gives the packed record with its check |
| `ObservationRecord.PutLe` | firmware/recording/observation-record/src/lib.rs:250-268 | the bytes written are the little-endian form and what precedes them stays |
| `ObservationRecord.LittleEndian` | firmware/recording/observation-record/src/lib.rs:250-310 | numbers of two, four and eight bytes are stored lowest byte first |
| `ObservationRecord.TwosComplement` | firmware/recording/observation-record/src/lib.rs:250-281 | signed numbers are stored as their remainder modulo the width, and come back |
| `ObservationRecord.LaidOutExactly` | firmware/recording/observation-record/src/lib.rs:37-105 | an encoded record is the one byte string with this layout: every field's place, width and meaning, times as microseconds since the start or all ones |
| `ObservationRecord.EncodedField` | firmware/recording/observation-record/src/lib.rs:37-106 | each field of an encoded record reads back as the value written |
| `ObservationRecord.EncodedValidates` | firmware/recording/observation-record/src/lib.rs:167-187 | an encoded record passes magic, version, kind, length and check |
| `ObservationRecord.ValidatedShape` | firmware/recording/observation-record/src/lib.rs:167-187 | a record that passes is its header, its fields and the check of both, and nothing else |
| `ObservationRecord.EvidenceRoundTrip` | firmware/recording/observation-record/src/lib.rs:196-248 | a timestamp survives as itself when its offset is expressible and as unknown otherwise |
| `ObservationRecord.DecodeEncoded` | firmware/recording/observation-record/src/lib.rs:37-149 | decoding an encoded record succeeds if and only if completion lies in [start, start + 2^32 - 2], and then gives it with each inexpressible timestamp unknown and none altered |
| `ObservationRecord.OffsetRoundTrip` | firmware/recording/observation-record/src/lib.rs:196-235 | an offset is written back as read if and only if its sum stays within 64 bits |
| `ObservationRecord.SignedOffsetRoundTrip` | firmware/recording/observation-record/src/lib.rs:203-248 | the same for the signed sample offset, at both ends of the range |
| `ObservationRecord.EncodeDecoded` | firmware/recording/observation-record/src/lib.rs:37-149 | re-encoding an accepted record gives the same bytes if and only if no optional offset leaves the 64-bit range |
| `ObservationRecord.AcceptedNotReencoded` | firmware/recording/observation-record/src/lib.rs:196-235 | bytes that are accepted and do not come back: a read that starts past the end of the 64-bit clock decodes to unknown |
| `ObservationRecord.AcceptedIsEven` | firmware/recording/observation-record/src/lib.rs:152-187 | every accepted record has an even number of one bits |
| `ObservationRecord.OddFlipsRejected` | firmware/recording/observation-record/src/lib.rs:108-187 | flipping any odd number of bits of an accepted record is rejected |
| `ObservationRecord.OneByteRejected` | firmware/recording/observation-record/src/lib.rs:108-187 | changing any one byte of an accepted record is rejected, for the header field the byte is in or else for the check |
| `ObservationRecord.AdjacentBytesRejected` | firmware/recording/observation-record/src/lib.rs:108-187 | changing two adjacent bytes ahead of the stored check is rejected |
| `ObservationRecord.BurstRejected` | firmware/recording/observation-record/src/lib.rs:108-187 | changing bits inside any 16 consecutive ones ahead of the stored check, wherever in a byte they start, is rejected |
| `RecordStream.StreamDecoder.Feed` | tools/wireless/observe.py:28-81 | rows, buffer and all three counters are those of draining the old buffer and the new data at once |
| `RecordStream.StreamDecoder.SeekMagic` | tools/wireless/observe.py:32-42 | drops and counts what precedes the first magic, or all but the last byte when there is none |
| `RecordStream.StreamDecoder.Reject` | tools/wireless/observe.py:48-75 | one byte is dropped and exactly one error counter rises |
| `RecordStream.JudgedAsDecoded` | tools/wireless/observe.py:50-80 | the verdict on a buffer is the recorder's own: header faults for version, kind or length, a check fault exactly for the check, a duration fault only for timing |
| `RecordStream.CorruptionIsCounted` | tools/wireless/observe.py:50-72 | an accepted record with one byte behind the magic changed, followed by anything, is counted: a header byte as an invalid record, any later one as a check error |
| `RecordStream.RecordBehindFalseStart` | tools/wireless/observe.py:50-80 | a record is not lost to a false start before it, even one that runs into it: only the bytes ahead of it are discarded and one error is counted |
| `RecordStream.WaitsExactly` | tools/wireless/observe.py:46-63 | a candidate is waited for exactly until its header is whole, and with a good header until the record is |
| `RecordStream.KeptMayBecomeRecord` | tools/wireless/observe.py:28-80 | what is retained after any input may still become a record with more bytes behind it, or is one last byte |
| `RecordStream.DrainSplit` | tools/wireless/observe.py:28-81 | draining a ++ b is draining a and then what is left with b: buffer, rows and counters |
| `RecordStream.ChunksDoNotMatter` | tools/wireless/observe.py:28-81 | feeding any chunks leaves the rows, counters and buffer of the whole stream |
| `RecordStream.FedBytesAccounted` | tools/wireless/observe.py:28-81 | bytes fed = discarded + 80 rows + retained, with retained below 80 |
| `RecordStream.DrainAccounts` | tools/wireless/observe.py:28-81 | the same for one buffer |
| `RecordStream.DrainKeepsSuffix` | tools/wireless/observe.py:28-81 | what is retained is the end of the input |
| `RecordStream.DrainRows` | tools/recording/decode.py:148-173 | the offline loop yields the same rows and keeps the same rest |
| `RecordStream.Records` | tools/recording/decode.py:140-176 | under any read sizes the reader's rows are those of the whole stream |
| `RecordStream.DecodersAgree` | tools/recording/decode.py:84-137 | the Python and Rust decoders accept the same bytes but for a completion time past 64 bits, and then read the same record |
| `RecordStream.RowOfEncoded` | tools/recording/decode.py:84-137 | the row of an encoded record is that record with its inexpressible timestamps unknown |
| `RecordStream.BackToBack` | tools/wireless/observe.py:28-81 | decodable records sent back to back all decode with no byte discarded and no error counted |
| `RecordLink.RecordPath.ImuDataReady` | firmware/targets/stm32f103/observation/src/main.rs:367-451 | every fifth call offers a record with the current sequence and drop count; acceptance pends the DMA interrupt, refusal raises the saturating counter, and the sequence wraps |
| `RecordLink.RecordPath.OnInterrupt` | firmware/targets/stm32f103/observation/src/main.rs:94-121 | unpreempted, the handler puts an unfinished transfer back or starts the next queued record |
| `RecordLink.ApplyKeeps` | firmware/targets/stm32f103/observation/src/main.rs:94-121 | every event, at any point it can preempt, keeps order, capacity, wake-up and counter invariants |
| `RecordLink.OrderKept` | firmware/targets/stm32f103/observation/src/main.rs:94-121 | hardware and handler pass records on in order, none lost or repeated |
| `RecordLink.DataReadyKeeps` | firmware/targets/stm32f103/observation/src/main.rs:440-451 | so does the producer |
| `RecordLink.EveryRun` | firmware/targets/stm32f103/observation/src/main.rs:94-457 | over every interleaving sent ++ in flight ++ queued is exactly what was enqueued, a waiting record has a wake-up due, and a link at rest has sent everything |
| `RecordLink.EveryRunFromPowerUp` | firmware/targets/stm32f103/observation/src/main.rs:94-457 | the same from an empty queue and an idle pump, of any capacity |
| `RecordLink.EveryFifthIsOffered` | firmware/targets/stm32f103/observation/src/main.rs:364-451 | over every interleaving one acquisition in five is offered to the queue |
| `RecordLink.DroppedOnlyWhenFull` | firmware/targets/stm32f103/observation/src/main.rs:440-451 | a record offered is dropped if and only if the queue is full |
| `RecordLink.EveryRecordLeaves` | firmware/targets/stm32f103/observation/src/main.rs:94-121 | from any state in which the handler is not running, one round more than there are records queued sends them all and leaves everything at rest |
| `RecordLink.LinkStats.UpdateSequence` | tools/wireless/observe.py:172-177 | the gap counter is the sum of modular jumps over the records received |
| `RecordLink.GapsAreDrops` | tools/wireless/observe.py:172-177 | on a lossless link the receiver's gaps are exactly the drops since the first record received |
| `RecordLink.GapsAreTheRise` | tools/wireless/observe.py:172-177 | they equal the rise of the transmitted drop counter below its saturation, and beyond it only if nothing was dropped since |
| `EncoderTracking.EncoderTracker.Observe` | firmware/adapters/sensor-calibration/src/encoder.rs:146-215 | a refused observation leaves the tracker unchanged; an accepted one reports angle and rate and moves the count by the signed wrapped difference |
| `EncoderTracking.EncoderTracker.Reset` | firmware/adapters/sensor-calibration/src/encoder.rs:140-144 | previous count, time and position are forgotten |
| `EncoderTracking.NewTransfer` | firmware/adapters/sensor-calibration/src/encoder.rs:53-72 | a transfer exists exactly for a positive resolution and an allowed step in 1 to 32767 |
| `EncoderTracking.ReportMeans` | firmware/adapters/sensor-calibration/src/encoder.rs:190-213 | the reported angle is the count now held and the rate times the elapsed time is how far it moved |
| `EncoderTracking.RevolutionIsTau` | firmware/adapters/sensor-calibration/src/encoder.rs:90-93 | one revolution of counts is one turn, and one revolution a second one turn a second |
| `EncoderTracking.RefusedExactly` | firmware/adapters/sensor-calibration/src/encoder.rs:146-230 | each refusal if and only if its cause: transfer, presence, timing, time, order, distance, the first of these that fails |
| `EncoderTracking.DirectionCounts` | firmware/adapters/sensor-calibration/src/encoder.rs:25-30 | an accepted step counts up with the counter in one direction and down in the other |
| `EncoderTracking.WrappedDeltaIsMotion` | firmware/adapters/sensor-calibration/src/encoder.rs:182-185 | the wrapped difference is the true motion if and only if that lies in [-32768, 32767] |
| `EncoderTracking.TrackerHoldsDistance` | firmware/adapters/sensor-calibration/src/encoder.rs:146-215 | through any number of wraps and refusals the tracker holds exactly the signed distance from the first accepted position to the last |
| `EncoderTracking.AcceptedStepIsTrueExactly` | firmware/adapters/sensor-calibration/src/encoder.rs:186-194 | an accepted step is the true motion if and only if the motion was within the allowed bound |
| `EncoderTracking.CountBounded` | firmware/adapters/sensor-calibration/src/encoder.rs:195-197 | n accepted samples move the count by at most (n-1) allowed, so 2^48 of them cannot overflow 64 bits |
| `EncoderTracking.RateIntegratesToAngle` | firmware/adapters/sensor-calibration/src/encoder.rs:195-213 | the sum of rate times elapsed time over accepted samples is the angle |
| `EncoderTracking.DeltasAgree` | tools/commissioning/encoder_evidence.py:28-32 | the Python step is the Rust difference, and both refuse the half-range step |
| `EncoderTracking.TrialRows` | tools/commissioning/encoder_evidence.py:47-56 | the rows from the first with the start number to the first with the end number, at least two of them; refused when either is absent or the end is not later |
| `EncoderTracking.AnalyzeRows` | tools/commissioning/encoder_evidence.py:71-112 | accepted exactly when every pair of rows is clean and both ends have times, and refused for the reason of the first pair that is not; the net count is the sum of the steps, the largest step a bound that is attained, and counters, duration and drops are those of the ends |
| `EncoderTracking.AnalyzeTrial` | tools/commissioning/encoder_evidence.py:59-112 | a whole trial of a capture: refused for an unknown direction, for rows that cannot be selected, or for the reason its rows are; otherwise the report of the selected rows |
| `EncoderTracking.PairRefusedExactly` | tools/commissioning/encoder_evidence.py:71-91 | two rows follow each other cleanly if and only if they are consecutive, undropped, of good quality and not half a range apart, and otherwise the error names the first of these that fails |
| `EncoderTracking.RowRefusedExactly` | tools/commissioning/encoder_evidence.py:79-90 | a row is of low quality if and only if something was not taken, transferred or timed, and otherwise refused if and only if marked as an error or stale |
| `EncoderTracking.TrackerMatchesTrial` | tools/commissioning/encoder_evidence.py:71-98 | on such a trial, with rising times and allowed steps, the robot's tracker ends at the tool's net count, signed by the direction |
| `EstimatorInput.EstimatorInputBuilder.Build` | firmware/adapters/estimator-input/src/lib.rs:54-105 | one acquisition moves both trackers and yields the frame of their old states |
| `EstimatorInput.ObserveEncoder` | firmware/adapters/estimator-input/src/lib.rs:108-123 | Primed, Ready or Rejected with the sample, if there is one |
| `EstimatorInput.EstimatorInputBuilder.Reset` | firmware/adapters/estimator-input/src/lib.rs:49-52 | both encoder origins are forgotten |
| `EstimatorInput.FrameChannels` | firmware/adapters/estimator-input/src/lib.rs:54-105 | the available channels are the IMU's six when it is usable, the drive angle unless rejected and the reaction rate exactly when ready |
| `EstimatorInput.FrameValues` | firmware/adapters/estimator-input/src/lib.rs:54-105 | unavailable encoder channels read zero, available ones the tracked angle and the rate of the step |
| `EstimatorInput.QualityMeans` | firmware/adapters/estimator-input/src/lib.rs:54-132 | which bits of the quality word make an IMU reading usable, and its timing proven |
| `EstimatorInput.CompleteFrameExactly` | firmware/adapters/estimator-input/src/lib.rs:54-105 | all eight channels with proven timing if and only if the IMU proves it, the drive encoder is not rejected and the reaction encoder is ready |
| `ActuatorModel.InverseInRange` | plant/actuator-model/src/lib.rs:113-116 | every bounded effort has an admissible command |
| `ActuatorModel.EffectiveOfInverse` | plant/actuator-model/src/lib.rs:165-180 | every effort is recovered from its command |
| `ActuatorModel.InverseOfEffective` | plant/actuator-model/src/lib.rs:165-180 | a command is recovered from its effort if and only if it is zero or outside the deadzone |
| `ActuatorModel.EffectiveInRange` | plant/actuator-model/src/lib.rs:165-172 | an admissible command's effort is admissible |
| `ActuatorModel.PredictedIsClamped` | plant/actuator-model/src/lib.rs:93-121 | the predicted torque is clamp(request + loss, -K, K) - loss |
| `ActuatorModel.MetExactlyUnsaturated` | plant/actuator-model/src/lib.rs:93-121 | the request is met if and only if the command is not saturated |
| `ActuatorModel.BestCommand` | plant/actuator-model/src/lib.rs:93-121 | no other admissible command comes closer to the request |
| `ActuatorModel.ReproducesAttainable` | plant/actuator-model/src/lib.rs:79-121 | a torque some command gives is reproduced, and that command itself if and only if it is zero or outside the deadzone |
| `ActuatorModel.FrictionDissipates` | plant/actuator-model/src/lib.rs:182-192 | friction never drives |
| `ActuatorModel.FrictionShape` | plant/actuator-model/src/lib.rs:182-192 | friction is odd in the speed, viscous alone where the shaft is as good as still and with the Coulomb torque beyond |
| `ActuatorModel.PredictedMonotone` | plant/actuator-model/src/lib.rs:93-121 | the predicted torque grows with the request and no faster than it |
| `DynamicsModel.AggregatesNeverRefused` | plant/dynamics-model/src/lib.rs:190-220 | for all positive parameters the pitch determinant is positive and the aggregates are never refused |
| `DynamicsModel.LinearizationNeverRefused` | plant/dynamics-model/src/lib.rs:279-317 | the linearization is refused where the parameters or their aggregates are, and the second never happens: every valid plant gets the coded matrices |
| `DynamicsModel.InertiaIsOfEnergy` | tools/model/derive_balance_model.py:52-77 | the inertia used is the matrix of the kinetic energy at upright |
| `DynamicsModel.EnergyOfParts` | plant/dynamics-model/src/lib.rs:190-220 | the aggregates are those of the parts: the model's energy is that of body, reaction wheel and rolling drive wheel for every velocity |
| `DynamicsModel.GravityPullsDown` | tools/model/derive_balance_model.py:69-88 | the gravity terms give up exactly what the two bodies come down by as the robot leans |
| `DynamicsModel.RowsAreAccelerations` | plant/dynamics-model/src/lib.rs:288-317 | the coded rows of A and B are the four accelerations and the three rates |
| `DynamicsModel.CodedSolvesMechanics` | plant/dynamics-model/src/lib.rs:262-317 | the coded accelerations are the one and only solution of M(0) q'' = gravity stiffness + generalized forces |
| `DynamicsModel.PowerBalance` | plant/dynamics-model/src/lib.rs:262-277 | the inertial power is gravity's plus each torque times its rotor's speed relative to the body |
| `UprightCertificates.CodedBlocks` | plant/dynamics-model/src/lib.rs:279-317 | pitch and roll blocks of the coded matrices, and no coupling between them |
| `UprightCertificates.PitchIndicatorIsDeterminant` | plant/dynamics-model/src/lib.rs:338-361 | the coded pitch indicator is det [B AB A^2B A^3B] of the pitch block |
| `UprightCertificates.RollIndicatorIsDeterminant` | plant/dynamics-model/src/lib.rs:338-361 | the coded roll indicator is det [B AB A^2B] of the roll block |
| `UprightCertificates.PitchIndicator` | plant/dynamics-model/src/lib.rs:350-352 | positive for every valid plant |
| `UprightCertificates.RollIndicator` | plant/dynamics-model/src/lib.rs:353-353 | positive for every valid plant |
| `UprightMeasurement.RowsMeasure` | plant/measurement-model/src/lib.rs:91-150 | the coded rows are the specific force at the IMU with the coded accelerations, the body rates, the drive encoder's relative angle and the wheel's relative rate |
| `UprightMeasurement.FilterMeasuresSpecificForce` | supervisor/ekf/src/lib.rs:360-381 | on the coded rows the filter's measurement is the specific force at the IMU with the whole gravity vector turned into the body, the other channels staying linear |
| `UprightMeasurement.MeasurementNeverRefused` | plant/measurement-model/src/lib.rs:91-151 | every valid plant has a measurement model, with these rows |
| `UprightMeasurement.YawRateFaultsExactly` | plant/measurement-model/src/lib.rs:136-141 | the coded model has no yaw-rate row, so the filter faults on that channel if and only if its variance is not above the limit |
| `UprightMeasurement.PitchMinorIsDeterminant` | plant/measurement-model/src/lib.rs:174-198 | the coded pitch observability indicator is the determinant of the drive-angle row, its derivative, the pitch-rate row's derivative and that row, all taken from the coded C on the pitch block |
| `UprightMeasurement.RollMinorIsDeterminant` | plant/measurement-model/src/lib.rs:174-198 | the coded roll observability indicator is the determinant of the roll-rate row's derivative, that row and the wheel-rate row, all taken from the coded C on the roll block |
| `UprightMeasurement.RowsByBlock` | plant/measurement-model/src/lib.rs:136-150 | the gyro and encoder rows of the coded C each look at one block of the state only |
| `UprightMeasurement.ObservableAlways` | plant/measurement-model/src/lib.rs:174-198 | both observability indicators are positive for every valid plant |
| `SimulationWorld.StepIsExact` | tools/sitl/src/simulation_world.rs:307-334 | a linear functional of constant rate gains exactly rate times step in one RK4 step |
| `SimulationWorld.StepIsTaylor` | tools/sitl/src/simulation_world.rs:307-334 | an RK4 step is the fourth-degree Taylor polynomial of the plant's own solution |
| `SimulationWorld.DerivativeIsAcceleration` | tools/sitl/src/simulation_world.rs:350-368 | the rows of the plant's rate of change are the coded accelerations and the rates of the positions and angles |
| `SimulationWorld.ScheduleCovers` | tools/sitl/src/simulation_world.rs:278-305 | the steps of an interval add up to it, none is empty or longer than a millisecond, and only the last is shorter |
| `SimulationWorld.OneSecondIsExact` | tools/sitl/src/simulation_world.rs:278-334 | a million microseconds of a constant rate change a functional by once that rate |
| `SimulationWorld.ScheduleSplitsExactly` | tools/sitl/src/simulation_world.rs:296-301 | two intervals are cut into the steps of their union if and only if the first is whole steps or the second empty |
| `SimulationWorld.AdvanceSplits` | tools/sitl/src/simulation_world.rs:278-305 | advancing a to b to c is advancing a to c whenever b - a is a multiple of 1000 us |
| `SimulationWorld.MomentaRates` | tools/sitl/src/simulation_world.rs:350-368 | the pitch momentum changes at the rate drive torque over radius, the wheel's absolute rate at reaction torque over inertia, in every state |
| `SimulationWorld.MomentaConserved` | tools/sitl/src/simulation_world.rs:278-368 | over any run m_s s' + h theta' changes by exactly the drive impulse over r, and phi' + psi' by exactly the reaction impulse over J_r |
| `SimulationWorld.World.IntegrateRk4` | tools/sitl/src/simulation_world.rs:307-334 | the loop leaves the four-stage RK4 step of the state |
| `SimulationWorld.World.DerivativeOf` | tools/sitl/src/simulation_world.rs:350-368 | the row loops compute A x + B u and the wheel's rate |
| `SimulationWorld.World.AdvanceInterval` | tools/sitl/src/simulation_world.rs:278-305 | a discontinuity or a reversal is refused without change; otherwise the state is integrated over the interval and time moves on |
| `SimulationWorld.World.TakeSampleIndex` | tools/sitl/src/simulation_world.rs:192-236 | a sample only at the world's own time, numbered consecutively, and refused when the index is exhausted |
| `SimulationWorld.CounterShowsShaft` | tools/sitl/src/simulation_world.rs:484-495 | two shown counts differ by the shaft's motion exactly when it is below half the range |
| `SimulationWorld.CountsCarryAngle` | tools/sitl/src/simulation_world.rs:484-498 | the counts shown are, in the angle a tracker gives them, within half a count of the shaft |
| `SimulationWorld.TiesGoAway` | tools/sitl/src/simulation_world.rs:484-498 | halfway between two counts the one farther from zero shows |
| `ControlRuntime.LqiCommand` | control/state-feedback/src/lib.rs:164-189 | on a copy: the clamped Euler step of the integral when asked for, and the law on the integral that results |
| `ControlRuntime.IntegrateRows` | control/state-feedback/src/lib.rs:173-179 | the loop clamps each row of z + Ts C e |
| `ControlRuntime.ControlRuntime.ControlLqi` | supervisor/control-runtime/src/lib.rs:180-231 | hold first, integrate only if that is unconstrained, commit only if the integrated request is too; an error commits nothing |
| `ControlRuntime.ControlRuntime.StepOnce` | supervisor/control-runtime/src/lib.rs:128-249 | one opportunity as specified, errors included |
| `ControlRuntime.ControlRuntime.Reset` | supervisor/control-runtime/src/lib.rs:116-120 | integral and remembered input return to zero and the estimator is reset |
| `ControlRuntime.GuardedKeeps` | supervisor/control-runtime/src/lib.rs:169-231 | the integral moves if and only if both requests are authorized and unconstrained, stays in bounds, and the demand is the law on the integral that results |
| `ControlRuntime.StepKeeps` | supervisor/control-runtime/src/lib.rs:128-249 | a successful step's demand is the law on the post-step integral and the remembered input is what was authorized; a failed step leaves controller and remembered input unchanged |
| `ControlRuntime.StepBalances` | control/state-feedback/src/lib.rs:155-211 | for the demand u a step returns, u + K x (+ K_I z) is feedforward + K r row by row, with the integral z it leaves behind; where that advanced, each row is z + Ts (C x - C r) up to its bound and the bound beyond |
| `ControlRuntime.LqrDemandBalances` | control/state-feedback/src/lib.rs:55-66 | u + K x is feedforward + K r for every demand the LQR law makes |
| `ControlRuntime.LqiDemandBalances` | control/state-feedback/src/lib.rs:155-190 | u + K x + K_I z is feedforward + K r for every demand the LQI law makes |
| `ControlRuntime.IntegralMoves` | control/state-feedback/src/lib.rs:171-182 | the integral moves by the period times the projected excursion, and stops at its bounds |
| `ControlRuntime.DemandRefusedExactly` | control/state-feedback/src/lib.rs:164-228 | a command is refused for the first operand that is not finite, and what it returns is finite |
| `ControlRuntime.StepFailsExactly` | supervisor/control-runtime/src/lib.rs:128-270 | which opportunity fails and why: estimator, operand, demand or shaft speed; no actuator is shown a demand that is not finite |
| `ControlRuntime.AuthorizedTorque` | supervisor/control-runtime/src/lib.rs:145-248 | torque is authorized if and only if state, timing, estimate and wheel allow it, and a step is free if and only if the wheel is also short of its warning speed and the demand is applied as it stands |
| `ControlRuntime.IntegralOverRuns` | supervisor/control-runtime/src/lib.rs:128-249 | over any run the integral stays within bounds and has moved only at steps whose two requests were free |
| `RuntimeState.SensorTimingMonitor.OnEvent` | supervisor/runtime-state/src/lib.rs:153-164 | the first event shows startup, each later one is classified by the time since the one before it, saturating at zero, and every event becomes the last one |
| `RuntimeState.SensorTimingMonitor.PollAt` | supervisor/runtime-state/src/lib.rs:166-176 | a poll shows startup until a second event or the timeout, and otherwise classifies the time since the last event, or since the start if there was none |
| `RuntimeState.NewLimits` | supervisor/runtime-state/src/lib.rs:85-102 | limits exist exactly when 0 < expected <= late < timeout, and are the ones given |
| `RuntimeState.HealthMeans` | supervisor/runtime-state/src/lib.rs:131-176 | over any interleaving of events and polls: healthy needs two events and a last interval below the late limit, and a poll says timeout exactly when the timeout has passed since the last event or the start |
| `RuntimeState.HeadroomBands` | supervisor/runtime-state/src/lib.rs:237-254 | exhausted if and only if no headroom is left, full headroom if and only if at rest |
| `RuntimeState.ReasonsAreComplete` | supervisor/runtime-state/src/lib.rs:344-398 | a reason is given if and only if what it says is so; a token exists if and only if no denying reason is given, and carries the commands unchanged; the integrator is held if and only if some reason is given |
| `RuntimeSupervisor.Supervisor.BootDone` | supervisor/runtime-supervisor/src/lib.rs:148-154 | from power-up only |
| `RuntimeSupervisor.Supervisor.HardwareChecked` | supervisor/runtime-supervisor/src/lib.rs:156-162 | from the hardware check without faults only |
| `RuntimeSupervisor.Supervisor.Balance` | supervisor/runtime-supervisor/src/lib.rs:164-170 | from standby without faults only |
| `RuntimeSupervisor.Supervisor.Captured` | supervisor/runtime-supervisor/src/lib.rs:172-178 | from the capture window without faults only |
| `RuntimeSupervisor.Supervisor.Latch` | supervisor/runtime-supervisor/src/lib.rs:180-183 | faults are added and the state is Fault |
| `RuntimeSupervisor.Supervisor.ClearFaultsToStandby` | supervisor/runtime-supervisor/src/lib.rs:186-196 | from Fault only, to standby with no fault |
| `RuntimeSupervisor.Supervisor.ObserveIndependentHealth` | supervisor/runtime-supervisor/src/lib.rs:200-219 | a timeout latches its fault in the capture window and in closed loop only |
| `RuntimeSupervisor.Supervisor.ObserveControlHealth` | supervisor/runtime-supervisor/src/lib.rs:221-247 | in closed loop an invalid estimate or an exhausted wheel latches, a warning limits, a nominal wheel restores |
| `RuntimeSupervisor.RunConsistent` | supervisor/runtime-supervisor/src/lib.rs:120-247 | over any run a latched fault is never outside the Fault state |
| `RuntimeSupervisor.FaultAbsorbs` | supervisor/runtime-supervisor/src/lib.rs:180-247 | without an explicit clear Fault lasts and no latched fault is lost |
| `RuntimeSupervisor.FaultsExactly` | supervisor/runtime-supervisor/src/lib.rs:180-247 | over any run a fault is latched if and only if its cause was observed where it is looked for and nothing has been cleared since |
| `RuntimeSupervisor.LimitedExactly` | supervisor/runtime-supervisor/src/lib.rs:221-247 | closed loop is momentum-limited if and only if the last thing shown to it was a valid estimate with the wheel in its warning band |
| `RuntimeSupervisor.WayUp` | supervisor/runtime-supervisor/src/lib.rs:148-196 | over any run boot and the hardware check are each accepted at most once; past the hardware check it was accepted if and only if no fault was latched while the machine was at power-up or in that check |
| `RuntimeSupervisor.WaitingExactly` | supervisor/runtime-supervisor/src/lib.rs:164-170 | the capture window is held if and only if a balance request was accepted and nothing has left the window since |
| `RuntimeSupervisor.BalancingExactly` | supervisor/runtime-supervisor/src/lib.rs:164-247 | closed loop is reached in this order only: an accepted balance request, a wait in the capture window, an accepted capture, and closed loop ever since |
| `RuntimeSupervisor.ClearSkipsHardwareCheck` | supervisor/runtime-supervisor/src/lib.rs:186-196 | a run in which a fault latched at power-up and cleared leads to balancing with no hardware check accepted |
| `RuntimeSupervisor.ControlWatchdog.PollAt` | supervisor/runtime-supervisor/src/lib.rs:70-80 | timeout once the timeout has passed since the last completion, or since arming if there was none; short of it healthy after a completion and startup before one |
| `RuntimeSupervisor.ControlWatchdog.ObserveControlCompletion` | supervisor/runtime-supervisor/src/lib.rs:64-68 | a completion is remembered with its time and shown as healthy |
| `RuntimeSupervisor.WatchdogMeans` | supervisor/runtime-supervisor/src/lib.rs:64-80 | over any run of completions and polls, a poll's answer depends on the last completion only, and is timeout exactly when the timeout has passed since |
| `RuntimeSupervisor.SilenceFaults` | supervisor/runtime-supervisor/src/lib.rs:200-219 | a control task silent for the timeout takes an armed machine out of closed loop until an explicit clear |
| `RuntimeSupervisor.ControlWatchdog.New` | supervisor/runtime-supervisor/src/lib.rs:48-62 | a watchdog exists exactly for a positive timeout, and starts armed with no completion seen |
| `Scheduler.DeterministicScheduler.Schedule` | tools/sitl/src/scheduler.rs:134-151 | past events and an exhausted sequence are refused without change; otherwise the event joins with the next number |
| `Scheduler.DeterministicScheduler.PopDue` | tools/sitl/src/scheduler.rs:167-169 | pops exactly the events due, in order |
| `Scheduler.DeterministicScheduler.NextSlice` | tools/sitl/src/scheduler.rs:157-173 | all events of the earliest time in phase and insertion order, the rest left, and the time advanced to it |
| `Scheduler.InOrderIsOrdered` | tools/sitl/src/scheduler.rs:72-80 | the order lists every event once, ascending in time, phase and insertion |
| `Scheduler.AscendingIsOrder` | tools/sitl/src/scheduler.rs:72-80 | and it is the only ascending list of them |
| `Scheduler.BeforeExactly` | tools/sitl/src/scheduler.rs:40-81 | an event leaves ahead of another if and only if it is due earlier, or at the same time in an earlier phase, or in the same phase and scheduled earlier |
| `Scheduler.ScheduledFirstComesFirst` | tools/sitl/src/scheduler.rs:72-81 | of two events of one time and phase the one scheduled first comes first |
| `Scheduler.DrainedInOrder` | tools/sitl/src/scheduler.rs:157-173 | draining slice by slice dispatches every event exactly once in that order |
| `Scheduler.SlicesTile` | tools/sitl/src/scheduler.rs:157-173 | slices start where the one before ended, their times strictly increase, and every event happens at its slice's time |
| `Scheduler.SortChangesNothing` | tools/sitl/src/scheduler.rs:170-170 | the sort of a slice changes nothing |
| `SitlRun.Validate` | tools/sitl/src/scenario.rs:76-102 | accepts exactly the valid scenarios; otherwise names the first problem in the order of the fields, for the missed list the first entry that does not fit and why |
| `SitlRun.RuntimeIsMissed` | tools/sitl/src/scenario.rs:104-106 | the binary search is membership |
| `RunLoop.ScheduleSensors` | tools/sitl/src/lib.rs:350-371 | succeeds if and only if the sensor grid fits in 64 bits, and then queues a sample and a delivery at every grid time |
| `RunLoop.ScheduleRuntimes` | tools/sitl/src/lib.rs:224-238 | succeeds if and only if the opportunity grid and the numbers fit, and then queues each opportunity as missed or admitted |
| `RunLoop.FilledIsPlan` | tools/sitl/src/lib.rs:211-238 | the filled queue holds exactly the planned events, counted by kind |
| `RunLoop.DispatchSlice` | tools/sitl/src/lib.rs:264-316 | events are dispatched in turn up to the first error and each raises its own counter |
| `RunLoop.PlayQueue` | tools/sitl/src/lib.rs:250-317 | the loop's outcome, counts and physical advances are those of playing the queue's slices |
| `RunLoop.ErrorsAreNamed` | tools/sitl/src/lib.rs:252-271 | a run that stops names its error as one of an advance over time that does pass or of an event of a slice, and the execution gave that error there |
| `RunTimeline.RunScenario` | tools/sitl/src/lib.rs:190-348 | a scenario is refused with its first problem; one whose times or numbers do not fit 64 bits with which of them; otherwise the first error of the execution or a passing summary with the scenario's counts |
| `RunTimeline.EveryRun` | tools/sitl/src/lib.rs:211-327 | for every valid scenario that fits, slices start at zero and tile time, carry exactly what happens at each time, and dispatch every planned event once in order |
| `ClosedLoop.ArmsExactly` | tools/sitl/src/closed_loop.rs:255-270 | arming succeeds if and only if the supervisor is at power-up without a fault, and then waits in the capture window |
| `ClosedLoop.ClosedLoopSimulation.SampleSensorAt` | tools/sitl/src/closed_loop.rs:292-301 | a sample at the world's own time is numbered, shown to the timing monitor and held for delivery with both encoders' counts; refused while one is held, at another time, or when the index is exhausted |
| `ClosedLoop.ClosedLoopSimulation.Deliver` | tools/sitl/src/closed_loop.rs:303-330 | the held sample becomes the delivered frame and moves both encoder trackers; refused without one or when its calibration fails |
| `ClosedLoop.ClosedLoopSimulation.AdmitObservation` | tools/sitl/src/closed_loop.rs:333-371 | refused without an observation, with one already consumed or with an encoder rejected; skipped while an encoder has no rate; else the frame to step on |
| `ClosedLoop.ClosedLoopSimulation.Run` | tools/sitl/src/closed_loop.rs:332-432 | one opportunity: refuse, skip or step the control runtime on the frame with the shaft speeds of the last estimate, then supervisor, outer loop and pending torque |
| `ClosedLoop.ClosedLoopSimulation.Miss` | tools/sitl/src/closed_loop.rs:434-443 | a fresh observation is consumed and counted as discarded, a stale one is not |
| `ClosedLoop.ClosedLoopSimulation.Commit` | tools/sitl/src/closed_loop.rs:445-461 | the pending torque is put on the plant or taken off it, once |
| `ClosedLoop.ClosedLoopSimulation.DispatchEvent` | tools/sitl/src/closed_loop.rs:463-475 | a sample, delivery, opportunity, miss or commit runs its own handler, and the scenario's start changes nothing |
| `ClosedLoop.ClosedLoopSimulation.Arm` | tools/sitl/src/closed_loop.rs:255-270 | from power-up without a fault: the capture window, both encoder origins forgotten, reference and applied torque zero; otherwise refused |
| `ClosedLoopLaw.SpeedsAreShaftRates` | tools/sitl/src/closed_loop.rs:366-372 | the two speeds a step is given are the rates of the shafts the encoders sit on, had the plant moved as last estimated |
| `ClosedLoopLaw.ShaftsAreMeasured` | tools/sitl/src/closed_loop.rs:366-372 | the angle the drive encoder shows, and the rate of the one the reaction encoder shows, are what the measurement equation says of their channels |
| `ClosedLoopLaw.SlotFollowsShafts` | tools/sitl/src/closed_loop.rs:292-330 | over a sample and its delivery each tracker follows its own shaft by the counts it moved, and the frame's two encoder channels are what the trackers then hold |
| `ClosedLoopLaw.SlotReadsImu` | tools/sitl/src/closed_loop.rs:292-330 | the frame's first six channels are the calibrated IMU's reading of the plant as it stood, under the torque on it |
| `ClosedLoopLaw.AppliedTorquePushes` | tools/sitl/src/closed_loop.rs:479-487 | time passes in order, and over it the plant takes up the impulse of exactly the torque applied, each motor's at its own place |
| `ClosedLoopLaw.OpportunityLaw` | tools/sitl/src/closed_loop.rs:332-461 | an opportunity that steps puts the feedback of its new estimate about the reference on the plant, as far as the motors make it at the speeds last estimated, if and only if in closed loop on healthy timing and still there after; otherwise it takes the torque off |
| `ClosedLoopLaw.CapturedExactly` | tools/sitl/src/closed_loop.rs:389-405 | the capture window is left by a valid estimate on healthy timing and in no other way, to where the wheel's authority puts it at once |
| `ClosedLoopLaw.AdmitsExactly` | tools/sitl/src/closed_loop.rs:332-364 | an opportunity steps if and only if the delivered frame is not consumed and both encoders are ready; each refusal and the skip if and only if its cause |
| `ClosedLoopLaw.OuterLoopWhenDue` | tools/sitl/src/closed_loop.rs:407-427 | when due the velocity loop is shown the new estimate and sets state and reference; nothing else moves them |
| `ClosedLoopLaw.OuterLoopEveryFewSteps` | tools/sitl/src/closed_loop.rs:407-409 | over any run the divider is the number of control steps so far modulo the decimation |
| `ClosedLoopLaw.ArmingForgets` | tools/sitl/src/closed_loop.rs:255-270 | arming leaves trackers without an origin, no reference and no torque, and plant, estimator and counts as they were; refused if and only if not at power-up without a fault |
| `ClosedLoopRuns.SensorSlotKeeps` | tools/sitl/src/closed_loop.rs:292-330 | a sample and its delivery keep the books and use no sample; only an exhausted index or a calibration error can stop them |
| `ClosedLoopRuns.MissKeeps` | tools/sitl/src/closed_loop.rs:434-443 | a missed opportunity keeps the books, the plant's torque and the observer's remembered input, and uses at most one sample, newer than any used before |
| `ClosedLoopRuns.AdmittedSlotKeeps` | tools/sitl/src/closed_loop.rs:332-461 | an admitted opportunity and its commit keep the books, the timing limits and an entered Fault and use exactly one sample, newer than any used before, or fail for an excusable reason |
| `ClosedLoopRuns.SupervisedFacts` | tools/sitl/src/closed_loop.rs:373-411 | promotion never fails, closed loop is entered only on healthy timing, and Fault is entered only when authority was denied |
| `ClosedLoopRuns.SliceKeeps` | tools/sitl/src/lib.rs:250-317 | one slice at any point of a run keeps all of it and uses at most one sample |
| `ClosedLoopTheorems.NewIsReady` | tools/sitl/src/closed_loop.rs:205-270 | a new simulation, armed or not, satisfies the starting conditions under its configured timing limits |
| `ClosedLoopTheorems.EveryBoundary` | tools/sitl/src/closed_loop.rs:292-475 | at every slice boundary of an error-free stretch of any run the books are right |
| `ClosedLoopTheorems.ObserverAgreesWithPlant` | supervisor/control-runtime/src/lib.rs:132-139 | at every slice boundary the observer's remembered input is the torque the plant is under |
| `ClosedLoopTheorems.FaultMeansNoTorque` | tools/sitl/src/closed_loop.rs:373-431 | Fault implies zero torque and lasts to the end of the run |
| `ClosedLoopTheorems.TorqueNeedsEvidence` | tools/sitl/src/closed_loop.rs:373-431 | torque appears only with a third sample and a second completed step, and never when the sensor period reaches the late limit the run started with |
| `ClosedLoopTheorems.EachSampleOnce` | tools/sitl/src/closed_loop.rs:332-461 | between any two slice boundaries of a run the consumed index is unchanged if nothing was used and otherwise larger by at least the number of uses, no slice uses more than one sample, and the timing limits stay |
| `ClosedLoopTheorems.OpportunitiesAccounted` | tools/sitl/src/closed_loop.rs:332-461 | steps, skips and discards together never exceed the samples, steps + skipped + missed is the opportunity count, the simulation's missed count is the length of the missed list, and with a sensor no slower than the runtime discarded equals missed |
| `ClosedLoopTheorems.FastSensorIsFresh` | tools/sitl/src/lib.rs:224-238 | a sensor no slower than the runtime has a new sample at every opportunity |
| `ClosedLoopTheorems.StaleExactly` | tools/sitl/src/closed_loop.rs:292-353 | no run hits the pending, missing or commit-without-runtime errors; barring other errors it completes if and only if every admitted opportunity after the first has a new sample |

## Left out

- Rounding, NaN and infinity of single-precision numbers: quantities are reals. `ControlRuntime` keeps the finiteness checks as a range, so that its error paths exist; elsewhere those branches are dropped.
- `sin` and `cos` are parameters of the filter and of the simulated sensors, and `EkfJacobian` uses of them only the addition theorems, the unit circle and how close they are to angle and one near zero; IMU sampling, scaling, affine calibration, frame rotation and the velocity loop enter the closed loop as total functions that may fail.
- `SimulationWorld.World.TakeSampleIndex`: covers time, index and exhaustion of a sample only; the IMU register values, quantization and saturation flags are a parameter of the closed loop, and the encoder counts are `EncoderCount` without the saturating 64-bit conversion of absurdly large angles.
- The sixteen-bit availability mask, authority reasons and fault words are sets of their one bits; undefined bits of the fault word are not represented.
- The scheduler's binary heap is a set with removal of the least event; the trace, manifest and summary serialization around the run loop is not modelled, so the serialization error is absent.
- The SPSC queue is a bounded FIFO with its capacity as a parameter; storage 8 is capacity 7. Enqueue and dequeue are atomic; interrupt priorities are modelled, bus timing is not.
- `SoftwareI2c.SoftwareI2c.Transaction`: read buffers must be distinct, as exclusive references are. Half-period delays are not modelled, `recover_bus` is left out, and the slave is a function of the clock period.
- `RecordStream.Records`: end of input is the end of a chunk list; the flags derived from the status word and the CSV columns are left out.
- `EncoderTracking.AnalyzeTrial`: the trial's name in the report and in messages, and the prediction comparison, are left out. The tracker's 64-bit count is unbounded here, with its bound proved.
- `StateEstimator.LinearObserver` and the filter drop the checks that designs are finite; the estimator inside `ControlRuntime` is any pair of step and reset functions.
- `RuntimeSupervisor.Supervisor.ClearFaultsToStandby`: the refusal for a fault that is still latched after clearing is absent, because clearing leaves none.
- Numerical synthesis (matrix exponential, Riccati iteration, eigenvalues) and hence closed-loop stability; the nonlinear balance model away from upright.
- HAL, RTIC task table, GPIO, ADC, PWM, OLED, browser console, BLE, telemetry packet, control-profile records, shadow targets and the Webots bridge: input/output or repetitions of what is modelled.
