/** The 80-byte observation record: header, fields at fixed offsets, CRC. */
module ObservationRecord {
  import opened Wrappers
  import opened MachineInts
  import opened Crc16

  const RECORD_LEN: nat := 80
  const CRC_OFFSET: nat := 78
  /** "SW", version 1, kind 1, payload length 72. */
  const HEADER: seq<u8> := [83, 87, 1, 1, 72, 0]
  const UNKNOWN_OFFSET_US: u32 := U32_MAX
  const UNKNOWN_SAMPLE_OFFSET_US: i32 := -0x8000_0000

  type Record = b: seq<u8> | |b| == RECORD_LEN witness seq(80, i => 0)

  datatype Evidence = Unknown | Known(at: u64)

  datatype Axes = Axes(x: i16, y: i16, z: i16)

  datatype Imu = Imu(sampleAt: Evidence, readStartedAt: Evidence, readCompletedAt: Evidence,
                     accel: Axes, temperature: i16, gyro: Axes, quality: u16)

  datatype Encoder = Encoder(capturedAt: Evidence, count: u16, quality: u16)

  datatype Battery = Battery(readCompletedAt: Evidence, adc: u16, quality: u16)

  datatype Recorded = Recorded(sampleIndex: u32, startedAt: u64, completedAt: u64, imu: Imu,
                               encoder1: Encoder, encoder2: Encoder, battery: Battery,
                               status: u16, droppedRecords: u16)

  datatype DecodeError = Magic | Version | Kind | PayloadLength | Crc | Timing

  // ----- little-endian numbers ---------------------------------------------------

  function Le(width: nat, value: nat): (r: seq<u8>)
    ensures |r| == width
  {
    if width == 0 then [] else [value % 256] + Le(width - 1, value / 256)
  }

  function FromLe(bytes: seq<u8>): (r: nat) {
    if |bytes| == 0 then 0 else bytes[0] + 256 * FromLe(bytes[1..])
  }

  function Bound(width: nat): nat {
    if width == 0 then 1 else 256 * Bound(width - 1)
  }

  lemma {:induction false} FromLeBound(bytes: seq<u8>)
    ensures FromLe(bytes) < Bound(|bytes|)
  {
    if |bytes| > 0 { FromLeBound(bytes[1..]); }
  }

  lemma {:induction false} LeRoundTrip(width: nat, value: nat)
    requires value < Bound(width)
    ensures FromLe(Le(width, value)) == value
  {
    if width > 0 {
      LeRoundTrip(width - 1, value / 256);
      assert Le(width, value)[1..] == Le(width - 1, value / 256);
    }
  }

  lemma {:induction false} LeInverse(bytes: seq<u8>)
    ensures Le(|bytes|, FromLe(bytes)) == bytes
  {
    if |bytes| > 0 {
      LeInverse(bytes[1..]);
      ByteUnder(bytes[0], FromLe(bytes[1..]));
    }
  }

  lemma ByteUnder(low: u8, rest: nat)
    ensures var n := low + 256 * rest; n % 256 == low && n / 256 == rest
  {}

  lemma Bounds()
    ensures Bound(2) == 0x1_0000 && Bound(4) == 0x1_0000_0000 && Bound(8) == 0x1_0000_0000_0000_0000
  {
    assert Bound(0) == 1;
    var b1, b2, b3 := Bound(1), Bound(2), Bound(3);
    assert b1 == 256 && b2 == 256 * b1 && b3 == 256 * b2;
    var b4, b5, b6 := Bound(4), Bound(5), Bound(6);
    assert b4 == 256 * b3 && b5 == 256 * b4 && b6 == 256 * b5;
    var b7 := Bound(7);
    assert b7 == 256 * b6;
  }

  function U16At(b: Record, at: nat): u16
    requires at + 2 <= RECORD_LEN
  {
    FromLeBound(b[at..at + 2]);
    Bounds();
    FromLe(b[at..at + 2])
  }

  function U32At(b: Record, at: nat): u32
    requires at + 4 <= RECORD_LEN
  {
    FromLeBound(b[at..at + 4]);
    Bounds();
    FromLe(b[at..at + 4])
  }

  function U64At(b: Record, at: nat): u64
    requires at + 8 <= RECORD_LEN
  {
    FromLeBound(b[at..at + 8]);
    Bounds();
    FromLe(b[at..at + 8])
  }

  /** Two's complement. */
  function AsI16(v: u16): i16 { if v < 0x8000 then v else v - 0x1_0000 }

  function FromI16(v: i16): u16 { if v >= 0 then v else v + 0x1_0000 }

  function AsI32(v: u32): i32 { if v < 0x8000_0000 then v else v - 0x1_0000_0000 }

  function FromI32(v: i32): u32 { if v >= 0 then v else v + 0x1_0000_0000 }

  // ----- timestamps as offsets ----------------------------------------------------

  function ForwardOffset(base: u64, at: u64): u32 {
    if at < base then UNKNOWN_OFFSET_US
    else if at - base <= U32_MAX then at - base
    else UNKNOWN_OFFSET_US
  }

  function EvidenceOffset(base: u64, e: Evidence): u32 {
    match e case Unknown => UNKNOWN_OFFSET_US case Known(at) => ForwardOffset(base, at)
  }

  function SignedEvidenceOffset(base: u64, e: Evidence): i32 {
    match e
    case Unknown => UNKNOWN_SAMPLE_OFFSET_US
    case Known(at) =>
      if at >= base then if at - base < 0x8000_0000 then at - base else UNKNOWN_SAMPLE_OFFSET_US
      else if base - at < 0x8000_0000 then -(base - at)
      else UNKNOWN_SAMPLE_OFFSET_US
  }

  function CheckedSum(base: u64, offset: int): Evidence {
    if 0 <= base + offset <= U64_MAX then Known(base + offset) else Unknown
  }

  function DecodeEvidence(base: u64, offset: u32): Evidence {
    if offset == UNKNOWN_OFFSET_US then Unknown else CheckedSum(base, offset)
  }

  function DecodeSignedEvidence(base: u64, offset: i32): Evidence {
    if offset == UNKNOWN_SAMPLE_OFFSET_US then Unknown else CheckedSum(base, offset)
  }

  function DecodeRequiredOffset(base: u64, offset: u32): Result<u64, DecodeError> {
    if offset == UNKNOWN_OFFSET_US then Err(Timing)
    else if base + offset > U64_MAX then Err(Timing)
    else Ok(base + offset)
  }

  // ----- the layout ------------------------------------------------------------------

  const FIELDS: nat := 25

  /** Where field k starts. */
  function OffsetOf(k: nat): (at: nat)
    requires k <= FIELDS
    ensures 6 <= at <= CRC_OFFSET
  {
    if k <= 2 then (if k == 0 then 6 else if k == 1 then 10 else 18)
    else if k <= 6 then 22 + 4 * (k - 3)
    else if k <= 14 then 34 + 2 * (k - 6)
    else if k <= 17 then (if k == 15 then 54 else if k == 16 then 56 else 58)
    else if k <= 20 then (if k == 18 then 62 else if k == 19 then 64 else 66)
    else 70 + 2 * (k - 21)
  }

  function Width(k: nat): (w: nat)
    requires k < FIELDS
    ensures (w == 2 || w == 4 || w == 8) && OffsetOf(k) + w == OffsetOf(k + 1)
  {
    OffsetOf(k + 1) - OffsetOf(k)
  }

  /** What is written in field k. */
  function Value(r: Recorded, k: nat): (v: nat)
    requires k < FIELDS
  {
    var base := r.startedAt;
    if k <= 5 then
      if k == 0 then r.sampleIndex
      else if k == 1 then base
      else if k == 2 then ForwardOffset(base, r.completedAt)
      else if k == 3 then FromI32(SignedEvidenceOffset(base, r.imu.sampleAt))
      else if k == 4 then EvidenceOffset(base, r.imu.readStartedAt)
      else EvidenceOffset(base, r.imu.readCompletedAt)
    else if k <= 13 then
      if k == 6 then FromI16(r.imu.accel.x)
      else if k == 7 then FromI16(r.imu.accel.y)
      else if k == 8 then FromI16(r.imu.accel.z)
      else if k == 9 then FromI16(r.imu.temperature)
      else if k == 10 then FromI16(r.imu.gyro.x)
      else if k == 11 then FromI16(r.imu.gyro.y)
      else if k == 12 then FromI16(r.imu.gyro.z)
      else r.imu.quality
    else if k <= 19 then
      if k == 14 then EvidenceOffset(base, r.encoder1.capturedAt)
      else if k == 15 then r.encoder1.count
      else if k == 16 then r.encoder1.quality
      else if k == 17 then EvidenceOffset(base, r.encoder2.capturedAt)
      else if k == 18 then r.encoder2.count
      else r.encoder2.quality
    else
      if k == 20 then EvidenceOffset(base, r.battery.readCompletedAt)
      else if k == 21 then r.battery.adc
      else if k == 22 then r.battery.quality
      else if k == 23 then r.status
      else r.droppedRecords
  }

  lemma ValueFits(r: Recorded, k: nat)
    requires k < FIELDS
    ensures Value(r, k) < Bound(Width(k))
  {
    hide Bound, ForwardOffset, EvidenceOffset, SignedEvidenceOffset;
    Bounds();
  }

  /** The first k fields, packed. */
  function Packed(r: Recorded, k: nat): (b: seq<u8>)
    requires k <= FIELDS
    ensures |b| == OffsetOf(k) - 6
  {
    if k == 0 then [] else Packed(r, k - 1) + Le(Width(k - 1), Value(r, k - 1))
  }

  function Body(r: Recorded): (b: seq<u8>)
    ensures |b| == CRC_OFFSET
  {
    HEADER + Packed(r, FIELDS)
  }

  function Encoded(r: Recorded): (b: Record) {
    Body(r) + Le(2, Crc16.Crc(Body(r)))
  }

  // ----- decoding ------------------------------------------------------------------------

  function Validated(b: Record): Option<DecodeError> {
    if b[0] != 83 || b[1] != 87 then Some(Magic)
    else if b[2] != 1 then Some(Version)
    else if b[3] != 1 then Some(Kind)
    else if U16At(b, 4) != 72 then Some(PayloadLength)
    else if Crc16.Crc(b[..CRC_OFFSET]) != U16At(b, CRC_OFFSET) then Some(DecodeError.Crc)
    else None
  }

  function DecodeImu(b: Record, base: u64): Imu {
    Imu(DecodeSignedEvidence(base, AsI32(U32At(b, 22))), DecodeEvidence(base, U32At(b, 26)),
        DecodeEvidence(base, U32At(b, 30)),
        Axes(AsI16(U16At(b, 34)), AsI16(U16At(b, 36)), AsI16(U16At(b, 38))), AsI16(U16At(b, 40)),
        Axes(AsI16(U16At(b, 42)), AsI16(U16At(b, 44)), AsI16(U16At(b, 46))), U16At(b, 48))
  }

  function DecodeFields(b: Record, base: u64, completedAt: u64): Recorded {
    Recorded(U32At(b, 6), base, completedAt, DecodeImu(b, base),
             Encoder(DecodeEvidence(base, U32At(b, 50)), U16At(b, 54), U16At(b, 56)),
             Encoder(DecodeEvidence(base, U32At(b, 58)), U16At(b, 62), U16At(b, 64)),
             Battery(DecodeEvidence(base, U32At(b, 66)), U16At(b, 70), U16At(b, 72)),
             U16At(b, 74), U16At(b, 76))
  }

  function Decode(b: Record): Result<Recorded, DecodeError> {
    var refusal := Validated(b);
    if refusal.Some? then Err(refusal.value)
    else
      var base := U64At(b, 10);
      match DecodeRequiredOffset(base, U32At(b, 18))
      case Err(e) => Err(e)
      case Ok(completedAt) => Ok(DecodeFields(b, base, completedAt))
  }

  // ----- fields and bytes --------------------------------------------------------------------

  /** The number stored in field k. */
  function Get(b: Record, k: nat): nat
    requires k < FIELDS
  {
    FromLe(b[OffsetOf(k)..OffsetOf(k) + Width(k)])
  }

  lemma {:induction false} PackedPrefix(r: Recorded, k: nat, n: nat)
    requires k <= n <= FIELDS
    ensures Packed(r, k) <= Packed(r, n)
    decreases n
  {
    hide Value, Le, OffsetOf;
    if k < n { PackedPrefix(r, k, n - 1); }
  }

  /** Each field of an encoded record holds its value. */
  lemma EncodedField(r: Recorded, k: nat)
    requires k < FIELDS
    ensures Get(Encoded(r), k) == Value(r, k)
  {
    FirstOffset();
    hide Value, FromLe, Le, Crc16.Crc, OffsetOf;
    var p, at, w := Packed(r, FIELDS), OffsetOf(k), Width(k);
    PackedPrefix(r, k + 1, FIELDS);
    assert Packed(r, k + 1)[at - 6..] == Le(w, Value(r, k));
    assert p[at - 6..at - 6 + w] == Packed(r, k + 1)[at - 6..];
    assert Encoded(r)[at..at + w] == p[at - 6..at - 6 + w];
    ValueFits(r, k);
    LeRoundTrip(Width(k), Value(r, k));
  }

  lemma FirstOffset()
    ensures OffsetOf(0) == 6 && OffsetOf(FIELDS) == CRC_OFFSET
  {}

  /** Fields that hold the values of a record are its packed bytes. */
  lemma {:induction false} FieldsArePacked(b: Record, r: Recorded, k: nat)
    requires k <= FIELDS && forall j | 0 <= j < k :: Get(b, j) == Value(r, j)
    ensures b[6..OffsetOf(k)] == Packed(r, k)
  {
    hide Value, FromLe, Le, OffsetOf;
    if k > 0 {
      FieldsArePacked(b, r, k - 1);
      var at, w := OffsetOf(k - 1), Width(k - 1);
      LeInverse(b[at..at + w]);
      assert Get(b, k - 1) == Value(r, k - 1);
      assert b[6..at + w] == b[6..at] + b[at..at + w];
    } else {
      FirstOffset();
    }
  }

  lemma EncodedValidates(r: Recorded)
    ensures Validated(Encoded(r)).None?
  {
    hide Packed, Crc16.Crc;
    var b := Encoded(r);
    assert b[..CRC_OFFSET] == Body(r);
    assert b[4..6] == [72, 0];
    assert FromLe([72, 0]) == 72 by { assert [72, 0][1..] == [0] && FromLe([0]) == 0; }
    var crc := Crc16.Crc(Body(r));
    assert b[78..80] == Le(2, crc);
    Bounds();
    LeRoundTrip(2, crc);
  }

  /** A valid record is its header, its fields and the CRC of both. */
  lemma ValidatedShape(b: Record)
    requires Validated(b).None?
    ensures b == HEADER + b[6..78] + Le(2, Crc16.Crc(HEADER + b[6..78]))
  {
    hide Crc16.Crc, FromLe, Le;
    LeInverse(b[4..6]);
    LeOf72();
    LeInverse(b[78..80]);
    assert b[4] == b[4..6][0] && b[5] == b[4..6][1];
    assert b[..6] == HEADER;
    assert b[..78] == HEADER + b[6..78];
    assert b == b[..78] + b[78..80];
  }

  lemma LeOf72()
    ensures Le(2, 72) == [72, 0]
  {
    assert Le(1, 0) == [0] + Le(0, 0);
  }

  // ----- round trips ----------------------------------------------------------------------------

  predicate Representable(base: u64, at: u64) { base <= at < base + U32_MAX }

  predicate SignedRepresentable(base: u64, at: u64) { -0x8000_0000 < at - base < 0x8000_0000 }

  function Kept(base: u64, e: Evidence): Evidence {
    if e.Known? && Representable(base, e.at) then e else Unknown
  }

  function KeptSigned(base: u64, e: Evidence): Evidence {
    if e.Known? && SignedRepresentable(base, e.at) then e else Unknown
  }

  /** The record with every timestamp the format cannot express made unknown. */
  function Expressible(r: Recorded): Recorded {
    var base := r.startedAt;
    r.(imu := r.imu.(sampleAt := KeptSigned(base, r.imu.sampleAt),
                     readStartedAt := Kept(base, r.imu.readStartedAt),
                     readCompletedAt := Kept(base, r.imu.readCompletedAt)),
       encoder1 := r.encoder1.(capturedAt := Kept(base, r.encoder1.capturedAt)),
       encoder2 := r.encoder2.(capturedAt := Kept(base, r.encoder2.capturedAt)),
       battery := r.battery.(readCompletedAt := Kept(base, r.battery.readCompletedAt)))
  }

  lemma EvidenceRoundTrip(base: u64, e: Evidence)
    ensures DecodeEvidence(base, EvidenceOffset(base, e)) == Kept(base, e)
    ensures DecodeSignedEvidence(base, AsI32(FromI32(SignedEvidenceOffset(base, e)))) == KeptSigned(base, e)
  {}

  /** The fields as the decoder addresses them. */
  lemma TimingFieldsByOffset(b: Record)
    ensures U32At(b, 6) == Get(b, 0) && U64At(b, 10) == Get(b, 1) && U32At(b, 18) == Get(b, 2)
    ensures U32At(b, 22) == Get(b, 3) && U32At(b, 26) == Get(b, 4) && U32At(b, 30) == Get(b, 5)
  {
    hide FromLe;
  }

  lemma ImuFieldsByOffset(b: Record)
    ensures U16At(b, 34) == Get(b, 6) && U16At(b, 36) == Get(b, 7) && U16At(b, 38) == Get(b, 8)
    ensures U16At(b, 40) == Get(b, 9) && U16At(b, 42) == Get(b, 10) && U16At(b, 44) == Get(b, 11)
    ensures U16At(b, 46) == Get(b, 12) && U16At(b, 48) == Get(b, 13)
  {
    hide FromLe;
  }

  lemma EncoderFieldsByOffset(b: Record)
    ensures U32At(b, 50) == Get(b, 14) && U16At(b, 54) == Get(b, 15) && U16At(b, 56) == Get(b, 16)
    ensures U32At(b, 58) == Get(b, 17) && U16At(b, 62) == Get(b, 18) && U16At(b, 64) == Get(b, 19)
  {
    hide FromLe;
  }

  lemma BatteryFieldsByOffset(b: Record)
    ensures U32At(b, 66) == Get(b, 20) && U16At(b, 70) == Get(b, 21) && U16At(b, 72) == Get(b, 22)
    ensures U16At(b, 74) == Get(b, 23) && U16At(b, 76) == Get(b, 24)
  {
    hide FromLe;
  }

  lemma DecodeFieldsOfEncoded(r: Recorded)
    ensures U64At(Encoded(r), 10) == r.startedAt
    ensures U32At(Encoded(r), 18) == ForwardOffset(r.startedAt, r.completedAt)
    ensures DecodeFields(Encoded(r), r.startedAt, r.completedAt) == Expressible(r)
  {
    hide Encoded, Get, U16At, U32At, U64At, DecodeEvidence, EvidenceOffset, SignedEvidenceOffset, DecodeSignedEvidence,
      AsI32, FromI32, Kept, KeptSigned, ForwardOffset;
    forall k | 0 <= k < FIELDS ensures Get(Encoded(r), k) == Value(r, k) { EncodedField(r, k); }
    TimingFieldsByOffset(Encoded(r));
    ImuFieldsByOffset(Encoded(r));
    EncoderFieldsByOffset(Encoded(r));
    BatteryFieldsByOffset(Encoded(r));
    var base := r.startedAt;
    EvidenceRoundTrip(base, r.imu.sampleAt);
    EvidenceRoundTrip(base, r.imu.readStartedAt);
    EvidenceRoundTrip(base, r.imu.readCompletedAt);
    EvidenceRoundTrip(base, r.encoder1.capturedAt);
    EvidenceRoundTrip(base, r.encoder2.capturedAt);
    EvidenceRoundTrip(base, r.battery.readCompletedAt);
  }

  /** A record is decodable exactly when its duration fits; nothing else can refuse it. */
  predicate DurationFits(r: Recorded) {
    r.startedAt <= r.completedAt <= r.startedAt + (U32_MAX - 1)
  }

  /** Decoding what was encoded. */
  lemma DecodeEncoded(r: Recorded)
    ensures Decode(Encoded(r)) == if DurationFits(r) then Ok(Expressible(r)) else Err(Timing)
  {
    hide Encoded, Validated, DecodeFields, Expressible, U32At, U64At;
    EncodedValidates(r);
    DecodeFieldsOfEncoded(r);
  }

  /** No optional offset of these bytes leaves the 64-bit range. */
  predicate OffsetsStayInRange(b: Record) {
    var base, signed := U64At(b, 10), AsI32(U32At(b, 22));
    && (signed != UNKNOWN_SAMPLE_OFFSET_US ==> 0 <= base + signed <= U64_MAX)
    && OffsetInRange(base, U32At(b, 26)) && OffsetInRange(base, U32At(b, 30)) && OffsetInRange(base, U32At(b, 50))
    && OffsetInRange(base, U32At(b, 58)) && OffsetInRange(base, U32At(b, 66))
  }

  predicate OffsetInRange(base: u64, offset: u32) {
    offset != UNKNOWN_OFFSET_US ==> base + offset <= U64_MAX
  }

  lemma OffsetRoundTrip(base: u64, offset: u32)
    ensures EvidenceOffset(base, DecodeEvidence(base, offset)) == offset <==> OffsetInRange(base, offset)
  {}

  lemma SignedOffsetRoundTrip(base: u64, word: u32)
    ensures FromI32(SignedEvidenceOffset(base, DecodeSignedEvidence(base, AsI32(word)))) == word
      <==> (AsI32(word) != UNKNOWN_SAMPLE_OFFSET_US ==> 0 <= base + AsI32(word) <= U64_MAX)
  {}

  lemma ReencodedFields(b: Record)
    requires Decode(b).Ok?
    ensures (forall k | 0 <= k < FIELDS :: Value(Decode(b).value, k) == Get(b, k)) <==> OffsetsStayInRange(b)
  {
    hide Get, U16At, U32At, U64At, DecodeEvidence, EvidenceOffset, SignedEvidenceOffset, DecodeSignedEvidence,
      AsI32, FromI32, OffsetInRange, Validated;
    TimingFieldsByOffset(b);
    ImuFieldsByOffset(b);
    EncoderFieldsByOffset(b);
    BatteryFieldsByOffset(b);
    var base := U64At(b, 10);
    var r := Decode(b).value;
    SignedOffsetRoundTrip(base, U32At(b, 22));
    OffsetRoundTrip(base, U32At(b, 26));
    OffsetRoundTrip(base, U32At(b, 30));
    OffsetRoundTrip(base, U32At(b, 50));
    OffsetRoundTrip(base, U32At(b, 58));
    OffsetRoundTrip(base, U32At(b, 66));
    assert Value(r, 3) == Get(b, 3) <==> FromI32(SignedEvidenceOffset(base, DecodeSignedEvidence(base, AsI32(U32At(b, 22))))) == U32At(b, 22);
    assert Value(r, 4) == EvidenceOffset(base, DecodeEvidence(base, U32At(b, 26)));
    assert Value(r, 5) == EvidenceOffset(base, DecodeEvidence(base, U32At(b, 30)));
    assert Value(r, 14) == EvidenceOffset(base, DecodeEvidence(base, U32At(b, 50)));
    assert Value(r, 17) == EvidenceOffset(base, DecodeEvidence(base, U32At(b, 58)));
    assert Value(r, 20) == EvidenceOffset(base, DecodeEvidence(base, U32At(b, 66)));
  }

  /** Encoding what was decoded gives the same bytes exactly when no offset left the 64-bit range. */
  lemma EncodeDecoded(b: Record)
    requires Decode(b).Ok?
    ensures Encoded(Decode(b).value) == b <==> OffsetsStayInRange(b)
  {
    hide OffsetsStayInRange, Value, Get, DecodeFields, DecodeRequiredOffset;
    var r := Decode(b).value;
    ReencodedFields(b);
    if OffsetsStayInRange(b) {
      FieldsArePacked(b, r, FIELDS);
      ValidatedShape(b);
    }
    if Encoded(r) == b {
      forall k | 0 <= k < FIELDS ensures Value(r, k) == Get(b, k) { EncodedField(r, k); }
    }
  }

  /** A record that starts at the last microsecond of the clock, completes at once, and claims an IMU read that
      started one microsecond later. */
  function PastTheClock(): Record {
    var body := HEADER + Le(4, 0) + Le(8, U64_MAX) + Le(4, 0) + Le(4, 0) + Le(4, 1) + seq(48, i => 0);
    body + Le(2, Crc16.Crc(body))
  }

  lemma PastTheClockBytes()
    ensures var b := PastTheClock();
      && b[..6] == HEADER && b[10..18] == Le(8, U64_MAX) && b[18..22] == Le(4, 0) && b[26..30] == Le(4, 1)
      && b[78..80] == Le(2, Crc16.Crc(b[..78]))
  {
    hide Crc16.Crc, Le;
    var body := HEADER + Le(4, 0) + Le(8, U64_MAX) + Le(4, 0) + Le(4, 0) + Le(4, 1) + seq(48, i => 0);
    assert PastTheClock()[..78] == body;
  }

  lemma PastTheClockHeader()
    ensures var b := PastTheClock();
      b[0] == 83 && b[1] == 87 && b[2] == 1 && b[3] == 1 && U16At(b, 4) == 72
  {
    PastTheClockBytes();
    LeOf72();
    Bounds();
    LeRoundTrip(2, 72);
    hide PastTheClock, Le, FromLe;
    var b := PastTheClock();
    assert b[..6][0] == 83 && b[..6][1] == 87 && b[..6][2] == 1 && b[..6][3] == 1;
    assert b[4..6] == b[..6][4..6] == [72, 0];
  }

  lemma PastTheClockNumbers()
    ensures var b := PastTheClock();
      U64At(b, 10) == U64_MAX && U32At(b, 18) == 0 && U32At(b, 26) == 1 && U16At(b, 78) == Crc16.Crc(b[..78])
  {
    hide PastTheClock, Le, FromLe, Crc16.Crc;
    PastTheClockBytes();
    Bounds();
    LeRoundTrip(8, U64_MAX);
    LeRoundTrip(4, 0);
    LeRoundTrip(4, 1);
    LeRoundTrip(2, Crc16.Crc(PastTheClock()[..78]));
  }

  /** Bytes are accepted that do not come back: the read that starts past the end of the clock decodes to unknown. */
  lemma AcceptedNotReencoded()
    ensures Decode(PastTheClock()).Ok? && Decode(PastTheClock()).value.imu.readStartedAt == Unknown
    ensures Encoded(Decode(PastTheClock()).value) != PastTheClock()
  {
    PastTheClockHeader();
    PastTheClockNumbers();
    var b := PastTheClock();
    hide PastTheClock, Crc16.Crc, Encoded, U16At, U32At, U64At;
    assert Validated(b).None?;
    assert !OffsetsStayInRange(b);
    EncodeDecoded(b);
  }

  // ----- the layout, byte by byte -----------------------------------------------------------

  /** Numbers are stored lowest byte first. */
  lemma {:induction false} LittleEndian(b: Record, at: nat)
    requires at + 2 <= RECORD_LEN
    ensures var low: int, high: int := b[at], b[at + 1]; U16At(b, at) == low + 0x100 * high
    ensures at + 4 <= RECORD_LEN ==> U32At(b, at) == U16At(b, at) + 0x1_0000 * U16At(b, at + 2)
    ensures at + 8 <= RECORD_LEN ==> U64At(b, at) == U32At(b, at) + 0x1_0000_0000 * U32At(b, at + 4)
  {
    hide FromLe;
    FromLePair(b[at], b[at + 1]);
    assert b[at..at + 2] == [b[at], b[at + 1]];
    if at + 4 <= RECORD_LEN {
      FromLeJoins(b[at..at + 2], b[at + 2..at + 4]);
      assert b[at..at + 2] + b[at + 2..at + 4] == b[at..at + 4];
    }
    if at + 8 <= RECORD_LEN {
      FromLeJoins(b[at..at + 4], b[at + 4..at + 8]);
      assert b[at..at + 4] + b[at + 4..at + 8] == b[at..at + 8];
    }
    Bounds();
  }

  lemma {:induction false} FromLeJoins(a: seq<u8>, c: seq<u8>)
    ensures FromLe(a + c) == FromLe(a) + Bound(|a|) * FromLe(c)
  {
    if |a| == 0 {
      assert a + c == c;
    } else {
      FromLeJoins(a[1..], c);
      assert (a + c)[1..] == a[1..] + c;
      Scaled(Bound(|a| - 1), FromLe(c), Bound(|a|));
    }
  }

  lemma Scaled(bound: nat, n: nat, more: nat)
    requires more == 256 * bound
    ensures 256 * (bound * n) == more * n
  {}

  /** Signed numbers are stored as their remainder modulo the width. */
  lemma TwosComplement(short: i16, long: i32)
    ensures FromI16(short) == short % 0x1_0000 && AsI16(FromI16(short)) == short
    ensures FromI32(long) == long % 0x1_0000_0000 && AsI32(FromI32(long)) == long
  {}

  /** A time is stored as the microseconds since the record's start, or as all ones where it is unknown, before
      the start or too far after it. */
  predicate StoredAt(word: u32, base: u64, e: Evidence) {
    match e
    case Unknown => word == 0xFFFF_FFFF
    case Known(at) => word == if base <= at < base + 0xFFFF_FFFF then at - base else 0xFFFF_FFFF
  }

  /** The sample time may lie on either side of the start, and has the most negative number for unknown. */
  predicate StoredSigned(word: i32, base: u64, e: Evidence) {
    match e
    case Unknown => word == -0x8000_0000
    case Known(at) => word == if base - 0x8000_0000 < at < base + 0x8000_0000 then at - base else -0x8000_0000
  }

  /** Which bytes of a record hold what. */
  predicate LaidOut(b: Record, r: Recorded) {
    && b[..6] == [0x53, 0x57, 1, 1, 72, 0]
    && U32At(b, 6) == r.sampleIndex && U64At(b, 10) == r.startedAt && StoredAt(U32At(b, 18), r.startedAt, Known(r.completedAt))
    && StoredSigned(AsI32(U32At(b, 22)), r.startedAt, r.imu.sampleAt)
    && StoredAt(U32At(b, 26), r.startedAt, r.imu.readStartedAt) && StoredAt(U32At(b, 30), r.startedAt, r.imu.readCompletedAt)
    && AsI16(U16At(b, 34)) == r.imu.accel.x && AsI16(U16At(b, 36)) == r.imu.accel.y && AsI16(U16At(b, 38)) == r.imu.accel.z
    && AsI16(U16At(b, 40)) == r.imu.temperature
    && AsI16(U16At(b, 42)) == r.imu.gyro.x && AsI16(U16At(b, 44)) == r.imu.gyro.y && AsI16(U16At(b, 46)) == r.imu.gyro.z
    && U16At(b, 48) == r.imu.quality
    && StoredAt(U32At(b, 50), r.startedAt, r.encoder1.capturedAt) && U16At(b, 54) == r.encoder1.count && U16At(b, 56) == r.encoder1.quality
    && StoredAt(U32At(b, 58), r.startedAt, r.encoder2.capturedAt) && U16At(b, 62) == r.encoder2.count && U16At(b, 64) == r.encoder2.quality
    && StoredAt(U32At(b, 66), r.startedAt, r.battery.readCompletedAt) && U16At(b, 70) == r.battery.adc && U16At(b, 72) == r.battery.quality
    && U16At(b, 74) == r.status && U16At(b, 76) == r.droppedRecords
    && U16At(b, 78) == Crc16.Crc(b[..78])
  }

  lemma StoredOffsets(base: u64, e: Evidence)
    ensures StoredAt(EvidenceOffset(base, e), base, e) && StoredSigned(SignedEvidenceOffset(base, e), base, e)
  {}

  lemma EncodedIsLaidOut(r: Recorded)
    ensures LaidOut(Encoded(r), r)
  {
    hide Encoded, Get, U16At, U32At, U64At, EvidenceOffset, SignedEvidenceOffset, StoredAt, StoredSigned, Crc16.Crc, AsI16, FromI16, AsI32, FromI32;
    var b, base := Encoded(r), r.startedAt;
    forall k | 0 <= k < FIELDS ensures Get(b, k) == Value(r, k) { EncodedField(r, k); }
    TimingFieldsByOffset(b);
    ImuFieldsByOffset(b);
    EncoderFieldsByOffset(b);
    BatteryFieldsByOffset(b);
    StoredOffsets(base, Known(r.completedAt));
    assert EvidenceOffset(base, Known(r.completedAt)) == ForwardOffset(base, r.completedAt) by { StoredForward(base, r.completedAt); }
    StoredOffsets(base, r.imu.sampleAt);
    StoredOffsets(base, r.imu.readStartedAt);
    StoredOffsets(base, r.imu.readCompletedAt);
    StoredOffsets(base, r.encoder1.capturedAt);
    StoredOffsets(base, r.encoder2.capturedAt);
    StoredOffsets(base, r.battery.readCompletedAt);
    forall v: i16, w: i32 { TwosComplement(v, w); }
    EncodedEnds(r);
  }

  lemma StoredDetermines(base: u64, e: Evidence, word: u32, signed: u32)
    ensures StoredAt(word, base, e) ==> word == EvidenceOffset(base, e)
    ensures StoredSigned(AsI32(signed), base, e) ==> signed == FromI32(SignedEvidenceOffset(base, e))
  {}

  lemma SignedDetermines(word: u16, v: i16)
    requires AsI16(word) == v
    ensures word == FromI16(v)
  {}

  lemma LaidOutFields(b: Record, r: Recorded, k: nat)
    requires k < FIELDS && LaidOut(b, r)
    ensures Get(b, k) == Value(r, k)
  {
    hide Get, U16At, U32At, U64At, EvidenceOffset, SignedEvidenceOffset, StoredAt, StoredSigned, Crc16.Crc, AsI16, FromI16, AsI32, FromI32;
    var base := r.startedAt;
    TimingFieldsByOffset(b);
    ImuFieldsByOffset(b);
    EncoderFieldsByOffset(b);
    BatteryFieldsByOffset(b);
    StoredForward(base, r.completedAt);
    StoredDetermines(base, Known(r.completedAt), U32At(b, 18), 0);
    StoredDetermines(base, r.imu.sampleAt, 0, U32At(b, 22));
    StoredDetermines(base, r.imu.readStartedAt, U32At(b, 26), 0);
    StoredDetermines(base, r.imu.readCompletedAt, U32At(b, 30), 0);
    StoredDetermines(base, r.encoder1.capturedAt, U32At(b, 50), 0);
    StoredDetermines(base, r.encoder2.capturedAt, U32At(b, 58), 0);
    StoredDetermines(base, r.battery.readCompletedAt, U32At(b, 66), 0);
    SignedDetermines(U16At(b, 34), r.imu.accel.x);
    SignedDetermines(U16At(b, 36), r.imu.accel.y);
    SignedDetermines(U16At(b, 38), r.imu.accel.z);
    SignedDetermines(U16At(b, 40), r.imu.temperature);
    SignedDetermines(U16At(b, 42), r.imu.gyro.x);
    SignedDetermines(U16At(b, 44), r.imu.gyro.y);
    SignedDetermines(U16At(b, 46), r.imu.gyro.z);
  }

  /** The encoder's bytes are the one record laid out like this. */
  lemma LaidOutExactly(b: Record, r: Recorded)
    ensures LaidOut(b, r) <==> b == Encoded(r)
  {
    EncodedIsLaidOut(r);
    hide LaidOut, Encoded;
    if LaidOut(b, r) { LaidOutDetermines(b, r); }
  }

  lemma LaidOutDetermines(b: Record, r: Recorded)
    requires LaidOut(b, r)
    ensures b == Encoded(r)
  {
    hide LaidOut, Crc16.Crc, Le, OffsetOf, Get, Value, Packed;
    forall k | 0 <= k < FIELDS ensures Get(b, k) == Value(r, k) { LaidOutFields(b, r, k); }
    FieldsArePacked(b, r, FIELDS);
    LaidOutEnds(b, r);
    FirstOffset();
    assert b[..78] == b[..6] + b[6..78];
    assert b == b[..78] + b[78..80];
  }

  lemma LaidOutEnds(b: Record, r: Recorded)
    requires LaidOut(b, r)
    ensures b[..6] == HEADER && b[78..80] == Le(2, Crc16.Crc(b[..78]))
  {
    hide Le, FromLe, Crc16.Crc, U32At, U64At, StoredAt, StoredSigned, AsI16, AsI32;
    LeInverse(b[78..80]);
  }

  lemma StoredForward(base: u64, at: u64)
    ensures EvidenceOffset(base, Known(at)) == ForwardOffset(base, at)
  {}

  lemma EncodedEnds(r: Recorded)
    ensures var b := Encoded(r); b[..6] == [0x53, 0x57, 1, 1, 72, 0] && U16At(b, 78) == Crc16.Crc(b[..78])
  {
    hide Packed, Crc16.Crc;
    var b := Encoded(r);
    assert b[..CRC_OFFSET] == Body(r);
    var crc := Crc16.Crc(Body(r));
    assert b[78..80] == Le(2, crc);
    Bounds();
    LeRoundTrip(2, crc);
  }

  // ----- encoding in place -----------------------------------------------------------------

  method PutLe(out: array<u8>, at: nat, width: nat, value: nat)
    requires at + width <= out.Length
    modifies out
    ensures out[..at + width] == old(out[..at]) + Le(width, value)
  {
    var rest := value;
    for j := 0 to width
      invariant out[..at + j] + Le(width - j, rest) == old(out[..at]) + Le(width, value)
    {
      ghost var before := out[..at + j];
      out[at + j] := rest % 256;
      assert out[..at + j + 1] == before + [rest % 256];
      rest := rest / 256;
    }
  }

  /** Writes field k behind the fields before it. */
  method PutField(out: array<u8>, at: nat, width: nat, value: nat, ghost r: Recorded, ghost k: nat)
    requires k < FIELDS && at == OffsetOf(k) && width == Width(k) && value == Value(r, k)
    requires out.Length == RECORD_LEN && out[..at] == HEADER + Packed(r, k)
    modifies out
    ensures out[..at + width] == HEADER + Packed(r, k + 1)
  {
    hide OffsetOf, Value, Le;
    PutLe(out, at, width, value);
  }

  method EncodeTiming(out: array<u8>, r: Recorded)
    requires out.Length == RECORD_LEN && out[..6] == HEADER
    modifies out
    ensures out[..34] == HEADER + Packed(r, 6)
  {
    hide Packed, Le;
    assert Packed(r, 0) == [];
    var base := r.startedAt;
    PutField(out, 6, 4, r.sampleIndex, r, 0);
    PutField(out, 10, 8, base, r, 1);
    PutField(out, 18, 4, ForwardOffset(base, r.completedAt), r, 2);
    PutField(out, 22, 4, FromI32(SignedEvidenceOffset(base, r.imu.sampleAt)), r, 3);
    PutField(out, 26, 4, EvidenceOffset(base, r.imu.readStartedAt), r, 4);
    PutField(out, 30, 4, EvidenceOffset(base, r.imu.readCompletedAt), r, 5);
  }

  method EncodeImu(out: array<u8>, r: Recorded)
    requires out.Length == RECORD_LEN && out[..34] == HEADER + Packed(r, 6)
    modifies out
    ensures out[..50] == HEADER + Packed(r, 14)
  {
    hide Packed, Le;
    PutField(out, 34, 2, FromI16(r.imu.accel.x), r, 6);
    PutField(out, 36, 2, FromI16(r.imu.accel.y), r, 7);
    PutField(out, 38, 2, FromI16(r.imu.accel.z), r, 8);
    PutField(out, 40, 2, FromI16(r.imu.temperature), r, 9);
    PutField(out, 42, 2, FromI16(r.imu.gyro.x), r, 10);
    PutField(out, 44, 2, FromI16(r.imu.gyro.y), r, 11);
    PutField(out, 46, 2, FromI16(r.imu.gyro.z), r, 12);
    PutField(out, 48, 2, r.imu.quality, r, 13);
  }

  method EncodeRest(out: array<u8>, r: Recorded)
    requires out.Length == RECORD_LEN && out[..50] == HEADER + Packed(r, 14)
    modifies out
    ensures out[..CRC_OFFSET] == Body(r)
  {
    hide Packed, Le;
    var base := r.startedAt;
    PutField(out, 50, 4, EvidenceOffset(base, r.encoder1.capturedAt), r, 14);
    PutField(out, 54, 2, r.encoder1.count, r, 15);
    PutField(out, 56, 2, r.encoder1.quality, r, 16);
    PutField(out, 58, 4, EvidenceOffset(base, r.encoder2.capturedAt), r, 17);
    PutField(out, 62, 2, r.encoder2.count, r, 18);
    PutField(out, 64, 2, r.encoder2.quality, r, 19);
    PutField(out, 66, 4, EvidenceOffset(base, r.battery.readCompletedAt), r, 20);
    PutField(out, 70, 2, r.battery.adc, r, 21);
    PutField(out, 72, 2, r.battery.quality, r, 22);
    PutField(out, 74, 2, r.status, r, 23);
    PutField(out, 76, 2, r.droppedRecords, r, 24);
  }

  /** Fills a fresh buffer field by field at the fields' own offsets. */
  method Encode(r: Recorded) returns (out: array<u8>)
    ensures fresh(out) && out[..] == Encoded(r)
  {
    hide Packed, Le;
    out := new u8[RECORD_LEN](i => 0);
    out[0], out[1], out[2], out[3] := 83, 87, 1, 1;
    PutLe(out, 4, 2, 72);
    LeOf72();
    assert out[..6] == HEADER;
    EncodeTiming(out, r);
    EncodeImu(out, r);
    EncodeRest(out, r);
    var crc := Crc16CcittFalse(out[..CRC_OFFSET]);
    PutLe(out, CRC_OFFSET, 2, crc);
    assert out[..] == out[..CRC_OFFSET + 2];
  }

  // ----- what corruption is rejected -------------------------------------------------------------

  lemma FromLePair(x: u8, y: u8)
    ensures var high: int := y; FromLe([x, y]) == x + 256 * high
  {
    assert [x, y][1..] == [y] && [y][1..] == [];
    assert FromLe([]) == 0;
    assert FromLe([y]) == y;
  }

  lemma OnesOfWord(x: u8, y: u8)
    ensures Ones(FromLe([x, y])) % 2 == (Ones(x) + Ones(y)) % 2
  {
    hide Ones, Xor, FromLe;
    var high: int := y;
    FromLePair(x, y);
    LowByteJoins(y, x);
    OnesXor(256 * high, x);
    OnesDoubled(y, 8);
    DoubledEight(y);
  }

  /** Every accepted record has an even number of one bits. */
  lemma AcceptedIsEven(b: Record)
    requires Validated(b).None?
    ensures OnesIn(b) % 2 == 0
  {
    hide Ones, FromLe;
    FoldParity(INITIAL, b[..78]);
    InitialIsEven();
    OnesOfWord(b[78], b[79]);
    assert b[78..80] == [b[78], b[79]];
    assert b[..79][..78] == b[..78] && b[..80] == b && b[..80][..79] == b[..79];
    assert OnesIn(b) == OnesIn(b[..79]) + Ones(b[79]);
    assert OnesIn(b[..79]) == OnesIn(b[..78]) + Ones(b[78]);
  }

  lemma InitialIsEven()
    ensures Ones(INITIAL) == 16
  {
    assert Ones(0xF) == 4 && Ones(0x1F) == 5 && Ones(0x3F) == 6 && Ones(0x7F) == 7;
    assert Ones(0xFF) == 8 && Ones(0x1FF) == 9 && Ones(0x3FF) == 10 && Ones(0x7FF) == 11;
    assert Ones(0xFFF) == 12 && Ones(0x1FFF) == 13 && Ones(0x3FFF) == 14 && Ones(0x7FFF) == 15;
  }

  /** Flipping any odd number of bits of an accepted record, anywhere, is rejected. */
  lemma OddFlipsRejected(b: Record, corrupt: Record)
    requires Decode(b).Ok? && FlippedBits(b, corrupt) % 2 == 1
    ensures Decode(corrupt).Err?
  {
    hide FlippedBits, OnesIn, Validated, DecodeFields, DecodeRequiredOffset;
    FlippedParity(b, corrupt);
    AcceptedIsEven(b);
    if Decode(corrupt).Ok? { AcceptedIsEven(corrupt); }
  }

  /** What a record is refused for when this byte of it alone is wrong. */
  function ErrorAt(i: nat): DecodeError {
    if i < 2 then Magic else if i == 2 then Version else if i == 3 then Kind else if i < 6 then PayloadLength else DecodeError.Crc
  }

  /** Changing any one byte of an accepted record, the stored CRC's included, is rejected, and for the field the
      byte is in: a header field as itself, anything behind the header by the check. */
  lemma OneByteRejected(b: Record, i: nat, value: u8)
    requires i < RECORD_LEN && Decode(b).Ok? && value != b[i]
    ensures Decode(b[i := value]) == Err(ErrorAt(i))
  {
    hide Crc16.Crc, FromLe;
    var c: Record := b[i := value];
    if i < CRC_OFFSET {
      assert b[..78] == b[..i] + [b[i]] + b[i + 1..78];
      assert c[..78] == b[..i] + [value] + b[i + 1..78];
      assert c[78..80] == b[78..80];
      if Crc16.Crc(b[..78]) == Crc16.Crc(c[..78]) { OneByteDetected(b[..i], b[i], value, b[i + 1..78]); }
    } else {
      assert c[..78] == b[..78];
      assert c[78..80] != b[78..80] by { assert c[78..80][i - 78] == value; }
      LeInverse(b[78..80]);
      LeInverse(c[78..80]);
    }
    LengthWord(b, c, i);
  }

  lemma LengthWord(b: Record, c: Record, i: nat)
    requires i < RECORD_LEN && c == b[i := c[i]] && c[i] != b[i]
    ensures U16At(c, 4) == U16At(b, 4) <==> i != 4 && i != 5
  {
    hide FromLe;
    if i == 4 || i == 5 {
      assert c[4..6][i - 4] != b[4..6][i - 4];
      LeInverse(b[4..6]);
      LeInverse(c[4..6]);
    } else {
      assert c[4..6] == b[4..6];
    }
  }

  /** Changing two adjacent bytes ahead of the stored CRC is rejected. */
  lemma AdjacentBytesRejected(b: Record, i: nat, x: u8, y: u8)
    requires i + 1 < CRC_OFFSET && Decode(b).Ok? && (x != b[i] || y != b[i + 1])
    ensures Decode(b[i := x][i + 1 := y]).Err?
  {
    hide Crc16.Crc, FromLe;
    var c: Record := b[i := x][i + 1 := y];
    assert b[..78] == b[..i] + [b[i], b[i + 1]] + b[i + 2..78];
    assert c[..78] == b[..i] + [x, y] + b[i + 2..78];
    assert c[78..80] == b[78..80];
    if Crc16.Crc(b[..78]) == Crc16.Crc(c[..78]) {
      AdjacentBytesDetected(b[..i], b[i], b[i + 1], x, y, b[i + 2..78]);
    }
  }

  /** Changing bits only inside 16 consecutive ones ahead of the stored CRC is rejected, wherever in a byte they start. */
  lemma {:induction false} BurstRejected(b: Record, i: nat, x: u8, y: u8, z: u8, t: nat)
    requires i + 2 < CRC_OFFSET && Decode(b).Ok? && (x != b[i] || y != b[i + 1] || z != b[i + 2])
    requires t <= 8 && UpperBits(x, t) == UpperBits(b[i], t) && LowerBits(z, t) == LowerBits(b[i + 2], t)
    ensures Decode(b[i := x][i + 1 := y][i + 2 := z]).Err?
  {
    hide Crc16.Crc, FromLe;
    var c: Record := b[i := x][i + 1 := y][i + 2 := z];
    assert b[..78] == b[..i] + [b[i], b[i + 1], b[i + 2]] + b[i + 3..78];
    assert c[..78] == b[..i] + [x, y, z] + b[i + 3..78];
    assert c[78..80] == b[78..80];
    if Crc16.Crc(b[..78]) == Crc16.Crc(c[..78]) {
      BurstDetected(b[..i], b[i], b[i + 1], b[i + 2], x, y, z, b[i + 3..78], t);
    }
  }
}
