/** Finding records in a byte stream: the observing decoder with its counters,
    the offline reader, and why neither depends on how the stream is cut. */
module RecordStream {
  import opened Wrappers
  import opened MachineInts
  import opened Crc16
  import opened ObservationRecord

  const HEADER_LEN: nat := 6

  // ----- one record ----------------------------------------------------------------

  /** A decoded row: timestamps are sums of unbounded integers here. */
  datatype Row = Row(sequence: u32, startedAt: u64, completedAt: int, sampleAt: Option<int>,
                     readStartedAt: Option<int>, readCompletedAt: Option<int>,
                     accel: Axes, temperature: i16, gyro: Axes, imuQuality: u16,
                     encoder1At: Option<int>, encoder1Count: u16, encoder1Quality: u16,
                     encoder2At: Option<int>, encoder2Count: u16, encoder2Quality: u16,
                     batteryAt: Option<int>, batteryAdc: u16, batteryQuality: u16,
                     status: u16, dropped: u16)

  function RowOffset(base: u64, offset: u32): Option<int> {
    if offset == UNKNOWN_OFFSET_US then None else Some(base + offset)
  }

  function RowSampleOffset(base: u64, offset: i32): Option<int> {
    if offset == UNKNOWN_SAMPLE_OFFSET_US then None else Some(base + offset)
  }

  function RowFields(b: ObservationRecord.Record): Row {
    var base := U64At(b, 10);
    Row(U32At(b, 6), base, base + U32At(b, 18), RowSampleOffset(base, AsI32(U32At(b, 22))),
        RowOffset(base, U32At(b, 26)), RowOffset(base, U32At(b, 30)),
        Axes(AsI16(U16At(b, 34)), AsI16(U16At(b, 36)), AsI16(U16At(b, 38))), AsI16(U16At(b, 40)),
        Axes(AsI16(U16At(b, 42)), AsI16(U16At(b, 44)), AsI16(U16At(b, 46))), U16At(b, 48),
        RowOffset(base, U32At(b, 50)), U16At(b, 54), U16At(b, 56),
        RowOffset(base, U32At(b, 58)), U16At(b, 62), U16At(b, 64),
        RowOffset(base, U32At(b, 66)), U16At(b, 70), U16At(b, 72),
        U16At(b, 74), U16At(b, 76))
  }

  /** Header fields other than the magic. */
  predicate HeaderFits(b: seq<u8>)
    requires |b| >= HEADER_LEN
  {
    b[2] == 1 && b[3] == 1 && FromLe(b[4..6]) == 72
  }

  predicate MagicAt(b: seq<u8>, i: nat)
  {
    i + 1 < |b| && b[i] == 83 && b[i + 1] == 87
  }

  predicate CrcFits(b: ObservationRecord.Record) {
    Crc16.Crc(b[..CRC_OFFSET]) == U16At(b, CRC_OFFSET)
  }

  function DecodeRecord(b: seq<u8>): Option<Row> {
    if |b| != RECORD_LEN then None
    else if !MagicAt(b, 0) || !HeaderFits(b) then None
    else if !CrcFits(b) then None
    else if U32At(b, 18) == UNKNOWN_OFFSET_US then None
    else Some(RowFields(b))
  }

  // ----- one buffer ------------------------------------------------------------------

  /** Where the magic first occurs, or None. */
  function Find(b: seq<u8>): (r: Option<nat>)
    ensures r.Some? ==> r.value + 1 < |b| && MagicAt(b, r.value) && forall i | 0 <= i < r.value :: !MagicAt(b, i)
    ensures r.None? ==> forall i: nat :: !MagicAt(b, i)
  {
    FindFrom(b, 0)
  }

  function FindFrom(b: seq<u8>, from: nat): (r: Option<nat>)
    requires forall i | 0 <= i < from :: !MagicAt(b, i)
    ensures r.Some? ==> r.value + 1 < |b| && MagicAt(b, r.value) && forall i | 0 <= i < r.value :: !MagicAt(b, i)
    ensures r.None? ==> forall i: nat :: !MagicAt(b, i)
    decreases |b| - from
  {
    if from + 1 >= |b| then None
    else if MagicAt(b, from) then Some(from)
    else FindFrom(b, from + 1)
  }

  /** The first occurrence is the only place with this property. */
  lemma FindIs(b: seq<u8>, i: nat)
    requires MagicAt(b, i) && forall j | 0 <= j < i :: !MagicAt(b, j)
    ensures Find(b) == Some(i)
  {}

  /** What draining a buffer yields and leaves. */
  datatype Drained = Drained(rows: seq<Row>, crcErrors: nat, invalidRecords: nat, discardedBytes: nat, rest: seq<u8>)

  function Discarding(n: nat, d: Drained): Drained {
    d.(discardedBytes := n + d.discardedBytes)
  }

  function WithRow(row: Row, d: Drained): Drained {
    d.(rows := [row] + d.rows)
  }

  /** One drain after another. */
  function Then(first: Drained, second: Drained): Drained {
    Drained(first.rows + second.rows, first.crcErrors + second.crcErrors, first.invalidRecords + second.invalidRecords,
            first.discardedBytes + second.discardedBytes, second.rest)
  }

  datatype Verdict = Short | BadHeader | BadCrc | BadDuration | Good(row: Row)

  /** What a buffer that begins with the magic is worth. */
  function Judge(b: seq<u8>): (v: Verdict)
    ensures v.Short? ==> |b| < RECORD_LEN
    ensures v.Good? || v.BadCrc? || v.BadDuration? ==> |b| >= RECORD_LEN
    ensures !v.Short? ==> |b| >= HEADER_LEN
  {
    if |b| < HEADER_LEN then Short
    else if !HeaderFits(b) then BadHeader
    else if |b| < RECORD_LEN then Short
    else if !CrcFits(b[..RECORD_LEN]) then BadCrc
    else
      match DecodeRecord(b[..RECORD_LEN])
      case None => BadDuration
      case Some(row) => Good(row)
  }

  function Nothing(b: seq<u8>): Drained { Drained([], 0, 0, 0, b) }

  function Drain(b: seq<u8>): Drained
    decreases |b|
  {
    match Find(b)
    case None => if |b| > 1 then Discarding(|b| - 1, Nothing(b[|b| - 1..])) else Nothing(b)
    case Some(start) => Discarding(start, DrainHere(b[start..]))
  }

  /** The buffer begins with the magic. */
  function DrainHere(b: seq<u8>): Drained
    decreases |b|, 0
  {
    match Judge(b)
    case Short => Nothing(b)
    case BadHeader => var d := Drain(b[1..]); Discarding(1, d.(invalidRecords := 1 + d.invalidRecords))
    case BadCrc => var d := Drain(b[1..]); Discarding(1, d.(crcErrors := 1 + d.crcErrors))
    case BadDuration => var d := Drain(b[1..]); Discarding(1, d.(invalidRecords := 1 + d.invalidRecords))
    case Good(row) => WithRow(row, Drain(b[RECORD_LEN..]))
  }

  // ----- what draining keeps -------------------------------------------------------------

  /** No byte is lost or counted twice, and what is kept is less than a record. */
  lemma DrainAccounts(b: seq<u8>)
    ensures var d := Drain(b);
      |b| == d.discardedBytes + RECORD_LEN * |d.rows| + |d.rest| && |d.rest| < RECORD_LEN
    decreases |b|, 1
  {
    hide Judge;
    match Find(b)
    case None =>
    case Some(start) => DrainHereAccounts(b[start..]);
  }

  lemma DrainHereAccounts(b: seq<u8>)
    ensures var d := DrainHere(b);
      |b| == d.discardedBytes + RECORD_LEN * |d.rows| + |d.rest| && |d.rest| < RECORD_LEN
    decreases |b|, 0
  {
    hide Judge, Drain;
    match Judge(b)
    case Short =>
    case BadHeader => DrainAccounts(b[1..]);
    case BadCrc => DrainAccounts(b[1..]);
    case BadDuration => DrainAccounts(b[1..]);
    case Good(_) => DrainAccounts(b[RECORD_LEN..]);
  }

  /** What is kept is the end of the buffer. */
  lemma {:induction false} DrainKeepsSuffix(b: seq<u8>)
    ensures var rest := Drain(b).rest; |rest| <= |b| && rest == b[|b| - |rest|..]
    decreases |b|
  {
    hide Judge;
    if Find(b).Some? {
      var here := b[Find(b).value..];
      match Judge(here)
      case Short =>
      case BadHeader => DrainKeepsSuffix(here[1..]);
      case BadCrc => DrainKeepsSuffix(here[1..]);
      case BadDuration => DrainKeepsSuffix(here[1..]);
      case Good(_) => DrainKeepsSuffix(here[RECORD_LEN..]);
    }
  }

  lemma ShiftedMagic(b: seq<u8>, n: nat)
    requires n <= |b|
    ensures forall i: nat :: MagicAt(b[n..], i) <==> MagicAt(b, n + i)
  {}

  /** Bytes in which no record starts can be thrown away first. */
  lemma {:induction false} DrainSkips(b: seq<u8>, n: nat)
    requires n < |b| && forall i | 0 <= i < n :: !MagicAt(b, i)
    ensures Drain(b) == Discarding(n, Drain(b[n..]))
  {
    hide DrainHere;
    ShiftedMagic(b, n);
    match Find(b)
    case None =>
      assert Find(b[n..]).None?;
      assert b[n..][|b| - n - 1..] == b[|b| - 1..];
    case Some(start) =>
      FindIs(b[n..], start - n);
      assert b[n..][start - n..] == b[start..];
  }

  lemma JudgeGrows(a: seq<u8>, more: seq<u8>)
    requires !Judge(a).Short?
    ensures Judge(a + more) == Judge(a)
  {
    hide CrcFits, DecodeRecord, FromLe;
    assert (a + more)[4..6] == a[4..6];
    if |a| >= RECORD_LEN { assert (a + more)[..RECORD_LEN] == a[..RECORD_LEN]; }
  }

  /** Draining in two pieces is draining at once. */
  lemma {:induction false} DrainSplit(a: seq<u8>, more: seq<u8>)
    ensures Drain(a + more) == Then(Drain(a), Drain(Drain(a).rest + more))
    decreases |a|, 1
  {
    hide Judge, DrainHere, MagicAt;
    FindGrows(a, more);
    match Find(a)
    case None => if |a| > 1 { DrainSkips(a + more, |a| - 1); }
    case Some(start) => DrainHereSplit(a[start..], more);
  }

  /** More bytes behind a buffer do not move its first magic, nor make one before its last byte. */
  lemma FindGrows(a: seq<u8>, more: seq<u8>)
    ensures match Find(a)
      case None => |a| > 1 ==> (a + more)[|a| - 1..] == a[|a| - 1..] + more && forall i | 0 <= i < |a| - 1 :: !MagicAt(a + more, i)
      case Some(start) => Find(a + more) == Some(start) && (a + more)[start..] == a[start..] + more && MagicAt(a[start..], 0)
  {
    var c := a + more;
    match Find(a)
    case None => assert forall i | 0 <= i < |a| - 1 :: MagicAt(c, i) <==> MagicAt(a, i);
    case Some(start) =>
      assert forall i | 0 <= i <= start :: MagicAt(c, i) <==> MagicAt(a, i);
      FindIs(c, start);
      ShiftedMagic(a, start);
      assert MagicAt(a[start..], 0) <==> MagicAt(a, start + 0);
  }

  lemma DrainHereSplit(a: seq<u8>, more: seq<u8>)
    requires MagicAt(a, 0)
    ensures DrainHere(a + more) == Then(DrainHere(a), Drain(DrainHere(a).rest + more))
    decreases |a|, 0
  {
    hide Judge, Drain;
    if Judge(a).Short? {
      StartsHere(a + more);
    } else {
      JudgeGrows(a, more);
      var used := if Judge(a).Good? then RECORD_LEN else 1;
      assert (a + more)[used..] == a[used..] + more;
      DrainSplit(a[used..], more);
    }
  }

  lemma StartsHere(b: seq<u8>)
    requires MagicAt(b, 0)
    ensures Drain(b) == DrainHere(b)
  {
    hide DrainHere;
    FindIs(b, 0);
    assert b[0..] == b;
  }

  lemma DrainedStays(b: seq<u8>)
    ensures Drain(Drain(b).rest) == Nothing(Drain(b).rest)
  {
    hide Drain;
    DrainSplit(b, []);
    assert b + [] == b && Drain(b).rest + [] == Drain(b).rest;
    var again := Drain(Drain(b).rest);
    assert Drain(b).rows + again.rows == Drain(b).rows;
    assert |again.rows| == 0;
  }

  // ----- the observing decoder ----------------------------------------------------------------

  class StreamDecoder {
    var buffer: seq<u8>
    var crcErrors: nat
    var invalidRecords: nat
    var discardedBytes: nat

    constructor ()
      ensures buffer == [] && crcErrors == invalidRecords == discardedBytes == 0
    {
      buffer, crcErrors, invalidRecords, discardedBytes := [], 0, 0, 0;
    }

    /** These rows and counters, and what is still to come. */
    ghost function Outcome(rows: seq<Row>, rest: Drained): Drained
      reads this
    {
      Then(Drained(rows, crcErrors, invalidRecords, discardedBytes, []), rest)
    }

    /** Drops what precedes the first record start, or all but the last byte when there is none. */
    method SeekMagic() returns (found: bool)
      modifies this`buffer, this`discardedBytes
      ensures var start := Find(old(buffer));
        var dropped := if start.Some? then start.value else if |old(buffer)| > 1 then |old(buffer)| - 1 else 0;
        && found == start.Some? && dropped <= |old(buffer)| && buffer == old(buffer)[dropped..]
        && discardedBytes == old(discardedBytes) + dropped
    {
      hide MagicAt;
      match Find(buffer)
      case None =>
        if |buffer| > 1 {
          discardedBytes := discardedBytes + (|buffer| - 1);
          buffer := buffer[|buffer| - 1..];
        }
        found := false;
      case Some(start) =>
        discardedBytes := discardedBytes + start;
        buffer := buffer[start..];
        found := true;
    }

    /** Counts a rejected candidate and drops its first byte. */
    method Reject(invalid: bool)
      requires |buffer| > 0
      modifies this
      ensures buffer == old(buffer[1..]) && discardedBytes == old(discardedBytes) + 1
      ensures invalidRecords == old(invalidRecords) + (if invalid then 1 else 0)
      ensures crcErrors == old(crcErrors) + (if invalid then 0 else 1)
    {
      if invalid { invalidRecords := invalidRecords + 1; } else { crcErrors := crcErrors + 1; }
      discardedBytes := discardedBytes + 1;
      buffer := buffer[1..];
    }

    method Feed(data: seq<u8>) returns (rows: seq<Row>)
      modifies this
      ensures var d := Drain(old(buffer) + data);
        && rows == d.rows && buffer == d.rest && crcErrors == old(crcErrors) + d.crcErrors
        && invalidRecords == old(invalidRecords) + d.invalidRecords
        && discardedBytes == old(discardedBytes) + d.discardedBytes
    {
      hide Drain, DrainHere, Judge, MagicAt;
      rows := [];
      buffer := buffer + data;
      ghost var outcome := Outcome([], Drain(buffer));
      while true
        invariant Outcome(rows, Drain(buffer)) == outcome
        decreases |buffer|
      {
        DrainUnfolds(buffer);
        var found := SeekMagic();
        if !found {
          assert rows + [] == rows && [] + outcome.rows == outcome.rows;
          return;
        }
        DrainHereUnfolds(buffer);
        match Judge(buffer)
        case Short =>
          assert rows + [] == rows && [] + outcome.rows == outcome.rows;
          return;
        case BadHeader => Reject(true);
        case BadCrc => Reject(false);
        case BadDuration => Reject(true);
        case Good(row) =>
          rows := rows + [row];
          buffer := buffer[RECORD_LEN..];
      }
    }
  }

  lemma DrainUnfolds(b: seq<u8>)
    ensures Drain(b) == match Find(b)
      case None => if |b| > 1 then Discarding(|b| - 1, Nothing(b[|b| - 1..])) else Nothing(b)
      case Some(start) => Discarding(start, DrainHere(b[start..]))
  {}

  lemma {:induction false} DrainHereUnfolds(b: seq<u8>)
    ensures DrainHere(b) == match Judge(b)
      case Short => Nothing(b)
      case BadHeader => var d := Drain(b[1..]); Discarding(1, d.(invalidRecords := 1 + d.invalidRecords))
      case BadCrc => var d := Drain(b[1..]); Discarding(1, d.(crcErrors := 1 + d.crcErrors))
      case BadDuration => var d := Drain(b[1..]); Discarding(1, d.(invalidRecords := 1 + d.invalidRecords))
      case Good(row) => WithRow(row, Drain(b[RECORD_LEN..]))
  {}

  /** Feeding chunk by chunk from an empty decoder. */
  function FedBy(chunks: seq<seq<u8>>): Drained {
    if |chunks| == 0 then Nothing([])
    else
      var before := FedBy(chunks[..|chunks| - 1]);
      Then(before, Drain(before.rest + chunks[|chunks| - 1]))
  }

  function Joined(chunks: seq<seq<u8>>): seq<u8> {
    if |chunks| == 0 then [] else Joined(chunks[..|chunks| - 1]) + chunks[|chunks| - 1]
  }

  /** However the stream is cut, rows, counters and buffer are those of the whole. */
  lemma {:induction false} ChunksDoNotMatter(chunks: seq<seq<u8>>)
    ensures FedBy(chunks) == Drain(Joined(chunks))
  {
    if |chunks| > 0 {
      ChunksDoNotMatter(chunks[..|chunks| - 1]);
      hide Drain;
      DrainSplit(Joined(chunks[..|chunks| - 1]), chunks[|chunks| - 1]);
    }
  }

  /** Every byte fed is discarded, part of a row, or retained. */
  lemma FedBytesAccounted(chunks: seq<seq<u8>>)
    ensures var d := FedBy(chunks);
      |Joined(chunks)| == d.discardedBytes + RECORD_LEN * |d.rows| + |d.rest| && |d.rest| < RECORD_LEN
  {
    hide Drain, FedBy, Joined;
    ChunksDoNotMatter(chunks);
    DrainAccounts(Joined(chunks));
  }

  // ----- the offline reader ----------------------------------------------------------------------

  /** Drops up to the first record start, yields a record or drops a byte, until it needs more. */
  method DrainRows(buffer: seq<u8>) returns (rows: seq<Row>, rest: seq<u8>)
    ensures rows == Drain(buffer).rows && rest == Drain(buffer).rest
  {
    hide Drain, DrainHere, CrcFits, RowFields;
    rows, rest := [], buffer;
    while true
      invariant Drain(buffer).rows == rows + Drain(rest).rows && Drain(buffer).rest == Drain(rest).rest
      decreases |rest|
    {
      DrainUnfolds(rest);
      match Find(rest)
      case None =>
        if |rest| > 1 { rest := rest[|rest| - 1..]; }
        return;
      case Some(start) =>
        rest := rest[start..];
      DrainHereUnfolds(rest);
      if |rest| < HEADER_LEN { return; }
      if !HeaderFits(rest) { rest := rest[1..]; continue; }
      if |rest| < RECORD_LEN { return; }
      match DecodeRecord(rest[..RECORD_LEN])
      case Some(row) =>
        rows := rows + [row];
        rest := rest[RECORD_LEN..];
      case None =>
        rest := rest[1..];
    }
  }

  /** Reads a stream chunk by chunk; at the end the buffer is drained once more. */
  method Records(chunks: seq<seq<u8>>) returns (rows: seq<Row>)
    ensures rows == Drain(Joined(chunks)).rows
  {
    hide Drain;
    var buffer: seq<u8> := [];
    rows := [];
    DrainUnfolds([]);
    for i := 0 to |chunks|
      invariant rows == Drain(Joined(chunks[..i])).rows && buffer == Drain(Joined(chunks[..i])).rest
    {
      assert chunks[..i + 1][..i] == chunks[..i];
      DrainSplit(Joined(chunks[..i]), chunks[i]);
      var more, rest := DrainRows(buffer + chunks[i]);
      rows, buffer := rows + more, rest;
    }
    assert chunks[..|chunks|] == chunks;
    if |buffer| > 0 {
      DrainedStays(Joined(chunks));
      var more, _ := DrainRows(buffer);
      rows := rows + more;
    }
  }

  // ----- agreement with the recorder -------------------------------------------------------------

  /** A row's unbounded timestamp as the recorder's evidence. */
  function AsEvidence(t: Option<int>): Evidence {
    match t
    case None => Unknown
    case Some(at) => if 0 <= at <= U64_MAX then Known(at) else Unknown
  }

  function AsRecorded(row: Row): Recorded
    requires row.completedAt <= U64_MAX && row.completedAt >= 0
  {
    Recorded(row.sequence, row.startedAt, row.completedAt,
             Imu(AsEvidence(row.sampleAt), AsEvidence(row.readStartedAt), AsEvidence(row.readCompletedAt),
                 row.accel, row.temperature, row.gyro, row.imuQuality),
             Encoder(AsEvidence(row.encoder1At), row.encoder1Count, row.encoder1Quality),
             Encoder(AsEvidence(row.encoder2At), row.encoder2Count, row.encoder2Quality),
             Battery(AsEvidence(row.batteryAt), row.batteryAdc, row.batteryQuality), row.status, row.dropped)
  }

  /** The two decoders accept the same bytes but for a completion time past 64
      bits, and then read the same record. */
  lemma DecodersAgree(b: ObservationRecord.Record)
    ensures Decode(b).Ok? <==> DecodeRecord(b).Some? && DecodeRecord(b).value.completedAt <= U64_MAX
    ensures Decode(b).Ok? ==> Decode(b).value == AsRecorded(DecodeRecord(b).value)
  {
    hide Crc16.Crc, FromLe, U32At, U64At, AsI16, AsI32, FromLe;
  }

  function EncodedAll(records: seq<Recorded>): seq<u8> {
    if |records| == 0 then [] else Encoded(records[0]) + EncodedAll(records[1..])
  }

  function RowsOf(records: seq<Recorded>): seq<Row> {
    seq(|records|, i requires 0 <= i < |records| => RowFields(Encoded(records[i])))
  }

  /** The row read back is the record with its inexpressible timestamps unknown. */
  lemma RowOfEncoded(r: Recorded)
    requires DurationFits(r)
    ensures var row := RowFields(Encoded(r));
      && Judge(Encoded(r)) == Good(row) && MagicAt(Encoded(r), 0)
      && row.completedAt <= U64_MAX && AsRecorded(row) == Expressible(r)
  {
    hide Encoded, Validated, Expressible, RowFields, CrcFits;
    var b := Encoded(r);
    EncodedValidates(r);
    ValidatedMagic(b);
    DecodeEncoded(r);
    DecodersAgree(b);
    assert b[..RECORD_LEN] == b;
  }

  lemma ValidatedMagic(b: ObservationRecord.Record)
    requires Validated(b).None?
    ensures MagicAt(b, 0)
  {
    hide Crc16.Crc;
  }

  /** Records sent back to back all decode and no byte is discarded. */
  lemma {:induction false} BackToBack(records: seq<Recorded>)
    requires forall i | 0 <= i < |records| :: DurationFits(records[i])
    ensures Drain(EncodedAll(records)) == Drained(RowsOf(records), 0, 0, 0, [])
  {
    hide Drain, DrainHere, Judge, RowFields, Encoded;
    if |records| == 0 {
      DrainUnfolds([]);
    } else {
      BackToBack(records[1..]);
      RowOfEncoded(records[0]);
      var first: seq<u8>, rest: seq<u8> := Encoded(records[0]), EncodedAll(records[1..]);
      JudgeGrows(first, rest);
      DrainHereUnfolds(first + rest);
      StartsHere(first + rest);
      assert (first + rest)[RECORD_LEN..] == rest;
      assert RowsOf(records) == [RowFields(first)] + RowsOf(records[1..]);
    }
  }

  // ----- which fault is counted as what -----------------------------------------------------------

  /** The verdict on a buffer of one record is the recorder's own: a header fault for version, kind or length, a
      check fault for the check and nothing else; a duration fault is one of timing, and so is the only refusal
      of a row that was good here, a completion time past 64 bits. */
  lemma JudgedAsDecoded(b: ObservationRecord.Record)
    requires MagicAt(b, 0)
    ensures var v, d := Judge(b), Decode(b);
      && (v.BadHeader? <==> d in {Err(Version), Err(Kind), Err(PayloadLength)})
      && (v.BadCrc? <==> d == Err(DecodeError.Crc))
      && (v.BadDuration? <==> d == Err(Timing) && U32At(b, 18) == 0xFFFF_FFFF)
      && (v.Good? <==> d.Ok? || (d == Err(Timing) && U32At(b, 18) != 0xFFFF_FFFF))
      && (v.Good? && d == Err(Timing) ==> v.row.completedAt > U64_MAX)
      && (d.Ok? ==> v.row.completedAt <= U64_MAX && AsRecorded(v.row) == d.value)
  {
    DecodersAgree(b);
    assert b[..RECORD_LEN] == b;
    hide Crc16.Crc, FromLe, U32At, U64At, AsI16, AsI32, AsRecorded, DecodeFields;
  }

  /** What the counters show of one accepted record with one byte of it changed: nothing behind the magic goes
      unnoticed, a header byte counts as an invalid record and any later one as a check error. */
  lemma {:induction false} CorruptionIsCounted(b: ObservationRecord.Record, i: nat, value: u8, more: seq<u8>)
    requires 2 <= i < RECORD_LEN && Decode(b).Ok? && value != b[i]
    ensures var d := Drain(b[i := value] + more);
      if i < HEADER_LEN then d.invalidRecords >= 1 else d.crcErrors >= 1
  {
    var c: ObservationRecord.Record := b[i := value];
    OneByteRejected(b, i, value);
    ValidatedMagic(b);
    assert MagicAt(c, 0);
    JudgedAsDecoded(c);
    var stream: seq<u8> := c;
    JudgeGrows(stream, more);
    DrainHereUnfolds(stream + more);
    StartsHere(stream + more);
    hide Judge, Drain, DrainHere, Decode, MagicAt;
  }

  lemma RecordFirst(r: Recorded, more: seq<u8>)
    requires DurationFits(r)
    ensures Drain(Encoded(r) + more) == WithRow(RowFields(Encoded(r)), Drain(more)) && MagicAt(Encoded(r) + more, 0)
  {
    RowOfEncoded(r);
    hide Drain, DrainHere, Judge, RowFields, Encoded;
    var first: seq<u8> := Encoded(r);
    JudgeGrows(first, more);
    DrainHereUnfolds(first + more);
    StartsHere(first + more);
    assert (first + more)[RECORD_LEN..] == more;
  }

  /** What a false start costs: one counter. */
  function FalseStart(v: Verdict, n: nat, d: Drained): Drained {
    Drained(d.rows, d.crcErrors + (if v.BadCrc? then 1 else 0), d.invalidRecords + (if v.BadCrc? then 0 else 1), d.discardedBytes + n, d.rest)
  }

  /** A record is not lost to a false start before it, even one that runs into it: only the bytes ahead of the
      record are thrown away, and one error is counted. */
  lemma {:induction false} RecordBehindFalseStart(junk: seq<u8>, r: Recorded, more: seq<u8>)
    requires DurationFits(r) && MagicAt(junk, 0) && forall i | 0 < i < |junk| :: !MagicAt(junk + Encoded(r), i)
    requires !Judge(junk + Encoded(r)).Short? && !Judge(junk + Encoded(r)).Good?
    ensures Drain(junk + Encoded(r) + more)
         == FalseStart(Judge(junk + Encoded(r)), |junk|, WithRow(RowFields(Encoded(r)), Drain(more)))
  {
    hide Drain, DrainHere, Judge, RowFields, Encoded;
    var record: seq<u8> := Encoded(r);
    var stream := junk + record + more;
    JudgeGrows(junk + record, more);
    assert MagicAt(stream, 0);
    StartsHere(stream);
    DrainHereUnfolds(stream);
    RecordFirst(r, more);
    assert stream[1..] == junk[1..] + (record + more) && stream[1..][|junk| - 1..] == record + more;
    ShiftedMagic(stream, 1);
    assert forall i | 0 < i < |junk| :: MagicAt(stream, i) <==> MagicAt(junk + record, i);
    DrainSkips(stream[1..], |junk| - 1);
  }

  /** The four header bytes behind the magic. */
  predicate HeaderBytes(b: seq<u8>) {
    |b| >= 6 && b[2] == 1 && b[3] == 1 && b[4] == 72 && b[5] == 0
  }

  lemma HeaderIsBytes(b: seq<u8>)
    requires |b| >= HEADER_LEN
    ensures HeaderFits(b) <==> HeaderBytes(b)
  {
    LeOf72();
    LeInverse(b[4..6]);
    assert FromLe([72, 0]) == 72 by { Bounds(); LeRoundTrip(2, 72); }
    hide FromLe, Le;
    assert b[4..6] == [b[4], b[5]];
  }

  /** A candidate is waited for exactly as long as it may still be a record: until its header is whole, and with a
      good header until it is. */
  lemma WaitsExactly(b: seq<u8>)
    ensures Judge(b).Short? <==> |b| < 6 || (HeaderBytes(b) && |b| < 80)
  {
    if |b| >= HEADER_LEN { HeaderIsBytes(b); }
    hide HeaderFits, CrcFits, DecodeRecord;
  }

  /** What is kept may still become a record with more bytes behind it, or is one last byte. */
  predicate MayBecomeRecord(rest: seq<u8>) {
    |rest| <= 1 || (MagicAt(rest, 0) && |rest| < 80 && (|rest| < 6 || HeaderBytes(rest)))
  }

  lemma {:induction false} KeptMayBecomeRecord(b: seq<u8>)
    ensures MayBecomeRecord(Drain(b).rest)
    decreases |b|
  {
    hide Judge, HeaderBytes;
    match Find(b)
    case None =>
    case Some(start) =>
      var here := b[start..];
      WaitsExactly(here);
      ShiftedMagic(b, start);
      assert MagicAt(here, 0) <==> MagicAt(b, start + 0);
      match Judge(here)
      case Short =>
      case BadHeader => KeptMayBecomeRecord(here[1..]);
      case BadCrc => KeptMayBecomeRecord(here[1..]);
      case BadDuration => KeptMayBecomeRecord(here[1..]);
      case Good(_) => KeptMayBecomeRecord(here[RECORD_LEN..]);
  }
}
