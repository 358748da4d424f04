/** The bit-banged single-master driver: methods that move the two lines, and
    what a whole transaction leaves on the wire and in the read buffers. */
module SoftwareI2c {
  import opened Wrappers
  import opened MachineInts
  import opened I2cWire
  import opened I2cPlan

  /** One caller operation; a read names the buffer it fills. */
  datatype Operation = Write(bytes: seq<u8>) | Read(buffer: array<u8>)

  function Shapes(operations: seq<Operation>): (r: seq<Transfer>)
    ensures |r| == |operations|
  {
    seq(|operations|, i requires 0 <= i < |operations| =>
      match operations[i] case Write(bytes) => Writing(bytes) case Read(buffer) => Reading(buffer.Length))
  }

  ghost function Buffers(operations: seq<Operation>): set<array<u8>> {
    set i | 0 <= i < |operations| && operations[i].Read? :: operations[i].buffer
  }

  ghost function Target(operation: Operation): set<array<u8>> {
    match operation case Write(_) => {} case Read(buffer) => {buffer}
  }

  /** No two reads share a buffer. */
  ghost predicate DistinctBuffers(operations: seq<Operation>) {
    forall i, j | 0 <= i < j < |operations| && operations[i].Read? && operations[j].Read? ::
      operations[i].buffer != operations[j].buffer
  }

  /** A read's buffer holds exactly the bytes heard in its clock periods. */
  ghost predicate FilledAt(address: SevenBitAddress, operations: seq<Operation>, i: nat, slave: Slave, phase: nat)
    requires i < |operations|
    reads Target(operations[i])
  {
    operations[i].Read? ==> operations[i].buffer[..] == Moved(address, Shapes(operations), slave, phase, i)
  }

  ghost predicate Filled(address: SevenBitAddress, operations: seq<Operation>, n: nat, slave: Slave, phase: nat)
    requires n <= |operations|
    reads Buffers(operations)
  {
    forall i | 0 <= i < n :: FilledAt(address, operations, i, slave, phase)
  }

  /** What the operations hold: the bytes to write, and the bytes in the buffers. */
  ghost predicate Held(operations: seq<Operation>, data: seq<seq<u8>>)
    reads Buffers(operations)
  {
    && |data| == |operations|
    && forall i | 0 <= i < |operations| ::
      match operations[i] case Write(bytes) => data[i] == bytes case Read(buffer) => data[i] == buffer[..]
  }

  lemma HeldIsMoved(address: SevenBitAddress, operations: seq<Operation>, data: seq<seq<u8>>, slave: Slave, phase: nat)
    requires Held(operations, data) && Filled(address, operations, |operations|, slave, phase)
    ensures MovedData(address, Shapes(operations), slave, phase, data)
  {
    forall i | 0 <= i < |operations| ensures data[i] == Moved(address, Shapes(operations), slave, phase, i) {
      assert FilledAt(address, operations, i, slave, phase);
      hide BodyStart, Heard;
    }
  }

  lemma MovedRead(address: SevenBitAddress, transfers: seq<Transfer>, slave: Slave, phase: nat, i: nat)
    requires i < |transfers| && transfers[i].Reading?
    ensures Moved(address, transfers, slave, phase, i)
         == Heard(slave, phase + |Plan(address, transfers, i) + HeaderSlots(address, transfers, i)|, transfers[i].length)
  {
    hide Plan, HeaderSlots;
  }

  class SoftwareI2c {
    const slave: Slave
    const stretchTimeout: nat
    var sdaReleased: bool
    var sclReleased: bool
    /** The clock period the bus is in, and the polls for which the slave still holds SCL low. */
    var phase: nat
    var stretchLeft: nat
    /** Every level the two lines have taken. */
    ghost var wire: seq<Level>

    function SdaHigh(): bool
      reads this
    {
      sdaReleased && slave.releases(phase)
    }

    function SclHigh(): bool
      reads this
    {
      sclReleased && stretchLeft == 0
    }

    ghost predicate Valid()
      reads this
    {
      && |wire| > 0 && Watch(wire).last == Level(SdaHigh(), SclHigh())
      && stretchTimeout > 0 && stretchLeft <= slave.stretch(phase)
    }

    ghost function Symbols(): seq<Symbol>
      reads this
      requires Valid()
    {
      Watch(wire).symbols
    }

    /** Both lines released by the master, nothing moved in the current high period. */
    ghost predicate Idle()
      reads this
    {
      Valid() && sdaReleased && sclReleased
    }

    /** Between two bits: the master holds SCL low, and the slave's stretch is still to come. */
    ghost predicate Clocking()
      reads this
    {
      Valid() && !sclReleased && stretchLeft == slave.stretch(phase)
    }

    constructor (slave: Slave, stretchTimeout: nat)
      ensures Idle() && this.slave == slave && Symbols() == [] && phase == 0 && stretchLeft == slave.stretch(0)
      ensures this.stretchTimeout == if stretchTimeout == 0 then 1 else stretchTimeout
    {
      this.slave := slave;
      this.stretchTimeout := if stretchTimeout == 0 then 1 else stretchTimeout;
      sdaReleased := true;
      sclReleased := true;
      phase := 0;
      stretchLeft := slave.stretch(0);
      wire := [Level(slave.releases(0), slave.stretch(0) == 0)];
    }

    method SetSda(released: bool)
      requires Valid()
      modifies this`sdaReleased, this`wire
      ensures Valid() && sdaReleased == released
      ensures Watch(wire) == Observe(old(Watch(wire)), Level(SdaHigh(), SclHigh()))
    {
      sdaReleased := released;
      WatchNext(wire, Level(SdaHigh(), SclHigh()));
      wire := wire + [Level(SdaHigh(), SclHigh())];
    }

    /** SCL falls; while it is low the slave may move SDA and start to stretch. */
    method DriveSclLow()
      requires Valid() && SclHigh()
      modifies this
      ensures Clocking() && phase == old(phase) + 1 && sdaReleased == old(sdaReleased)
      ensures Symbols() == old(Symbols()) + (if old(Watch(wire)).moved then [] else [Bit(old(SdaHigh()))])
    {
      WatchNext(wire, Level(SdaHigh(), false));
      wire := wire + [Level(SdaHigh(), false)];
      sclReleased := false;
      phase := phase + 1;
      stretchLeft := slave.stretch(phase);
      WatchNext(wire, Level(SdaHigh(), false));
      wire := wire + [Level(SdaHigh(), false)];
    }

    /** Releases SCL and polls it; gives up after the timeout. */
    method ReleaseScl() returns (ok: bool)
      requires Valid()
      modifies this`sclReleased, this`stretchLeft, this`wire
      ensures Valid() && sclReleased
      ensures ok <==> old(stretchLeft) < stretchTimeout
      ensures stretchLeft == if ok then 0 else old(stretchLeft) - stretchTimeout
      ensures ok ==> SclHigh()
      ensures Symbols() == old(Symbols())
      ensures !old(SclHigh()) ==> !Watch(wire).moved || !ok
      ensures old(SclHigh()) ==> Watch(wire).moved == old(Watch(wire)).moved
    {
      ghost var was := Watch(wire);
      sclReleased := true;
      WatchNext(wire, Level(SdaHigh(), SclHigh()));
      wire := wire + [Level(SdaHigh(), SclHigh())];
      for poll := 0 to stretchTimeout
        invariant Valid() && sclReleased && old(stretchLeft) >= poll && stretchLeft == old(stretchLeft) - poll
        invariant Watch(wire).symbols == was.symbols
        invariant !old(SclHigh()) && SclHigh() ==> !Watch(wire).moved
        invariant old(SclHigh()) ==> Watch(wire).moved == was.moved
      {
        if SclHigh() { return true; }
        stretchLeft := stretchLeft - 1;
        WatchNext(wire, Level(SdaHigh(), SclHigh()));
        wire := wire + [Level(SdaHigh(), SclHigh())];
      }
      ok := false;
    }

    /** Since (symbols0, phase0) the wire has carried exactly these clock periods, each in time. */
    ghost predicate Carried(symbols0: seq<Symbol>, phase0: nat, slots: seq<Slot>)
      reads this
    {
      && Valid() && phase == phase0 + |slots| && InTime(slave, stretchTimeout, phase0, |slots|)
      && Symbols() == symbols0 + WireOf(slots, slave, phase0)
    }

    /** The transfers before this one are sent, and their buffers filled. */
    ghost predicate SentBefore(s0: seq<Symbol>, p0: nat, address: SevenBitAddress, operations: seq<Operation>, index: nat)
      requires index <= |operations|
      reads this, Buffers(operations)
    {
      Sent(s0, p0, Plan(address, Shapes(operations), index)) && Filled(address, operations, index, slave, p0)
    }

    /** Every one of these periods was clocked, and every byte in them acknowledged. */
    ghost predicate Sent(s0: seq<Symbol>, p0: nat, slots: seq<Slot>)
      reads this
    {
      Clocking() && Carried(s0, p0, slots) && AllAcknowledged(slots, slave, p0)
    }

    /** The whole plan was carried to its STOP, every byte acknowledged, every buffer filled. */
    ghost predicate Completed(s0: seq<Symbol>, p0: nat, address: SevenBitAddress, operations: seq<Operation>)
      reads this, Buffers(operations)
    {
      var plan := FullPlan(address, Shapes(operations));
      && Idle() && Symbols() == s0 + WireOf(plan, slave, p0) && InTime(slave, stretchTimeout, p0, |plan|)
      && AllAcknowledged(plan, slave, p0) && Filled(address, operations, |operations|, slave, p0)
    }

    /** After STOP was tried in period `at` with `left` polls of stretch to come: it shows, and both lines end
        released, if and only if the stretch ends within the timeout. If SCL is up already and SDA was let go of,
        pulling SDA down for the STOP shows as a START. */
    ghost predicate GaveUp(symbols: seq<Symbol>, at: nat, letGo: bool, left: nat)
      reads this
    {
      var stopped := left < stretchTimeout;
      && Valid() && sclReleased && phase == at && (Idle() <==> stopped)
      && stretchLeft == (if stopped then 0 else left - stretchTimeout)
      && Symbols() == symbols + (if left == 0 && letGo && slave.releases(at) then [StartCondition] else [])
                    + (if stopped then SlotSymbols(Finish, slave.releases(at)) else [])
    }

    /** After a refusal: what was clocked, and one STOP if the slave let go of both lines. */
    ghost predicate Abandoned(s0: seq<Symbol>, p0: nat, slots: seq<Slot>, source: NoAcknowledgeSource)
      reads this
    {
      && RefusedAt(slots, slave, p0, source) && InTime(slave, stretchTimeout, p0, |slots|)
      && GaveUp(s0 + WireOf(slots, slave, p0), p0 + |slots|, false, slave.stretch(p0 + |slots|))
    }

    /** After a period the slave stretched too long, the last of these: what was clocked before it, and what the
        second try at a STOP shows. */
    ghost predicate TimedOut(s0: seq<Symbol>, p0: nat, slots: seq<Slot>)
      reads this
    {
      && |slots| > 0
      && var n := |slots| - 1;
      && AllAcknowledged(slots[..n], slave, p0) && InTime(slave, stretchTimeout, p0, n) && slave.stretch(p0 + n) >= stretchTimeout
      && GaveUp(s0 + WireOf(slots[..n], slave, p0), p0 + n, LetsGo(slots[n]), slave.stretch(p0 + n) - stretchTimeout)
    }

    /** The slave held SDA low before START: nothing was sent. */
    ghost predicate Busy(symbols0: seq<Symbol>, phase0: nat)
      reads this
    {
      Idle() && SclHigh() && !SdaHigh() && Symbols() == symbols0 && phase == phase0
    }

    /** These periods were carried; in the one after them the slave has outlasted the timeout. */
    ghost predicate Stalling(s0: seq<Symbol>, p0: nat, done: seq<Slot>, letGo: bool)
      reads this
    {
      && Carried(s0, p0, done) && sclReleased && sdaReleased == letGo
      && slave.stretch(phase) >= stretchTimeout && stretchLeft == slave.stretch(phase) - stretchTimeout
    }

    /** The slave has outlasted the timeout in the last of these periods; those before it are sent. */
    ghost predicate Stuck(s0: seq<Symbol>, p0: nat, slots: seq<Slot>)
      reads this
    {
      && |slots| > 0
      && var n := |slots| - 1;
      AllAcknowledged(slots[..n], slave, p0) && Stalling(s0, p0, slots[..n], LetsGo(slots[n]))
    }

    lemma StallIsStuck(s0: seq<Symbol>, p0: nat, done: seq<Slot>, slot: Slot)
      requires AllAcknowledged(done, slave, p0) && Stalling(s0, p0, done, LetsGo(slot))
      ensures Stuck(s0, p0, done + [slot])
    {
      assert (done + [slot])[..|done|] == done;
    }

    /** SCL never rose for the START. */
    ghost predicate Unopened(s0: seq<Symbol>, p0: nat, left: nat)
      reads this
    {
      Idle() && Symbols() == s0 && phase == p0 && left >= stretchTimeout && stretchLeft == left - stretchTimeout
    }

    /** What letting go of SDA for a START shows: a STOP, if an earlier STOP was left half made and SCL has risen since. */
    ghost function Stray(): seq<Symbol>
      reads this
    {
      if SclHigh() && !sdaReleased && slave.releases(phase) then [StopCondition] else []
    }

    /** The symbols up to a START made now. */
    ghost function Opened(): seq<Symbol>
      reads this
      requires Valid()
    {
      Symbols() + Stray() + [StartCondition]
    }

    /** The last of these periods is an acknowledge that read high, all earlier ones read low. */
    ghost predicate Refused(symbols0: seq<Symbol>, phase0: nat, slots: seq<Slot>, source: NoAcknowledgeSource)
      reads this
    {
      && Clocking() && Carried(symbols0, phase0, slots) && RefusedAt(slots, slave, phase0, source)
    }

    /** How sending ends early. */
    ghost predicate Ended(s0: seq<Symbol>, p0: nat, slots: seq<Slot>, e: Error)
      reads this
    {
      match e
      case NoAcknowledge(source) => Refused(s0, p0, slots, source)
      case ClockStretchTimeout => Stuck(s0, p0, slots)
      case BusBusy => false
    }

    /** START, from any state in which SCL is released: SDA may still be held by an unfinished STOP. */
    method Begin() returns (r: Result<(), Error>)
      requires Valid() && sclReleased
      modifies this
      ensures var left, up, s0, p0 := old(stretchLeft), old(slave.releases(phase)), old(Symbols()), old(phase);
        match r
        case Ok(_) => left < stretchTimeout && up && Clocking() && phase == p0 + 1 && Symbols() == old(Opened())
        case Err(BusBusy) => left < stretchTimeout && !up && Busy(s0, p0)
        case Err(ClockStretchTimeout) => Unopened(s0, p0, left)
        case Err(NoAcknowledge(_)) => false
    {
      SetSda(true);
      var ok := ReleaseScl();
      if !ok { return Err(ClockStretchTimeout); }
      if !SdaHigh() { return Err(BusBusy); }
      SetSda(false);
      DriveSclLow();
      r := Ok(());
    }

    method RepeatedStart(ghost s0: seq<Symbol>, ghost p0: nat, ghost done: seq<Slot>) returns (ok: bool)
      requires Clocking() && Carried(s0, p0, done)
      modifies this
      ensures ok ==> Clocking() && Carried(s0, p0, done + [Again])
      ensures !ok ==> Stalling(s0, p0, done, true)
    {
      WireOfNext(done, Again, slave, p0);
      hide Watch, WireOf, InTime;
      SetSda(true);
      ok := ReleaseScl();
      if !ok { return false; }
      InTimeNext(slave, stretchTimeout, p0, |done|);
      SetSda(false);
      DriveSclLow();
    }

    /** STOP: the line rises only if the slave lets it. Both lines end released if and only if the stretch ends
        within the timeout; otherwise SDA stays driven low. */
    method End() returns (ok: bool)
      requires Valid()
      modifies this
      ensures ok <==> old(stretchLeft) < stretchTimeout
      ensures phase == old(phase) && Valid() && sclReleased && sdaReleased == ok && (ok ==> SclHigh())
      ensures stretchLeft == if ok then 0 else old(stretchLeft) - stretchTimeout
      ensures Symbols() == old(Symbols()) + (if old(SclHigh() && SdaHigh()) then [StartCondition] else [])
                         + (if ok then SlotSymbols(Finish, slave.releases(phase)) else [])
    {
      SetSda(false);
      ok := ReleaseScl();
      if !ok { return false; }
      SetSda(true);
    }

    method WriteBit(high: bool, ghost s0: seq<Symbol>, ghost p0: nat, ghost done: seq<Slot>) returns (ok: bool)
      requires Clocking() && Carried(s0, p0, done)
      modifies this
      ensures ok ==> Clocking() && Carried(s0, p0, done + [Drive(high)])
      ensures !ok ==> Stalling(s0, p0, done, high)
    {
      WireOfNext(done, Drive(high), slave, p0);
      hide Watch, WireOf, InTime;
      if high { SetSda(true); } else { SetSda(false); }
      ok := ReleaseScl();
      if !ok { return false; }
      InTimeNext(slave, stretchTimeout, p0, |done|);
      DriveSclLow();
    }

    method ReadBit(ghost slot: Slot, ghost s0: seq<Symbol>, ghost p0: nat, ghost done: seq<Slot>)
      returns (r: Option<bool>)
      requires Clocking() && Carried(s0, p0, done) && (slot.Listen? || slot.Acknowledge?)
      modifies this
      ensures r.Some? ==> Clocking() && Carried(s0, p0, done + [slot]) && r.value == slave.releases(old(phase)) && phase == old(phase) + 1
      ensures r.None? ==> Stalling(s0, p0, done, true)
    {
      WireOfNext(done, slot, slave, p0);
      hide Watch, WireOf, InTime;
      SetSda(true);
      var ok := ReleaseScl();
      if !ok { return None; }
      InTimeNext(slave, stretchTimeout, p0, |done|);
      var high := SdaHigh();
      DriveSclLow();
      r := Some(high);
    }

    /** Shifts the byte out of the top of an eight-bit register; yields whether it was acknowledged. `part` counts
        the periods up to one the slave stalled in. */
    method WriteByte(byte: u8, ghost source: NoAcknowledgeSource, ghost s0: seq<Symbol>, ghost p0: nat, ghost done: seq<Slot>)
      returns (r: Option<bool>, ghost part: nat)
      requires Sent(s0, p0, done)
      modifies this
      ensures r.Some? ==> Clocking() && Carried(s0, p0, done + WriteSlots(byte, source))
      ensures r.Some? ==> r.value == !slave.releases(p0 + |done| + 8)
      ensures r.None? ==> part <= 9 && Stuck(s0, p0, done + WriteSlots(byte, source)[..part])
    {
      hide Watch, WireOf, InTime, AllAcknowledged, Stalling;
      var shifted: u8 := byte;
      ghost var word := WriteSlots(byte, source);
      WordSlots(byte, source);
      hide WriteSlots;
      assert done + word[..0] == done;
      for bit := 0 to 8
        invariant Clocking() && Carried(s0, p0, done + word[..bit])
        invariant shifted == Shifted(byte, bit)
      {
        assert done + word[..bit] + [word[bit]] == done + word[..bit + 1];
        var ok := WriteBit(shifted >= 128, s0, p0, done + word[..bit]);
        if !ok {
          AcknowledgedPart(done, word, bit, slave, p0);
          StallIsStuck(s0, p0, done + word[..bit], word[bit]);
          return None, bit + 1;
        }
        shifted := ShiftOut(shifted);
      }
      assert done + word[..8] + [word[8]] == done + word[..9] && word[..9] == word;
      var high := ReadBit(Acknowledge(source), s0, p0, done + word[..8]);
      if high.None? {
        AcknowledgedPart(done, word, 8, slave, p0);
        StallIsStuck(s0, p0, done + word[..8], word[8]);
        return None, 9;
      }
      return Some(!high.value), 9;
    }

    /** Shifts one more heard bit in from the right. */
    method HearBit(byte: u8, ghost bit: nat, ghost s0: seq<Symbol>, ghost p0: nat, ghost done: seq<Slot>) returns (r: Option<u8>)
      requires bit < 8 && AllAcknowledged(done, slave, p0) && Clocking() && Carried(s0, p0, done + Ears(bit))
      requires byte == FromBits(BitsHeard(slave, p0 + |done|, bit))
      modifies this
      ensures r.Some? ==> Clocking() && Carried(s0, p0, done + Ears(bit + 1))
      ensures r.Some? ==> r.value == FromBits(BitsHeard(slave, p0 + |done|, bit + 1))
      ensures r.None? ==> Stuck(s0, p0, done + Ears(bit + 1))
    {
      hide *;
      EarsNext(done, bit, slave, p0);
      HeardNext(slave, p0 + |done|, bit, byte);
      CarriedTo(s0, p0, done + Ears(bit));
      var high := ReadBit(Listen, s0, p0, done + Ears(bit));
      if high.None? {
        StallIsStuck(s0, p0, done + Ears(bit), Listen);
        return None;
      }
      r := Some(2 * byte + if high.value then 1 else 0);
    }

    lemma CarriedTo(s0: seq<Symbol>, p0: nat, slots: seq<Slot>)
      requires Carried(s0, p0, slots)
      ensures phase == p0 + |slots|
    {
      hide WireOf, Watch, InTime;
    }

    /** Shifts eight heard bits in from the right. */
    method ReadBits(ghost s0: seq<Symbol>, ghost p0: nat, ghost done: seq<Slot>) returns (r: Option<u8>, ghost part: nat)
      requires Sent(s0, p0, done)
      modifies this
      ensures r.Some? ==> Clocking() && Carried(s0, p0, done + Ears(8))
      ensures r.Some? ==> r.value == ByteHeard(slave, p0 + |done|)
      ensures r.None? ==> part <= 8 && Stuck(s0, p0, done + Ears(part))
    {
      var byte: u8 := 0;
      assert FromBits([]) == 0;
      hide FromBits, WireOf, Watch, InTime, AllAcknowledged, Stuck, Carried, Clocking;
      assert done + Ears(0) == done && BitsHeard(slave, p0 + |done|, 0) == [];
      for bit := 0 to 8
        invariant Clocking() && Carried(s0, p0, done + Ears(bit))
        invariant byte == FromBits(BitsHeard(slave, p0 + |done|, bit))
      {
        var next := HearBit(byte, bit, s0, p0, done);
        if next.None? { return None, bit + 1; }
        byte := next.value;
      }
      assert BitsHeard(slave, p0 + |done|, 8) == seq(8, i requires 0 <= i < 8 => slave.releases(p0 + |done| + i));
      return Some(byte), 8;
    }

    /** Reads a byte, then acknowledges it or not, and lets go of SDA. */
    method ReadByte(acknowledge: bool, ghost s0: seq<Symbol>, ghost p0: nat, ghost done: seq<Slot>)
      returns (r: Option<u8>, ghost part: nat)
      requires Sent(s0, p0, done)
      modifies this
      ensures r.Some? ==> Sent(s0, p0, done + ReadSlots(acknowledge))
      ensures r.Some? ==> r.value == ByteHeard(slave, p0 + |done|)
      ensures r.None? ==> part <= 9 && Stuck(s0, p0, done + ReadSlots(acknowledge)[..part])
    {
      hide WireOf, Watch, ByteHeard, InTime, AllAcknowledged, Stalling, Stuck;
      ghost var ears, slots := Ears(8), ReadSlots(acknowledge);
      r, part := ReadBits(s0, p0, done);
      if r.None? {
        assert slots[..part] == Ears(part);
        return;
      }
      part := 9;
      var ok := WriteBit(!acknowledge, s0, p0, done + ears);
      assert done + ears + [Drive(!acknowledge)] == done + slots;
      if !ok {
        AcknowledgedPart(done, ears, 8, slave, p0);
        assert ears[..8] == ears && slots[..9] == slots;
        StallIsStuck(s0, p0, done + ears, Drive(!acknowledge));
        return None, 9;
      }
      AcknowledgedRead(done, acknowledge, slave, p0);
      SetSda(true);
    }

    method SendAddress(address: SevenBitAddress, read: bool, ghost s0: seq<Symbol>, ghost p0: nat, ghost done: seq<Slot>)
      returns (r: Result<(), Error>, ghost executed: seq<Slot>)
      requires Sent(s0, p0, done)
      modifies this
      ensures var slots := done + WriteSlots(AddressByte(address, read), Address);
        && executed <= slots
        && (match r
            case Ok(_) => executed == slots && Sent(s0, p0, slots)
            case Err(e) => e != NoAcknowledge(Data) && Ended(s0, p0, executed, e))
    {
      hide Watch, WireOf, InTime, AllAcknowledged, RefusedAt, WriteSlots, Stuck;
      ghost var word := WriteSlots(AddressByte(address, read), Address);
      AcknowledgedByte(done, AddressByte(address, read), Address, slave, p0);
      var acknowledged, part := WriteByte(AddressByte(address, read), Address, s0, p0, done);
      if acknowledged.None? {
        PartOfPlan(done, word, part, done + word);
        return Err(ClockStretchTimeout), done + word[..part];
      }
      if !acknowledged.value { return Err(NoAcknowledge(Address)), done + word; }
      return Ok(()), done + word;
    }

    /** Writes up to the first byte the slave refuses, or the first period it stalls in. */
    method WriteData(bytes: seq<u8>, ghost s0: seq<Symbol>, ghost p0: nat, ghost done: seq<Slot>)
      returns (r: Result<(), Error>, ghost part: seq<Slot>)
      requires Sent(s0, p0, done)
      modifies this
      ensures part <= WriteDataSlots(bytes)
      ensures match r
        case Ok(_) => part == WriteDataSlots(bytes) && Sent(s0, p0, done + part)
        case Err(e) => e != NoAcknowledge(Address) && Ended(s0, p0, done + part, e)
    {
      hide Watch, WireOf, InTime, AllAcknowledged, RefusedAt, WriteSlots, Stuck;
      assert done + WriteDataSlots(bytes[..0]) == done;
      for index := 0 to |bytes|
        invariant Sent(s0, p0, done + WriteDataSlots(bytes[..index]))
      {
        ghost var before, word := WriteDataSlots(bytes[..index]), WriteSlots(bytes[index], Data);
        assert bytes[..index + 1][..index] == bytes[..index];
        assert WriteDataSlots(bytes[..index + 1]) == before + word;
        WriteDataPrefix(bytes, index + 1);
        assert done + before + word == done + (before + word);
        AcknowledgedByte(done + before, bytes[index], Data, slave, p0);
        var acknowledged, stalled := WriteByte(bytes[index], Data, s0, p0, done + before);
        if acknowledged.None? {
          assert done + before + word[..stalled] == done + (before + word[..stalled]);
          PartOfPlan(before, word, stalled, WriteDataSlots(bytes));
          return Err(ClockStretchTimeout), before + word[..stalled];
        }
        if !acknowledged.value { return Err(NoAcknowledge(Data)), before + word; }
      }
      assert bytes[..|bytes|] == bytes;
      return Ok(()), WriteDataSlots(bytes);
    }

    /** Reads the next byte into its place. */
    method ReadNext(buffer: array<u8>, index: nat, followOn: bool, ghost s0: seq<Symbol>, ghost p0: nat, ghost done: seq<Slot>)
      returns (ok: bool, ghost part: seq<Slot>)
      requires index < buffer.Length && Sent(s0, p0, done + ReadDataSlots(index, buffer.Length, followOn))
      modifies this, buffer
      ensures part <= ReadDataSlots(index + 1, buffer.Length, followOn)
      ensures ok ==> part == ReadDataSlots(index + 1, buffer.Length, followOn) && Sent(s0, p0, done + part)
      ensures ok ==> buffer[..index + 1] == old(buffer[..index]) + [ByteHeard(slave, p0 + |done| + 9 * index)]
      ensures !ok ==> Stuck(s0, p0, done + part)
    {
      hide Watch, WireOf, InTime, AllAcknowledged, ByteHeard, Stuck, ReadSlots, Carried, Clocking;
      var acknowledge := index + 1 < buffer.Length || followOn;
      ghost var before, word := ReadDataSlots(index, buffer.Length, followOn), ReadSlots(acknowledge);
      assert ReadDataSlots(index + 1, buffer.Length, followOn) == before + word;
      assert done + before + word == done + (before + word);
      var byte, stalled := ReadByte(acknowledge, s0, p0, done + before);
      if byte.None? {
        assert done + before + word[..stalled] == done + (before + word[..stalled]);
        PartOfPlan(before, word, stalled, before + word);
        return false, before + word[..stalled];
      }
      buffer[index] := byte.value;
      return true, before + word;
    }

    /** Fills the buffer in place, acknowledging every byte but the last one wanted. */
    method ReadInto(buffer: array<u8>, followOn: bool, ghost s0: seq<Symbol>, ghost p0: nat, ghost done: seq<Slot>)
      returns (ok: bool, ghost part: seq<Slot>)
      requires Sent(s0, p0, done)
      modifies this, buffer
      ensures part <= ReadDataSlots(buffer.Length, buffer.Length, followOn)
      ensures ok ==> part == ReadDataSlots(buffer.Length, buffer.Length, followOn) && Sent(s0, p0, done + part)
      ensures ok ==> buffer[..] == Heard(slave, p0 + |done|, buffer.Length)
      ensures !ok ==> Stuck(s0, p0, done + part)
    {
      hide Watch, WireOf, InTime, AllAcknowledged, ByteHeard, Stuck, ReadSlots, Carried, Clocking, Sent;
      var length := buffer.Length;
      ghost var heard := Heard(slave, p0 + |done|, length);
      assert done + ReadDataSlots(0, length, followOn) == done;
      for index := 0 to length
        invariant Sent(s0, p0, done + ReadDataSlots(index, length, followOn))
        invariant buffer[..index] == heard[..index]
      {
        assert heard[..index + 1] == heard[..index] + [heard[index]];
        ReadDataPrefix(index + 1, length, length, followOn);
        var next, clocked := ReadNext(buffer, index, followOn, s0, p0, done);
        if !next {
          PrefixTransitive(clocked, ReadDataSlots(index + 1, length, followOn), ReadDataSlots(length, length, followOn));
          return false, clocked;
        }
      }
      return true, ReadDataSlots(length, length, followOn);
    }

    method FollowingReadData(operations: seq<Operation>, index: nat) returns (r: bool)
      requires index < |operations|
      ensures r == HasFollowingReadData(Shapes(operations), index)
    {
      for next := index + 1 to |operations|
        invariant HasFollowingReadData(Shapes(operations), index) == HasFollowingReadData(Shapes(operations), next - 1)
      {
        match operations[next]
        case Read(buffer) => if buffer.Length > 0 { return true; }
        case Write(_) => return false;
      }
      r := false;
    }

    /** The address of a transfer when the direction is new, behind a repeated START unless it is the first. */
    method SendHeader(address: SevenBitAddress, operations: seq<Operation>, index: nat, currentRead: Option<bool>,
                      ghost s0: seq<Symbol>, ghost p0: nat, ghost plan: seq<Slot>)
      returns (r: Result<(), Error>, ghost executed: seq<Slot>)
      requires index < |operations|
      requires currentRead == if index == 0 then None else Some(operations[index - 1].Read?)
      requires Sent(s0, p0, plan)
      modifies this
      ensures var slots := plan + HeaderSlots(address, Shapes(operations), index);
        && executed <= slots
        && (match r
            case Ok(_) => executed == slots && Sent(s0, p0, slots)
            case Err(e) => e != NoAcknowledge(Data) && Ended(s0, p0, executed, e))
    {
      hide Watch, WireOf, InTime, AllAcknowledged, RefusedAt, WriteSlots, Stuck, Stalling;
      var read := operations[index].Read?;
      ghost var word := WriteSlots(AddressByte(address, read), Address);
      ghost var header := HeaderSlots(address, Shapes(operations), index);
      if currentRead.None? {
        assert header == word;
        r, executed := SendAddress(address, read, s0, p0, plan);
      } else if currentRead.value != read {
        assert header == [Again] + word;
        assert plan + ([Again] + word) == plan + [Again] + word;
        var again := RepeatedStart(s0, p0, plan);
        if !again {
          StallIsStuck(s0, p0, plan, Again);
          return Err(ClockStretchTimeout), plan + [Again];
        }
        AcknowledgedAgain(plan, slave, p0);
        r, executed := SendAddress(address, read, s0, p0, plan + [Again]);
      } else {
        assert header == [] && plan + [] == plan;
        return Ok(()), plan;
      }
    }

    /** The bytes of a transfer; `part` is what was clocked of them. */
    method SendBody(operations: seq<Operation>, index: nat, followOn: bool,
                    ghost s0: seq<Symbol>, ghost p0: nat, ghost done: seq<Slot>)
      returns (r: Result<(), Error>, ghost part: seq<Slot>)
      requires index < |operations|
      requires operations[index].Read? ==> followOn == HasFollowingReadData(Shapes(operations), index)
      requires Sent(s0, p0, done)
      modifies this, Target(operations[index])
      ensures part <= BodySlots(Shapes(operations), index)
      ensures match r
        case Ok(_) => part == BodySlots(Shapes(operations), index) && Sent(s0, p0, done + part)
        case Err(e) => e != NoAcknowledge(Address) && Ended(s0, p0, done + part, e)
      ensures r.Ok? && operations[index].Read? ==>
        operations[index].buffer[..] == Heard(slave, p0 + |done|, operations[index].buffer.Length)
    {
      hide Watch, WireOf, InTime, AllAcknowledged, RefusedAt, WriteDataSlots, ReadDataSlots, HasFollowingReadData, Stuck;
      match operations[index]
      case Write(bytes) =>
        r, part := WriteData(bytes, s0, p0, done);
      case Read(buffer) =>
        var ok, heard := ReadInto(buffer, followOn, s0, p0, done);
        return if ok then Ok(()) else Err(ClockStretchTimeout), heard;
    }

    /** One transfer of the list, header and bytes. `executed` is what has been clocked, up to the period it ended in. */
    method SendTransfer(address: SevenBitAddress, operations: seq<Operation>, index: nat, currentRead: Option<bool>,
                        ghost s0: seq<Symbol>, ghost p0: nat)
      returns (r: Result<(), Error>, ghost executed: seq<Slot>)
      requires index < |operations|
      requires currentRead == if index == 0 then None else Some(operations[index - 1].Read?)
      requires Sent(s0, p0, Plan(address, Shapes(operations), index))
      modifies this, Target(operations[index])
      ensures executed <= FullPlan(address, Shapes(operations))
      ensures match r
        case Ok(_) =>
          && executed == Plan(address, Shapes(operations), index + 1)
          && Sent(s0, p0, executed)
          && FilledAt(address, operations, index, slave, p0)
        case Err(e) => Ended(s0, p0, executed, e)
    {
      hide Watch, WireOf, InTime, AllAcknowledged, Moved, RefusedAt, HeaderSlots, BodySlots, HasFollowingReadData, FullPlan, Stuck;
      ghost var transfers := Shapes(operations);
      ghost var done := Plan(address, transfers, index) + HeaderSlots(address, transfers, index);
      PlanCut(address, transfers, index, []);
      assert done + [] == done;
      var followOn := false;
      if operations[index].Read? { followOn := FollowingReadData(operations, index); }
      var sent, header := SendHeader(address, operations, index, currentRead, s0, p0, Plan(address, transfers, index));
      if sent.Err? {
        PrefixTransitive(header, done, FullPlan(address, transfers));
        return sent, header;
      }
      var moved, part := SendBody(operations, index, followOn, s0, p0, done);
      PlanCut(address, transfers, index, part);
      if operations[index].Read? { MovedRead(address, transfers, slave, p0, index); }
      return moved, done + part;
    }

    /** The next transfer; the buffers filled before it keep their bytes. */
    method SendNext(address: SevenBitAddress, operations: seq<Operation>, index: nat, currentRead: Option<bool>,
                    ghost s0: seq<Symbol>, ghost p0: nat)
      returns (r: Result<(), Error>, ghost executed: seq<Slot>)
      requires index < |operations| && DistinctBuffers(operations) && SentBefore(s0, p0, address, operations, index)
      requires currentRead == if index == 0 then None else Some(operations[index - 1].Read?)
      modifies this, Target(operations[index])
      ensures executed <= FullPlan(address, Shapes(operations))
      ensures match r
        case Ok(_) =>
          executed == Plan(address, Shapes(operations), index + 1) && SentBefore(s0, p0, address, operations, index + 1)
        case Err(e) => Ended(s0, p0, executed, e)
    {
      hide Watch, WireOf, InTime, AllAcknowledged, Moved, RefusedAt, HeaderSlots, BodySlots, HasFollowingReadData, Stuck, Ended;
      assert forall i | 0 <= i < index :: Target(operations[i]) !! Target(operations[index]);
      r, executed := SendTransfer(address, operations, index, currentRead, s0, p0);
      forall i | 0 <= i < index ensures r.Ok? ==> FilledAt(address, operations, i, slave, p0) {
        assert old(FilledAt(address, operations, i, slave, p0));
        assert Target(operations[i]) !! Target(operations[index]);
      }
    }

    lemma NothingSent(address: SevenBitAddress, operations: seq<Operation>, s0: seq<Symbol>, p0: nat)
      requires Clocking() && Carried(s0, p0, [])
      ensures SentBefore(s0, p0, address, operations, 0)
    {
      hide Watch, WireOf, FilledAt;
    }

    /** Every transfer in turn; stops where an address or a byte is refused, or the slave stalls. */
    method SendAll(address: SevenBitAddress, operations: seq<Operation>, ghost s0: seq<Symbol>, ghost p0: nat)
      returns (r: Result<(), Error>, ghost executed: seq<Slot>)
      requires DistinctBuffers(operations) && Clocking() && Carried(s0, p0, [])
      modifies this, Buffers(operations)
      ensures executed <= FullPlan(address, Shapes(operations))
      ensures match r
        case Ok(_) =>
          executed == Plan(address, Shapes(operations), |operations|) && SentBefore(s0, p0, address, operations, |operations|)
        case Err(e) => Ended(s0, p0, executed, e)
    {
      ghost var transfers := Shapes(operations);
      NothingSent(address, operations, s0, p0);
      assert Plan(address, transfers, |operations|) <= FullPlan(address, transfers);
      hide Watch, WireOf, InTime, AllAcknowledged, Moved, RefusedAt, Plan, FullPlan, HasFollowingReadData, FilledAt, Filled, Ended, Sent, SentBefore, Carried, Clocking;
      var currentRead: Option<bool> := None;
      for index := 0 to |operations|
        invariant SentBefore(s0, p0, address, operations, index)
        invariant currentRead == if index == 0 then None else Some(operations[index - 1].Read?)
      {
        var sent, clocked := SendNext(address, operations, index, currentRead, s0, p0);
        if sent.Err? { return sent, clocked; }
        currentRead := Some(operations[index].Read?);
      }
      return Ok(()), Plan(address, transfers, |operations|);
    }

    /** The STOP that completes the plan. */
    method Close(address: SevenBitAddress, operations: seq<Operation>, ghost s0: seq<Symbol>, ghost p0: nat)
      returns (ok: bool)
      requires SentBefore(s0, p0, address, operations, |operations|)
      modifies this
      ensures if ok then Completed(s0, p0, address, operations) else Stuck(s0, p0, FullPlan(address, Shapes(operations)))
    {
      hide Watch, WireOf, InTime, AllAcknowledged, Plan, Moved;
      ghost var plan := Plan(address, Shapes(operations), |operations|);
      AcknowledgedFinish(plan, slave, p0);
      WireOfNext(plan, Finish, slave, p0);
      ok := End();
      if ok {
        InTimeNext(slave, stretchTimeout, p0, |plan|);
      } else {
        StallIsStuck(s0, p0, plan, Finish);
      }
      forall i | 0 <= i < |operations| ensures FilledAt(address, operations, i, slave, p0) {
        assert old(FilledAt(address, operations, i, slave, p0));
      }
    }

    /** START, every transfer, STOP. */
    method Exchange(address: SevenBitAddress, operations: seq<Operation>)
      returns (r: Result<(), Error>, ghost executed: seq<Slot>)
      requires Valid() && sclReleased && DistinctBuffers(operations)
      modifies this, Buffers(operations)
      ensures executed <= FullPlan(address, Shapes(operations))
      ensures var left, up, s0, s1, p0 := old(stretchLeft), old(slave.releases(phase)), old(Symbols()), old(Opened()), old(phase);
        match r
        case Ok(_) => left < stretchTimeout && up && Completed(s1, p0 + 1, address, operations)
        case Err(BusBusy) => left < stretchTimeout && !up && Busy(s0, p0)
        case Err(e) =>
          if left >= stretchTimeout then e == ClockStretchTimeout && Unopened(s0, p0, left)
          else up && Ended(s1, p0 + 1, executed, e)
    {
      executed := [];
      var begun := Begin();
      if begun.Err? { return begun, executed; }
      ghost var s0, p0 := Symbols(), phase;
      assert Carried(s0, p0, []);
      hide Watch, WireOf, InTime, AllAcknowledged, Plan, RefusedAt, Moved, Filled;
      r, executed := SendAll(address, operations, s0, p0);
      if r.Err? { return; }
      var ok := Close(address, operations, s0, p0);
      if !ok { return Err(ClockStretchTimeout), FullPlan(address, Shapes(operations)); }
    }

    /** The STOP after a failure, before or behind a START; its own outcome is ignored, and shows in the lines. */
    method Abandon(e: Error, ghost started: bool, ghost s0: seq<Symbol>, ghost p0: nat, ghost left: nat, ghost executed: seq<Slot>)
      requires if e.BusBusy? then Busy(s0, p0) else if started then Ended(s0, p0, executed, e) else Unopened(s0, p0, left)
      modifies this
      ensures match e
        case BusBusy => Busy(s0, p0)
        case NoAcknowledge(source) => if started then Abandoned(s0, p0, executed, source) else GaveUp(s0, p0, true, left - stretchTimeout)
        case ClockStretchTimeout => if started then TimedOut(s0, p0, executed) else GaveUp(s0, p0, true, left - stretchTimeout)
    {
      hide Watch, WireOf, InTime, AllAcknowledged, RefusedAt;
      var _ := End();
    }

    /** A whole transaction, from any state in which SCL is released. It succeeds if and only if the slave lets
        the START be made, keeps within the timeout in every period and acknowledges every byte. After any failure
        STOP is sent once more and its own outcome ignored. */
    method Transaction(address: SevenBitAddress, operations: seq<Operation>)
      returns (r: Result<(), Error>, ghost executed: seq<Slot>)
      requires Valid() && sclReleased && DistinctBuffers(operations)
      modifies this, Buffers(operations)
      ensures |operations| == 0 ==> r.Ok? && unchanged(this)
      ensures |operations| > 0 ==> executed <= FullPlan(address, Shapes(operations))
      ensures var left, up, s0, s1, p0 := old(stretchLeft), old(slave.releases(phase)), old(Symbols()), old(Opened()), old(phase);
        |operations| > 0 ==>
        match r
        case Ok(_) => left < stretchTimeout && up && Completed(s1, p0 + 1, address, operations)
        case Err(NoAcknowledge(source)) => left < stretchTimeout && up && Abandoned(s1, p0 + 1, executed, source)
        case Err(BusBusy) => left < stretchTimeout && !up && Busy(s0, p0)
        case Err(ClockStretchTimeout) =>
          if left >= stretchTimeout then GaveUp(s0, p0, true, left - stretchTimeout) else up && TimedOut(s1, p0 + 1, executed)
      ensures |operations| > 0 ==>
        var plan := FullPlan(address, Shapes(operations));
        (r.Ok? <==>
          && old(stretchLeft) < stretchTimeout && old(slave.releases(phase))
          && InTime(slave, stretchTimeout, old(phase) + 1, |plan|) && AllAcknowledged(plan, slave, old(phase) + 1))
    {
      executed := [];
      if |operations| == 0 { return Ok(()), executed; }
      hide Watch, WireOf, AllAcknowledged, RefusedAt, Moved, FullPlan, Filled, InTime, Stuck, Refused, GaveUp;
      r, executed := Exchange(address, operations);
      if r.Err? {
        ghost var s1, p1 := old(Opened()), old(phase) + 1;
        ghost var started := !r.error.BusBusy? && old(stretchLeft) < stretchTimeout;
        FailureShows(r.error, s1, p1, executed, FullPlan(address, Shapes(operations)));
        Abandon(r.error, started, if started then s1 else old(Symbols()), if started then p1 else old(phase), old(stretchLeft), executed);
      }
    }

    /** Where sending ended early, the slave has refused a byte of the plan or outlasted the timeout in it. */
    lemma FailureShows(e: Error, s0: seq<Symbol>, p0: nat, executed: seq<Slot>, plan: seq<Slot>)
      requires executed <= plan
      ensures Ended(s0, p0, executed, e) ==> !(InTime(slave, stretchTimeout, p0, |plan|) && AllAcknowledged(plan, slave, p0))
    {
      hide Watch, WireOf, AllAcknowledged, RefusedAt;
      if Ended(s0, p0, executed, e) {
        match e
        case NoAcknowledge(source) => RefusalShows(executed, plan, slave, p0, source);
        case ClockStretchTimeout => assert slave.stretch(p0 + (|executed| - 1)) >= stretchTimeout;
        case BusBusy =>
      }
    }

    // ----- what a monitor of the driver's wire reads --------------------------------------------

    /** Behind any whole frames, the monitor reads a completed transaction's transcript, with the bytes the
        caller gave and the bytes now in the buffers, if and only if the slave left SDA released wherever the
        master needed it high. From the transcript the target understands the operations asked for: each run of one
        direction at this address, in that direction, with its bytes. */
    lemma CompletedIsRead(before: seq<Token>, s0: seq<Symbol>, p0: nat, address: SevenBitAddress,
                                             operations: seq<Operation>, data: seq<seq<u8>>)
      requires Parse(s0) == Some(before) && Completed(s0 + [StartCondition], p0, address, operations) && Held(operations, data)
      ensures Parse(Symbols()) == Some(before + Transcript(address, Shapes(operations), data))
        <==> Undisturbed(FullPlan(address, Shapes(operations)), slave, p0)
      ensures |operations| > 0 ==>
        Understood(Transcript(address, Shapes(operations), data)) == Some(AddressedRuns(address, Runs(Shapes(operations), data)))
    {
      hide *;
      var transfers := Shapes(operations);
      assert |transfers| == |operations|;
      var plan := FullPlan(address, transfers);
      CompletedMeans(s0 + [StartCondition], p0, address, operations);
      HeldIsMoved(address, operations, data, slave, p0);
      MovedIsShaped(address, transfers, slave, p0, data);
      if |operations| > 0 { TranscriptIsUnderstood(address, transfers, data); }
      TranscriptMeant(address, transfers, data, slave, p0);
      WireIsMeantExactly(plan, slave, p0);
      var wire := WireOf(plan, slave, p0);
      ReadBehind(s0, before, [StartCondition] + wire, Transcript(address, transfers, data));
      StartsSame(wire, Meant(plan, slave, p0));
      assert s0 + [StartCondition] + wire == s0 + ([StartCondition] + wire);
    }

    lemma CompletedMeans(s0: seq<Symbol>, p0: nat, address: SevenBitAddress, operations: seq<Operation>)
      requires Completed(s0, p0, address, operations)
      ensures Valid() && Symbols() == s0 + WireOf(FullPlan(address, Shapes(operations)), slave, p0)
      ensures AllAcknowledged(FullPlan(address, Shapes(operations)), slave, p0) && Filled(address, operations, |operations|, slave, p0)
    {
      hide Watch, WireOf, AllAcknowledged, Filled, InTime, FullPlan;
    }

    /** Behind any whole frames, the monitor reads a refused transaction as its transcript cut at the refused byte
        and a STOP, if and only if the slave left SDA released wherever the master needed it high. */
    lemma RefusalIsRead(before: seq<Token>, s0: seq<Symbol>, p0: nat, address: SevenBitAddress, operations: seq<Operation>,
                                           data: seq<seq<u8>>, executed: seq<Slot>, source: NoAcknowledgeSource)
      returns (tokens: seq<Token>, k: nat)
      requires Parse(s0) == Some(before) && Abandoned(s0 + [StartCondition], p0, executed, source) && Idle()
      requires executed <= FullPlan(address, Shapes(operations)) && |executed| > 0
      requires MovedData(address, Shapes(operations), Yielding(slave, p0 + |executed| - 1), p0, data)
      ensures |data| == |operations| && CutAt(Transcript(address, Shapes(operations), data), k, tokens)
      ensures RefusedAs(Transcript(address, Shapes(operations), data), k, source)
      ensures Parse(Symbols()) == Some(before + tokens) <==> Undisturbed(executed + [Finish], slave, p0)
    {
      var transfers := Shapes(operations);
      WireOfNext(executed, Finish, slave, p0);
      hide Parse, Print, Watch, WireOf, Meant, AllAcknowledged, FullPlan, Transcript, InTime, Undisturbed, RefusedAt, CutAt, RefusedAs, Moved, Yielding;
      tokens, k := AbandonedIsRead(address, transfers, data, executed, slave, p0, source);
      var wire := WireOf(executed + [Finish], slave, p0);
      WireIsMeantExactly(executed + [Finish], slave, p0);
      ReadBehind(s0, before, [StartCondition] + wire, tokens);
      StartsSame(wire, Meant(executed + [Finish], slave, p0));
      assert Symbols() == s0 + ([StartCondition] + wire);
    }
  }

  /** Periods the master listens in. */
  function Ears(n: nat): (r: seq<Slot>) {
    seq(n, i => Listen)
  }

  /** What a slave shows in n periods from this one on. */
  ghost function BitsHeard(slave: Slave, phase: nat, n: nat): (r: seq<bool>) {
    seq(n, i requires 0 <= i < n => slave.releases(phase + i))
  }

  lemma EarsNext(done: seq<Slot>, n: nat, slave: Slave, phase: nat)
    requires AllAcknowledged(done, slave, phase)
    ensures |Ears(n)| == n && done + Ears(n) + [Listen] == done + Ears(n + 1) && AllAcknowledged(done + Ears(n), slave, phase)
    ensures LetsGo(Listen) && !Listen.Acknowledge?
  {
    assert Ears(n)[..n] == Ears(n);
    AcknowledgedPart(done, Ears(n), n, slave, phase);
  }

  lemma HeardNext(slave: Slave, phase: nat, n: nat, byte: u8)
    requires n < 8 && byte == FromBits(BitsHeard(slave, phase, n))
    ensures 2 * byte + (if slave.releases(phase + n) then 1 else 0) < 256
    ensures 2 * byte + (if slave.releases(phase + n) then 1 else 0) == FromBits(BitsHeard(slave, phase, n + 1))
  {
    var heard := BitsHeard(slave, phase, n);
    PartialByte(heard, slave.releases(phase + n));
    assert heard + [slave.releases(phase + n)] == BitsHeard(slave, phase, n + 1);
  }

  lemma WordSlots(byte: u8, source: NoAcknowledgeSource)
    ensures var word := WriteSlots(byte, source);
      word[8] == Acknowledge(source) && forall i | 0 <= i < 8 :: word[i] == Drive(Shifted(byte, i) >= 128)
  {
    var bits := Bits(byte);
    assert forall i | 0 <= i < 8 :: bits[i] == (Shifted(byte, i) >= 128);
    assert forall i | 0 <= i < 8 :: WriteSlots(byte, source)[i] == Drive(bits[i]);
  }

  /** Shifting one more bit into an unfinished byte does not overflow it. */
  lemma PartialByte(bits: seq<bool>, next: bool)
    requires |bits| < 8
    ensures FromBits(bits + [next]) == 2 * FromBits(bits) + (if next then 1 else 0)
    ensures FromBits(bits + [next]) < 256
  {
    assert (bits + [next])[..|bits|] == bits;
    ByteBound(bits + [next]);
  }

  // ----- two failures that do not end as one might expect ---------------------------------------------

  /** Refused, but not ended: the slave lets the address go unacknowledged and then stretches past the timeout, so
      the wire shows the refused address and no STOP, and SDA stays driven low. */
  method RefusalCanStayHeld() returns (driver: SoftwareI2c, r: Result<(), Error>)
    ensures r == Err(NoAcknowledge(Address)) && driver.Valid() && !driver.Idle() && !driver.sdaReleased
    ensures driver.Symbols() == [StartCondition] + ByteSymbols(0, false)
  {
    driver := new SoftwareI2c(Slave(n => true, n => if n == 10 then 5 else 0), 5);
    EmptyWrite();
    assert [] + [] + [StartCondition] == [StartCondition];
    hide Watch, WireOf, FullPlan, InTime, AllAcknowledged, RefusedAt, ByteSymbols, Shapes, Filled;
    hide SoftwareI2c.GaveUp, SoftwareI2c.TimedOut, SoftwareI2c.Abandoned, SoftwareI2c.Completed;
    ghost var executed;
    r, executed := driver.Transaction(0, [Write([])]);
    HeldApart(driver, executed);
    assert r.Err? && r.error.NoAcknowledge?;
    assert driver.Abandoned([StartCondition], 1, executed, r.error.source);
  }

  lemma EmptyWrite()
    ensures Shapes([Write([])]) == [Writing([])] && DistinctBuffers([Write([])])
  {}

  /** Such a driver has neither completed nor timed out, and if it was refused its STOP is held up. */
  lemma HeldApart(driver: SoftwareI2c, executed: seq<Slot>)
    requires executed <= FullPlan(0, [Writing([])]) && driver.stretchTimeout == 5
    requires driver.slave == Slave(n => true, n => if n == 10 then 5 else 0)
    ensures !AllAcknowledged(FullPlan(0, [Writing([])]), driver.slave, 1) && !driver.TimedOut([StartCondition], 1, executed)
    ensures forall source | driver.Abandoned([StartCondition], 1, executed, source) ::
      && source.Address? && driver.Valid() && !driver.Idle() && !driver.sdaReleased
      && driver.Symbols() == [StartCondition] + ByteSymbols(0, false)
  {
    AddressRefused(driver.slave, executed);
    EmptyWritePlan(0);
    hide Watch, WireOf, FullPlan, InTime, AllAcknowledged, RefusedAt, ByteSymbols, WriteSlots;
    assert [StartCondition] + ByteSymbols(0, false) + [] + [] == [StartCondition] + ByteSymbols(0, false);
  }

  /** Against a slave that never holds SDA only the address can be refused, and nothing goes on behind it. */
  lemma AddressRefused(slave: Slave, executed: seq<Slot>)
    requires executed <= FullPlan(0, [Writing([])]) && forall n | 0 <= n :: slave.releases(n)
    ensures !AllAcknowledged(FullPlan(0, [Writing([])]), slave, 1)
    ensures |executed| > 9 ==> !AllAcknowledged(executed[..9], slave, 1)
    ensures forall source | RefusedAt(executed, slave, 1, source) ::
      |executed| == 9 && source.Address? && WireOf(executed, slave, 1) == ByteSymbols(0, false)
  {
    EmptyWritePlan(0);
    var plan := FullPlan(0, [Writing([])]);
    assert plan[8] == Acknowledge(Address) && plan[9] == Finish && forall i | 0 <= i < 8 :: plan[i].Drive?;
    RefusedAddressShows(slave);
    assert plan[..9] == WriteSlots(0, Address);
    hide FullPlan, WriteSlots, WireOf, ByteSymbols;
    assert forall i | 0 <= i < |executed| :: executed[i] == plan[i];
    if |executed| > 9 { assert executed[..9][8].Acknowledge?; }
    if |executed| == 9 { assert executed == plan[..9]; }
  }

  lemma RefusedAddressShows(slave: Slave)
    requires forall n | 0 <= n :: slave.releases(n)
    ensures WireOf(WriteSlots(0, Address), slave, 1) == ByteSymbols(0, false)
  {
    var slots := WriteSlots(0, Address);
    WireIsMeantExactly(slots, slave, 1);
    hide WireOf, Bits;
    assert slots[8] == Acknowledge(Address);
    assert Meant(slots, slave, 1) == ByteSymbols(0, false);
  }

  /** Timed out on a stretch that ends with the last poll: SCL is up when SDA is pulled down for the STOP, and a
      second START shows. */
  method TimeoutCanShowStart() returns (driver: SoftwareI2c, r: Result<(), Error>)
    ensures r == Err(ClockStretchTimeout) && driver.Idle()
    ensures driver.Symbols() == [StartCondition, StartCondition, StopCondition]
  {
    driver := new SoftwareI2c(Slave(n => true, n => if n == 1 then 5 else 0), 5);
    EmptyWrite();
    assert [] + [] + [StartCondition] == [StartCondition];
    hide Watch, WireOf, FullPlan, InTime, AllAcknowledged, RefusedAt, Shapes, Filled;
    hide SoftwareI2c.GaveUp, SoftwareI2c.TimedOut, SoftwareI2c.Abandoned, SoftwareI2c.Completed;
    ghost var executed;
    r, executed := driver.Transaction(64, [Write([])]);
    StalledApart(driver, executed);
    assert r.Err? && r.error.ClockStretchTimeout?;
    assert driver.TimedOut([StartCondition], 1, executed);
  }

  /** Such a driver has neither completed nor been refused, and gave up in the first period. */
  lemma StalledApart(driver: SoftwareI2c, executed: seq<Slot>)
    requires executed <= FullPlan(64, [Writing([])]) && driver.stretchTimeout == 5
    requires driver.slave == Slave(n => true, n => if n == 1 then 5 else 0)
    ensures !InTime(driver.slave, 5, 1, |FullPlan(64, [Writing([])])|)
    ensures forall source :: !driver.Abandoned([StartCondition], 1, executed, source)
    ensures driver.TimedOut([StartCondition], 1, executed) ==>
      driver.Idle() && driver.Symbols() == [StartCondition, StartCondition, StopCondition]
  {
    FirstPeriodStalls(driver.slave, 5, executed);
    hide Watch, WireOf, FullPlan, InTime, AllAcknowledged, RefusedAt, LetsGo;
  }

  lemma LateAtOnce(slave: Slave, timeout: nat, n: nat)
    requires n > 0 && slave.stretch(1) >= timeout
    ensures !InTime(slave, timeout, 1, n)
  {
    assert 1 <= 1 < 1 + n && !(slave.stretch(1) < timeout);
  }

  /** Against a slave that stalls in the first period nothing is carried and nothing refused; that period drives
      the first bit of address 64, a one. */
  lemma FirstPeriodStalls(slave: Slave, timeout: nat, executed: seq<Slot>)
    requires executed <= FullPlan(64, [Writing([])]) && slave.stretch(1) >= timeout
    ensures |FullPlan(64, [Writing([])])| > 0
    ensures forall n: nat | n > 0 :: !InTime(slave, timeout, 1, n)
    ensures forall source | RefusedAt(executed, slave, 1, source) :: |executed| > 0
    ensures |executed| == 1 ==> LetsGo(executed[0]) && WireOf(executed[..0], slave, 1) == []
  {
    EmptyWritePlan(64);
    WordSlots(128, Address);
    var plan := FullPlan(64, [Writing([])]);
    hide FullPlan, WriteSlots;
    assert plan[0] == Drive(true);
    forall n: nat | n > 0 ensures !InTime(slave, timeout, 1, n) { LateAtOnce(slave, timeout, n); }
    if |executed| == 1 { assert executed[0] == plan[0] && executed[..0] == []; }
  }

  /** The plan of an empty write: nine periods of address and a STOP. */
  lemma EmptyWritePlan(address: SevenBitAddress)
    ensures FullPlan(address, [Writing([])]) == WriteSlots(AddressByte(address, false), Address) + [Finish]
  {
    var transfers := [Writing([])];
    assert Plan(address, transfers, 0) == [];
    assert HeaderSlots(address, transfers, 0) == WriteSlots(AddressByte(address, false), Address);
    assert BodySlots(transfers, 0) == [];
    assert Plan(address, transfers, 1) == Plan(address, transfers, 0) + HeaderSlots(address, transfers, 0) + BodySlots(transfers, 0);
  }
}
