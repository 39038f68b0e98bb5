/** The bit-level link driver: the events each driver routine records on
    the clock pin clk and the data pin io, and what the target sees on the
    wire while they happen. */
module Link {
  import opened Bits
  import opened Gpio

  /** Clock cycles of a line reset (the protocol asks for at least 50). */
  const ResetSequenceLength: nat := 64

  /** pulseClock, n times. */
  function Pulses(clk: Pin, n: nat): seq<Event>
  {
    seq(n, _ => Pulse(clk))
  }

  /** resetLine: drive the data line HIGH, then clock it. */
  function ResetTrace(clk: Pin, io: Pin): seq<Event>
  {
    [Write(io, true)] + Pulses(clk, ResetSequenceLength)
  }

  /** writeBit(b). */
  function BitTrace(clk: Pin, io: Pin, b: bool): seq<Event>
  {
    [Write(io, b), Pulse(clk)]
  }

  /** writeBits(v, n): writeBit of bit i of v, for i from 0 to n - 1. */
  function WriteTrace(clk: Pin, io: Pin, v: nat, n: nat): seq<Event>
  {
    if n == 0 then [] else WriteTrace(clk, io, v, n - 1) + BitTrace(clk, io, Bit(v, n - 1))
  }

  /** The loop of readBits: sample the data line, then pulse the clock. */
  function SenseTrace(clk: Pin, io: Pin, samples: seq<bool>): seq<Event>
  {
    if |samples| == 0 then []
    else SenseTrace(clk, io, samples[..|samples| - 1]) + SampleTrace(clk, io, samples[|samples| - 1])
  }

  /** readBits: release the line (setupMasterRead), sample and clock once per
      bit, then take the line back (setupMasterWrite). */
  function ReadTrace(clk: Pin, io: Pin, samples: seq<bool>): seq<Event>
  {
    [SetMode(io, InputPullup)] + SenseTrace(clk, io, samples) + [SetMode(io, Output)]
  }

  /** turnaround: release the line and clock once without sampling. */
  function TurnTrace(clk: Pin, io: Pin): seq<Event>
  {
    [SetMode(io, InputPullup), Pulse(clk)]
  }

  /** The levels writing and clocking each of bits writes to io: the bits
      themselves, each followed by its pulse's LOW and HIGH when the data
      pin is the clock pin. */
  function BitWrites(clk: Pin, io: Pin, bits: seq<bool>): (r: seq<bool>)
    ensures |r| == if clk == io then 3 * |bits| else |bits|
    ensures clk != io ==> r == bits
  {
    if bits == [] then []
    else BitWrites(clk, io, bits[..|bits| - 1]) + [bits[|bits| - 1]] + PulseWrites(clk, io, 1)
  }

  lemma BitWritesSnoc(clk: Pin, io: Pin, bits: seq<bool>, b: bool)
    ensures BitWrites(clk, io, bits + [b]) == BitWrites(clk, io, bits) + ([b] + PulseWrites(clk, io, 1))
  {
    assert (bits + [b])[..|bits|] == bits;
    var head := BitWrites(clk, io, bits);
    assert head + [b] + PulseWrites(clk, io, 1) == head + ([b] + PulseWrites(clk, io, 1));
  }

  // ---------------------------------------------------------------------
  // resetLine

  /** resetLine writes the data line once, HIGH, and then only pulses the
      clock, 64 times. Each pulse is a write of the clock pin too, so when
      the data pin is the clock pin it is written 129 times. */
  lemma ResetShape(clk: Pin, io: Pin)
    ensures ResetTrace(clk, io)[0] == Write(io, true)
    ensures forall k :: 1 <= k < |ResetTrace(clk, io)| ==> ResetTrace(clk, io)[k] == Pulse(clk)
    ensures Driven(ResetTrace(clk, io), io) == [true] + PulseWrites(clk, io, ResetSequenceLength)
    ensures |Driven(ResetTrace(clk, io), io)| == if clk == io then 129 else 1
    ensures Sampled(ResetTrace(clk, io), io) == []
    ensures PulseCount(ResetTrace(clk, io), clk) == ResetSequenceLength
  {
    var head := [Write(io, true)];
    OneEvent(Write(io, true), Wire(true, true, None), clk, io);
    PulsesCollect(clk, io, ResetSequenceLength);
    DrivenAppend(head, Pulses(clk, ResetSequenceLength), io);
    SampledAppend(head, Pulses(clk, ResetSequenceLength), io);
    PulseCountAppend(head, Pulses(clk, ResetSequenceLength), clk);
  }

  lemma {:induction false} PulsesCollect(clk: Pin, io: Pin, n: nat)
    ensures Driven(Pulses(clk, n), io) == PulseWrites(clk, io, n)
    ensures Sampled(Pulses(clk, n), io) == []
    ensures PulseCount(Pulses(clk, n), clk) == n
  {
    if n > 0 {
      assert Pulses(clk, n)[..n - 1] == Pulses(clk, n - 1);
      PulsesCollect(clk, io, n - 1);
    }
  }

  /** While the host drives the line, pulses show its level to the target. */
  lemma {:induction false} PulsesCycles(clk: Pin, io: Pin, n: nat, w: Wire)
    requires clk != io
    requires Quiet(w)
    ensures Cycles(Pulses(clk, n), w, clk, io) == Drive(Repeat(w.level, n))
    ensures Run(Pulses(clk, n), w, clk, io) == w
  {
    if n > 0 {
      assert Pulses(clk, n)[..n - 1] == Pulses(clk, n - 1);
      PulsesCycles(clk, io, n - 1, w);
      assert Drive(Repeat(w.level, n)) == Drive(Repeat(w.level, n - 1)) + [Host(w.level)];
    }
  }

  /** A line reset is 64 cycles with the host holding the line HIGH. */
  lemma ResetCycles(clk: Pin, io: Pin, w: Wire)
    requires clk != io
    requires Quiet(w)
    ensures Cycles(ResetTrace(clk, io), w, clk, io) == Drive(Repeat(true, ResetSequenceLength))
    ensures Run(ResetTrace(clk, io), w, clk, io) == w.(level := true)
    ensures PulseCount(ResetTrace(clk, io), clk) == ResetSequenceLength
  {
    var head := [Write(io, true)];
    OneEvent(Write(io, true), w, clk, io);
    RunAppend(head, Pulses(clk, ResetSequenceLength), w, clk, io);
    PulsesCycles(clk, io, ResetSequenceLength, w.(level := true));
    ResetShape(clk, io);
  }

  // ---------------------------------------------------------------------
  // writeBit and writeBits

  lemma BitTraceCycles(clk: Pin, io: Pin, b: bool, w: Wire)
    requires clk != io
    requires Quiet(w)
    ensures Cycles(BitTrace(clk, io, b), w, clk, io) == [Host(b)]
    ensures Run(BitTrace(clk, io, b), w, clk, io) == w.(level := b)
  {
    TwoEvents(Write(io, b), Pulse(clk), w, clk, io);
  }

  lemma BitTraceCollect(clk: Pin, io: Pin, b: bool)
    ensures Driven(BitTrace(clk, io, b), io) == [b] + PulseWrites(clk, io, 1)
    ensures Sampled(BitTrace(clk, io, b), io) == []
    ensures PulseCount(BitTrace(clk, io, b), clk) == 1
  {
    TwoEvents(Write(io, b), Pulse(clk), Wire(true, true, None), clk, io);
  }

  /** writeBits(v, n) shows the target bits 0 .. n-1 of v, least significant
      first, one host cycle per bit; the wire stays driven. */
  lemma {:induction false} WriteCycles(clk: Pin, io: Pin, v: nat, n: nat, w: Wire)
    requires clk != io
    requires Quiet(w)
    ensures Cycles(WriteTrace(clk, io, v, n), w, clk, io) == Drive(BitsOf(v, n))
    ensures Quiet(Run(WriteTrace(clk, io, v, n), w, clk, io))
  {
    if n > 0 {
      var init := WriteTrace(clk, io, v, n - 1);
      WriteCycles(clk, io, v, n - 1, w);
      RunAppend(init, BitTrace(clk, io, Bit(v, n - 1)), w, clk, io);
      BitTraceCycles(clk, io, Bit(v, n - 1), Run(init, w, clk, io));
      BitsOfSnoc(v, n);
      DriveSnoc(BitsOf(v, n - 1), Bit(v, n - 1));
    }
  }

  lemma {:induction false} WriteDriven(clk: Pin, io: Pin, v: nat, n: nat)
    ensures Driven(WriteTrace(clk, io, v, n), io) == BitWrites(clk, io, BitsOf(v, n))
  {
    if n > 0 {
      var bits, b := BitsOf(v, n - 1), Bit(v, n - 1);
      var init, last := WriteTrace(clk, io, v, n - 1), BitTrace(clk, io, b);
      calc {
        Driven(WriteTrace(clk, io, v, n), io);
        Driven(init + last, io);
        { DrivenAppend(init, last, io); }
        Driven(init, io) + Driven(last, io);
        { WriteDriven(clk, io, v, n - 1); BitTraceCollect(clk, io, b); }
        BitWrites(clk, io, bits) + ([b] + PulseWrites(clk, io, 1));
        { BitWritesSnoc(clk, io, bits, b); }
        BitWrites(clk, io, bits + [b]);
        { BitsOfSnoc(v, n); }
        BitWrites(clk, io, BitsOf(v, n));
      }
    }
  }

  lemma {:induction false} WriteSampled(clk: Pin, io: Pin, v: nat, n: nat)
    ensures Sampled(WriteTrace(clk, io, v, n), io) == []
  {
    if n > 0 {
      var init, last := WriteTrace(clk, io, v, n - 1), BitTrace(clk, io, Bit(v, n - 1));
      WriteSampled(clk, io, v, n - 1);
      SampledAppend(init, last, io);
      BitTraceCollect(clk, io, Bit(v, n - 1));
    }
  }

  lemma {:induction false} WritePulses(clk: Pin, io: Pin, v: nat, n: nat)
    ensures PulseCount(WriteTrace(clk, io, v, n), clk) == n
  {
    if n > 0 {
      var init, last := WriteTrace(clk, io, v, n - 1), BitTrace(clk, io, Bit(v, n - 1));
      WritePulses(clk, io, v, n - 1);
      PulseCountAppend(init, last, clk);
      BitTraceCollect(clk, io, Bit(v, n - 1));
    }
  }

  /** writeBits(v, n) writes exactly the n low bits of v to the data line
      (each followed by its pulse's LOW and HIGH when the data pin is the
      clock pin), clocks exactly n times and samples nothing. */
  lemma WriteCollect(clk: Pin, io: Pin, v: nat, n: nat)
    ensures Driven(WriteTrace(clk, io, v, n), io) == BitWrites(clk, io, BitsOf(v, n))
    ensures clk != io ==> Driven(WriteTrace(clk, io, v, n), io) == BitsOf(v, n)
    ensures Sampled(WriteTrace(clk, io, v, n), io) == []
    ensures PulseCount(WriteTrace(clk, io, v, n), clk) == n
  {
    WriteDriven(clk, io, v, n);
    WriteSampled(clk, io, v, n);
    WritePulses(clk, io, v, n);
  }

  /** No bit of v at or above n has any effect on writeBits(v, n). */
  lemma {:induction false} WriteIgnoresHighBits(clk: Pin, io: Pin, u: nat, v: nat, n: nat)
    requires forall i :: 0 <= i < n ==> Bit(u, i) == Bit(v, i)
    ensures WriteTrace(clk, io, u, n) == WriteTrace(clk, io, v, n)
  {
    if n > 0 {
      WriteIgnoresHighBits(clk, io, u, v, n - 1);
      assert Bit(u, n - 1) == Bit(v, n - 1);
    }
  }

  // ---------------------------------------------------------------------
  // readBits and turnaround

  /** One pass of the readBits loop: sample, then pulse. */
  function SampleTrace(clk: Pin, io: Pin, b: bool): seq<Event>
  {
    [Sample(io, b), Pulse(clk)]
  }

  /** One more sample and clock extend the sensing trace and the value
      read by one bit. */
  lemma SenseStep(t0: seq<Event>, clk: Pin, io: Pin, value: nat, samples: seq<bool>, level: bool)
    ensures t0 + SenseTrace(clk, io, samples) + [Sample(io, level)] + [Pulse(clk)]
      == t0 + SenseTrace(clk, io, samples + [level])
    ensures SetBit(Splice(value, samples), |samples|, level) == Splice(value, samples + [level])
  {
    assert (samples + [level])[..|samples|] == samples;
  }

  lemma SampleTraceCycles(clk: Pin, io: Pin, b: bool, w: Wire)
    requires clk != io
    requires !w.driving && w.sampled.None?
    ensures Cycles(SampleTrace(clk, io, b), w, clk, io) == [Target(b)]
    ensures Run(SampleTrace(clk, io, b), w, clk, io) == w
  {
    TwoEvents(Sample(io, b), Pulse(clk), w, clk, io);
  }

  lemma SampleTraceCollect(clk: Pin, io: Pin, b: bool)
    ensures Driven(SampleTrace(clk, io, b), io) == PulseWrites(clk, io, 1)
    ensures Sampled(SampleTrace(clk, io, b), io) == [b]
    ensures PulseCount(SampleTrace(clk, io, b), clk) == 1
  {
    TwoEvents(Sample(io, b), Pulse(clk), Wire(false, true, None), clk, io);
  }

  lemma {:induction false} SenseRun(clk: Pin, io: Pin, samples: seq<bool>, w: Wire)
    requires clk != io
    requires !w.driving && w.sampled.None?
    ensures Run(SenseTrace(clk, io, samples), w, clk, io) == w
  {
    if |samples| > 0 {
      var init, b := samples[..|samples| - 1], samples[|samples| - 1];
      SenseRun(clk, io, init, w);
      RunAppend(SenseTrace(clk, io, init), SampleTrace(clk, io, b), w, clk, io);
      SampleTraceCycles(clk, io, b, w);
    }
  }

  lemma {:induction false} SenseCycles(clk: Pin, io: Pin, samples: seq<bool>, w: Wire)
    requires clk != io
    requires !w.driving && w.sampled.None?
    ensures Cycles(SenseTrace(clk, io, samples), w, clk, io) == Sense(samples)
  {
    if |samples| > 0 {
      var init, b := samples[..|samples| - 1], samples[|samples| - 1];
      calc {
        Cycles(SenseTrace(clk, io, samples), w, clk, io);
        Cycles(SenseTrace(clk, io, init) + SampleTrace(clk, io, b), w, clk, io);
        { RunAppend(SenseTrace(clk, io, init), SampleTrace(clk, io, b), w, clk, io); }
        Cycles(SenseTrace(clk, io, init), w, clk, io)
          + Cycles(SampleTrace(clk, io, b), Run(SenseTrace(clk, io, init), w, clk, io), clk, io);
        { SenseCycles(clk, io, init, w); SenseRun(clk, io, init, w); SampleTraceCycles(clk, io, b, w); }
        Sense(init) + [Target(b)];
        { SenseSnoc(init, b); assert init + [b] == samples; }
        Sense(samples);
      }
    }
  }

  lemma {:induction false} SenseDriven(clk: Pin, io: Pin, samples: seq<bool>)
    ensures Driven(SenseTrace(clk, io, samples), io) == PulseWrites(clk, io, |samples|)
  {
    if |samples| > 0 {
      var init, b := samples[..|samples| - 1], samples[|samples| - 1];
      SenseDriven(clk, io, init);
      DrivenAppend(SenseTrace(clk, io, init), SampleTrace(clk, io, b), io);
      SampleTraceCollect(clk, io, b);
      PulseWritesSnoc(clk, io, |init|);
    }
  }

  lemma {:induction false} SenseSampled(clk: Pin, io: Pin, samples: seq<bool>)
    ensures Sampled(SenseTrace(clk, io, samples), io) == samples
  {
    if |samples| > 0 {
      var init, b := samples[..|samples| - 1], samples[|samples| - 1];
      calc {
        Sampled(SenseTrace(clk, io, samples), io);
        Sampled(SenseTrace(clk, io, init) + SampleTrace(clk, io, b), io);
        { SampledAppend(SenseTrace(clk, io, init), SampleTrace(clk, io, b), io); }
        Sampled(SenseTrace(clk, io, init), io) + Sampled(SampleTrace(clk, io, b), io);
        { SenseSampled(clk, io, init); SampleTraceCollect(clk, io, b); }
        init + [b];
      }
    }
  }

  lemma {:induction false} SensePulses(clk: Pin, io: Pin, samples: seq<bool>)
    ensures PulseCount(SenseTrace(clk, io, samples), clk) == |samples|
  {
    if |samples| > 0 {
      var init, b := samples[..|samples| - 1], samples[|samples| - 1];
      SensePulses(clk, io, init);
      PulseCountAppend(SenseTrace(clk, io, init), SampleTrace(clk, io, b), clk);
      SampleTraceCollect(clk, io, b);
    }
  }

  lemma SenseCollect(clk: Pin, io: Pin, samples: seq<bool>)
    ensures Driven(SenseTrace(clk, io, samples), io) == PulseWrites(clk, io, |samples|)
    ensures Sampled(SenseTrace(clk, io, samples), io) == samples
    ensures PulseCount(SenseTrace(clk, io, samples), clk) == |samples|
  {
    SenseDriven(clk, io, samples);
    SenseSampled(clk, io, samples);
    SensePulses(clk, io, samples);
  }

  /** readBits shows the target one cycle per bit in which the target drives
      the sampled level, and leaves the host driving the line again. */
  lemma ReadCycles(clk: Pin, io: Pin, samples: seq<bool>, w: Wire)
    requires clk != io
    requires w.sampled.None?
    ensures Cycles(ReadTrace(clk, io, samples), w, clk, io) == Sense(samples)
    ensures Quiet(Run(ReadTrace(clk, io, samples), w, clk, io))
  {
    var release, body, take := [SetMode(io, InputPullup)], SenseTrace(clk, io, samples), [SetMode(io, Output)];
    OneEvent(SetMode(io, InputPullup), w, clk, io);
    OneEvent(SetMode(io, Output), w.(driving := false), clk, io);
    RunAppend(release, body, w, clk, io);
    RunAppend(release + body, take, w, clk, io);
    SenseCycles(clk, io, samples, w.(driving := false));
    SenseRun(clk, io, samples, w.(driving := false));
  }

  /** readBits clocks once per bit, never writes the data line (but for the
      pulses' own writes when the data pin is the clock pin), and records
      exactly the samples it returns. */
  lemma ReadCollect(clk: Pin, io: Pin, samples: seq<bool>)
    ensures Driven(ReadTrace(clk, io, samples), io) == PulseWrites(clk, io, |samples|)
    ensures Sampled(ReadTrace(clk, io, samples), io) == samples
    ensures PulseCount(ReadTrace(clk, io, samples), clk) == |samples|
  {
    ReadDriven(clk, io, samples);
    ReadSampled(clk, io, samples);
    ReadPulses(clk, io, samples);
  }

  lemma ReadDriven(clk: Pin, io: Pin, samples: seq<bool>)
    ensures Driven(ReadTrace(clk, io, samples), io) == PulseWrites(clk, io, |samples|)
  {
    var release, body, take := [SetMode(io, InputPullup)], SenseTrace(clk, io, samples), [SetMode(io, Output)];
    var w := Wire(true, true, None);
    assert Driven(release, io) == [] by { OneEvent(SetMode(io, InputPullup), w, clk, io); }
    assert Driven(take, io) == [] by { OneEvent(SetMode(io, Output), w, clk, io); }
    SenseDriven(clk, io, samples);
    DrivenAppend(release, body, io);
    DrivenAppend(release + body, take, io);
  }

  lemma ReadSampled(clk: Pin, io: Pin, samples: seq<bool>)
    ensures Sampled(ReadTrace(clk, io, samples), io) == samples
  {
    var release, body, take := [SetMode(io, InputPullup)], SenseTrace(clk, io, samples), [SetMode(io, Output)];
    var w := Wire(true, true, None);
    assert Sampled(release, io) == [] by { OneEvent(SetMode(io, InputPullup), w, clk, io); }
    assert Sampled(take, io) == [] by { OneEvent(SetMode(io, Output), w, clk, io); }
    SenseSampled(clk, io, samples);
    SampledAppend(release, body, io);
    SampledAppend(release + body, take, io);
  }

  lemma ReadPulses(clk: Pin, io: Pin, samples: seq<bool>)
    ensures PulseCount(ReadTrace(clk, io, samples), clk) == |samples|
  {
    var release, body, take := [SetMode(io, InputPullup)], SenseTrace(clk, io, samples), [SetMode(io, Output)];
    var w := Wire(true, true, None);
    assert PulseCount(release, clk) == 0 by { OneEvent(SetMode(io, InputPullup), w, clk, io); }
    assert PulseCount(take, clk) == 0 by { OneEvent(SetMode(io, Output), w, clk, io); }
    SensePulses(clk, io, samples);
    PulseCountAppend(release, body, clk);
    PulseCountAppend(release + body, take, clk);
  }

  /** A turnaround is one cycle in which nobody is sampled, and it leaves
      the line released. */
  lemma TurnCycles(clk: Pin, io: Pin, w: Wire)
    requires clk != io
    requires w.sampled.None?
    ensures Cycles(TurnTrace(clk, io), w, clk, io) == [Turn]
    ensures Run(TurnTrace(clk, io), w, clk, io) == w.(driving := false)
    ensures PulseCount(TurnTrace(clk, io), clk) == 1
  {
    TwoEvents(SetMode(io, InputPullup), Pulse(clk), w, clk, io);
  }

  // ---------------------------------------------------------------------
  // The pins the driver touches

  /** writeBits touches the clock pin and the data pin and no other. */
  lemma {:induction false} WriteOnPins(clk: Pin, io: Pin, v: nat, n: nat)
    ensures OnPins(WriteTrace(clk, io, v, n), clk, io)
  {
    if n > 0 {
      WriteOnPins(clk, io, v, n - 1);
      OnPinsAppend(WriteTrace(clk, io, v, n - 1), BitTrace(clk, io, Bit(v, n - 1)), clk, io);
    }
  }

  lemma {:induction false} SenseOnPins(clk: Pin, io: Pin, samples: seq<bool>)
    ensures OnPins(SenseTrace(clk, io, samples), clk, io)
  {
    if |samples| > 0 {
      var init := samples[..|samples| - 1];
      SenseOnPins(clk, io, init);
      OnPinsAppend(SenseTrace(clk, io, init), SampleTrace(clk, io, samples[|samples| - 1]), clk, io);
    }
  }

  /** resetLine, turnaround and readBits touch the clock pin and the data
      pin and no other. */
  lemma DriverOnPins(clk: Pin, io: Pin, samples: seq<bool>)
    ensures OnPins(ResetTrace(clk, io), clk, io)
    ensures OnPins(TurnTrace(clk, io), clk, io)
    ensures OnPins(ReadTrace(clk, io, samples), clk, io)
  {
    var release, body := [SetMode(io, InputPullup)], SenseTrace(clk, io, samples);
    SenseOnPins(clk, io, samples);
    OnPinsAppend(release, body, clk, io);
    OnPinsAppend(release + body, [SetMode(io, Output)], clk, io);
  }

  // ---------------------------------------------------------------------
  // Writing into a loopback and reading back

  lemma {:induction false} SenseLength(clk: Pin, io: Pin, samples: seq<bool>)
    ensures |SenseTrace(clk, io, samples)| == 2 * |samples|
  {
    if |samples| > 0 {
      SenseLength(clk, io, samples[..|samples| - 1]);
    }
  }

  /** The k-th sample of the read loop is its event 2k, after k rounds. */
  lemma {:induction false} SenseTraceAt(clk: Pin, io: Pin, samples: seq<bool>, k: nat)
    requires k < |samples|
    ensures 2 * k < |SenseTrace(clk, io, samples)|
    ensures SenseTrace(clk, io, samples)[2 * k] == Sample(io, samples[k])
    ensures SenseTrace(clk, io, samples)[..2 * k] == SenseTrace(clk, io, samples[..k])
  {
    var init := samples[..|samples| - 1];
    var a := SenseTrace(clk, io, init);
    SenseLength(clk, io, init);
    SenseLength(clk, io, samples);
    assert SenseTrace(clk, io, samples) == a + SampleTrace(clk, io, samples[|samples| - 1]);
    if k < |init| {
      SenseTraceAt(clk, io, init, k);
      assert init[..k] == samples[..k];
      assert (a + SampleTrace(clk, io, samples[|samples| - 1]))[..2 * k] == a[..2 * k];
    } else {
      assert init == samples[..k];
      assert (a + SampleTrace(clk, io, samples[|samples| - 1]))[..2 * k] == a;
    }
  }

  /** After a balanced history, writing v and then sampling k bits leaves
      the loopback echoing bit k of v. */
  lemma LoopbackEcho(t0: seq<Event>, clk: Pin, io: Pin, v: nat, n: nat, samples: seq<bool>, k: nat)
    requires clk != io
    requires |Driven(t0, io)| == |Sampled(t0, io)|
    requires k < n && k <= |samples|
    ensures Loopback(t0 + WriteTrace(clk, io, v, n) + [SetMode(io, InputPullup)] + SenseTrace(clk, io, samples[..k]), io)
         == Bit(v, k)
  {
    var w, r, s := WriteTrace(clk, io, v, n), [SetMode(io, InputPullup)], SenseTrace(clk, io, samples[..k]);
    var p := t0 + w + r + s;
    var q := Wire(true, true, None);
    WriteCollect(clk, io, v, n);
    SenseCollect(clk, io, samples[..k]);
    OneEvent(SetMode(io, InputPullup), q, clk, io);
    CollectAppend3(t0, w, r, s, io);
    assert Driven(p, io) == Driven(t0, io) + BitsOf(v, n);
    assert |Sampled(p, io)| == |Sampled(t0, io)| + k;
    assert Driven(p, io)[|Sampled(p, io)|] == BitsOf(v, n)[k];
  }

  /** Over a loopback, the samples of readBits after writeBits(v, n) are the
      n bits of v, least significant first. */
  lemma LoopbackReadsBack(t0: seq<Event>, clk: Pin, io: Pin, v: nat, n: nat, samples: seq<bool>)
    requires clk != io
    requires |Driven(t0, io)| == |Sampled(t0, io)|
    requires |samples| == n
    requires Legal(Loopback, t0 + WriteTrace(clk, io, v, n) + ReadTrace(clk, io, samples))
    ensures samples == BitsOf(v, n)
  {
    forall k | 0 <= k < n
      ensures samples[k] == Bit(v, k)
    {
      LoopbackSampleAt(t0, clk, io, v, n, samples, k);
    }
  }

  lemma LoopbackSampleAt(t0: seq<Event>, clk: Pin, io: Pin, v: nat, n: nat, samples: seq<bool>, k: nat)
    requires clk != io
    requires |Driven(t0, io)| == |Sampled(t0, io)|
    requires |samples| == n && k < n
    requires Legal(Loopback, t0 + WriteTrace(clk, io, v, n) + ReadTrace(clk, io, samples))
    ensures samples[k] == Bit(v, k)
  {
    var a := t0 + WriteTrace(clk, io, v, n);
    SenseTraceAt(clk, io, samples, k);
    Bracket(a, SetMode(io, InputPullup), SenseTrace(clk, io, samples), SetMode(io, Output),
      2 * k, SenseTrace(clk, io, samples[..k]), Sample(io, samples[k]));
    LoopbackEcho(t0, clk, io, v, n, samples, k);
  }

  /** Position j of body inside a + ([s] + body + [o]). */
  lemma Bracket(a: seq<Event>, s: Event, body: seq<Event>, o: Event, j: nat, pre: seq<Event>, e: Event)
    requires j < |body| && body[j] == e && body[..j] == pre
    ensures |a| + 1 + j < |a + ([s] + body + [o])|
    ensures (a + ([s] + body + [o]))[|a| + 1 + j] == e
    ensures (a + ([s] + body + [o]))[..|a| + 1 + j] == a + [s] + pre
  {
    var t := a + ([s] + body + [o]);
    assert t[..|a| + 1 + j] == a + [s] + body[..j];
  }

  /** Hence writing v < 2^n and reading n bits back into a cleared buffer
      gives v again. */
  lemma LoopbackRoundTrip(t0: seq<Event>, clk: Pin, io: Pin, v: nat, n: nat, samples: seq<bool>)
    requires clk != io
    requires v < Pow2(n)
    requires |Driven(t0, io)| == |Sampled(t0, io)|
    requires |samples| == n
    requires Legal(Loopback, t0 + WriteTrace(clk, io, v, n) + ReadTrace(clk, io, samples))
    ensures FromBits(samples) == v
  {
    LoopbackReadsBack(t0, clk, io, v, n, samples);
    FromBitsOfBits(v, n);
  }
}
