/** The protocol sequencer: the JTAG-to-SWD switch and the ID-code read as
    compositions of link-driver traces, and what the target sees of them. */
module Sequencer {
  import opened Bits
  import opened Gpio
  import opened Link

  /** The 16-bit JTAG-to-SWD select sequence of the SWJ-DP (ARM Debug
      Interface Architecture Specification ADIv5, SWJ-DP chapter),
      transmitted least significant bit first. */
  const JtagToSwd: nat := 0xE79E
  /** The idle (LOW) bits written after the second line reset. */
  const IdleBits: nat := 4
  /** The SWD read request for the DP register at address 0 (DPIDR). */
  const ReadIdCodeRequest: nat := 0xA5
  /** The LOW bits written after the transaction. */
  const TrailingBits: nat := 8

  /** switchJtagToSwd: line reset, select sequence, line reset, idle bits. */
  function SwitchTrace(clk: Pin, io: Pin): seq<Event>
  {
    ResetTrace(clk, io) + WriteTrace(clk, io, JtagToSwd, 16)
      + ResetTrace(clk, io) + WriteTrace(clk, io, 0, IdleBits)
  }

  /** readIdCode, when the target answers samples: request, turnaround,
      response, turnaround, take the line back, trailing LOW bits. */
  function IdCodeTrace(clk: Pin, io: Pin, samples: seq<bool>): seq<Event>
  {
    WriteTrace(clk, io, ReadIdCodeRequest, 8) + TurnTrace(clk, io)
      + ReadTrace(clk, io, samples) + TurnTrace(clk, io)
      + [SetMode(io, Output)] + WriteTrace(clk, io, 0, TrailingBits)
  }

  /** The bits of the switch sequence as the target must see them. */
  function SwitchBits(): seq<bool>
  {
    Repeat(true, ResetSequenceLength) + BitsOf(JtagToSwd, 16)
      + Repeat(true, ResetSequenceLength) + Repeat(false, IdleBits)
  }

  /** The cycles of an ID-code read as the target must see them. */
  function IdCodeCycles(samples: seq<bool>): seq<Cycle>
  {
    Drive(BitsOf(ReadIdCodeRequest, 8)) + [Turn] + Sense(samples) + [Turn]
      + Drive(Repeat(false, TrailingBits))
  }

  // ---------------------------------------------------------------------
  // The constants, bit by bit

  lemma {:induction false} BitsOfHalf(v: nat, n: nat)
    requires n > 0
    ensures BitsOf(v, n) == [v % 2 == 1] + BitsOf(v / 2, n - 1)
  {
    assert forall i :: 0 < i < n ==> Bit(v, i) == Bit(v / 2, i - 1);
  }

  lemma {:induction false} ZeroBitsOf(n: nat)
    ensures BitsOf(0, n) == Repeat(false, n)
  {
    forall i | 0 <= i < n
      ensures BitsOf(0, n)[i] == Repeat(false, n)[i]
    {
      ZeroBits(i);
    }
  }

  /** The select sequence on the wire, first bit first: 0111 1001 1110 0111. */
  lemma JtagToSwdOnTheWire()
    ensures BitsOf(JtagToSwd, 16)
         == [false, true, true, true, true, false, false, true,
             true, true, true, false, false, true, true, true]
  {
    Pow2Values();
    BitsOfSplit(JtagToSwd, 8, 8);
    AndLowMaskIsMod(JtagToSwd, 8);
    ShrIsDiv(JtagToSwd, 8);
    assert JtagToSwd % 0x100 == 0x9E && JtagToSwd / 0x100 == 0xE7;
    JtagToSwdLowByte();
    JtagToSwdHighByte();
  }

  /** Its low byte 0x9E, first bit first. */
  lemma JtagToSwdLowByte()
    ensures BitsOf(0x9E, 8) == [false, true, true, true, true, false, false, true]
  {
    var b := [false, true, true, true, true, false, false, true];
    assert BitsOf(0x1, 1) == b[7..] by { BitsOfHalf(0x1, 1); }
    assert BitsOf(0x2, 2) == b[6..] by { BitsOfHalf(0x2, 2); }
    assert BitsOf(0x4, 3) == b[5..] by { BitsOfHalf(0x4, 3); }
    assert BitsOf(0x9, 4) == b[4..] by { BitsOfHalf(0x9, 4); }
    assert BitsOf(0x13, 5) == b[3..] by { BitsOfHalf(0x13, 5); }
    assert BitsOf(0x27, 6) == b[2..] by { BitsOfHalf(0x27, 6); }
    assert BitsOf(0x4F, 7) == b[1..] by { BitsOfHalf(0x4F, 7); }
    assert BitsOf(0x9E, 8) == b by { BitsOfHalf(0x9E, 8); }
  }

  /** Its high byte 0xE7, first bit first. */
  lemma JtagToSwdHighByte()
    ensures BitsOf(0xE7, 8) == [true, true, true, false, false, true, true, true]
  {
    var c := [true, true, true, false, false, true, true, true];
    assert BitsOf(0x1, 1) == c[7..] by { BitsOfHalf(0x1, 1); }
    assert BitsOf(0x3, 2) == c[6..] by { BitsOfHalf(0x3, 2); }
    assert BitsOf(0x7, 3) == c[5..] by { BitsOfHalf(0x7, 3); }
    assert BitsOf(0xE, 4) == c[4..] by { BitsOfHalf(0xE, 4); }
    assert BitsOf(0x1C, 5) == c[3..] by { BitsOfHalf(0x1C, 5); }
    assert BitsOf(0x39, 6) == c[2..] by { BitsOfHalf(0x39, 6); }
    assert BitsOf(0x73, 7) == c[1..] by { BitsOfHalf(0x73, 7); }
    assert BitsOf(0xE7, 8) == c by { BitsOfHalf(0xE7, 8); }
  }

  /** The request on the wire: start 1, APnDP 0 (DP), RnW 1 (read),
      A[2:3] 00 (address 0), parity 1, stop 0, park 1. */
  lemma ReadIdCodeRequestOnTheWire()
    ensures BitsOf(ReadIdCodeRequest, 8) == [true, false, true, false, false, true, false, true]
  {
    var b := [true, false, true, false, false, true, false, true];
    assert BitsOf(0x1, 1) == b[7..] by { BitsOfHalf(0x1, 1); }
    assert BitsOf(0x2, 2) == b[6..] by { BitsOfHalf(0x2, 2); }
    assert BitsOf(0x5, 3) == b[5..] by { BitsOfHalf(0x5, 3); }
    assert BitsOf(0xA, 4) == b[4..] by { BitsOfHalf(0xA, 4); }
    assert BitsOf(0x14, 5) == b[3..] by { BitsOfHalf(0x14, 5); }
    assert BitsOf(0x29, 6) == b[2..] by { BitsOfHalf(0x29, 6); }
    assert BitsOf(0x52, 7) == b[1..] by { BitsOfHalf(0x52, 7); }
    assert BitsOf(0xA5, 8) == b by { BitsOfHalf(0xA5, 8); }
  }

  /** The request is a well-formed SWD packet header: start and park HIGH,
      stop LOW, and the parity bit makes APnDP, RnW, A2, A3 and itself even. */
  lemma ReadIdCodeRequestWellFormed()
    ensures var r := BitsOf(ReadIdCodeRequest, 8);
      r[0] && !r[6] && r[7]
      && (if r[1] then 1 else 0) + (if r[2] then 1 else 0) + (if r[3] then 1 else 0)
         + (if r[4] then 1 else 0) + (if r[5] then 1 else 0) == 2
  {
    ReadIdCodeRequestOnTheWire();
  }

  // ---------------------------------------------------------------------
  // switchJtagToSwd

  /** The target sees 64 HIGH cycles, the select sequence least significant
      bit first, 64 HIGH cycles and 4 LOW cycles: 148 cycles in all. */
  lemma SwitchCycles(clk: Pin, io: Pin, w: Wire)
    requires clk != io
    requires Quiet(w)
    ensures Cycles(SwitchTrace(clk, io), w, clk, io) == Drive(SwitchBits())
    ensures Quiet(Run(SwitchTrace(clk, io), w, clk, io))
  {
    var r, s, z := ResetTrace(clk, io), WriteTrace(clk, io, JtagToSwd, 16), WriteTrace(clk, io, 0, IdleBits);
    var w1 := Run(r, w, clk, io);
    var w2 := Run(s, w1, clk, io);
    var w3 := Run(r, w2, clk, io);
    ResetCycles(clk, io, w);
    WriteCycles(clk, io, JtagToSwd, 16, w1);
    ResetCycles(clk, io, w2);
    WriteCycles(clk, io, 0, IdleBits, w3);
    ZeroBitsOf(IdleBits);
    RunAppend(r, s, w, clk, io);
    RunAppend(r + s, r, w, clk, io);
    RunAppend(r + s + r, z, w, clk, io);
    ConcatDrive4(Repeat(true, ResetSequenceLength), BitsOf(JtagToSwd, 16),
                 Repeat(true, ResetSequenceLength), Repeat(false, IdleBits));
  }

  /** The switch sequence is 148 clock cycles: 64, 16, 64 and 4. */
  lemma SwitchPulses(clk: Pin, io: Pin)
    ensures PulseCount(SwitchTrace(clk, io), clk) == 148
  {
    var r, s, z := ResetTrace(clk, io), WriteTrace(clk, io, JtagToSwd, 16), WriteTrace(clk, io, 0, IdleBits);
    ResetShape(clk, io);
    WritePulses(clk, io, JtagToSwd, 16);
    WritePulses(clk, io, 0, IdleBits);
    PulseCountAppend(r, s, clk);
    PulseCountAppend(r + s, r, clk);
    PulseCountAppend(r + s + r, z, clk);
  }

  /** The switch sequence only drives the data line, it never samples it. */
  lemma SwitchSampled(clk: Pin, io: Pin)
    ensures Sampled(SwitchTrace(clk, io), io) == []
  {
    var r, s, z := ResetTrace(clk, io), WriteTrace(clk, io, JtagToSwd, 16), WriteTrace(clk, io, 0, IdleBits);
    ResetShape(clk, io);
    WriteSampled(clk, io, JtagToSwd, 16);
    WriteSampled(clk, io, 0, IdleBits);
    SampledAppend(r, s, io);
    SampledAppend(r + s, r, io);
    SampledAppend(r + s + r, z, io);
  }

  lemma ConcatDrive4(a: seq<bool>, b: seq<bool>, c: seq<bool>, d: seq<bool>)
    ensures Drive(a + b + c + d) == Drive(a) + Drive(b) + Drive(c) + Drive(d)
  {
  }

  /** switchJtagToSwd touches the clock pin and the data pin and no other. */
  lemma SwitchOnPins(clk: Pin, io: Pin)
    ensures OnPins(SwitchTrace(clk, io), clk, io)
  {
    var r, s, z := ResetTrace(clk, io), WriteTrace(clk, io, JtagToSwd, 16), WriteTrace(clk, io, 0, IdleBits);
    DriverOnPins(clk, io, []);
    WriteOnPins(clk, io, JtagToSwd, 16);
    WriteOnPins(clk, io, 0, IdleBits);
    OnPinsAppend(r, s, clk, io);
    OnPinsAppend(r + s, r, clk, io);
    OnPinsAppend(r + s + r, z, clk, io);
  }

  // ---------------------------------------------------------------------
  // readIdCode

  /** The request, the first turnaround and the response. */
  lemma IdCodeFront(clk: Pin, io: Pin, samples: seq<bool>, w: Wire)
    requires clk != io
    requires Quiet(w)
    ensures var t := WriteTrace(clk, io, ReadIdCodeRequest, 8) + TurnTrace(clk, io) + ReadTrace(clk, io, samples);
      Cycles(t, w, clk, io) == Drive(BitsOf(ReadIdCodeRequest, 8)) + [Turn] + Sense(samples)
      && Quiet(Run(t, w, clk, io))
  {
    var req, turn, read := WriteTrace(clk, io, ReadIdCodeRequest, 8), TurnTrace(clk, io), ReadTrace(clk, io, samples);
    var c1, c3 := Drive(BitsOf(ReadIdCodeRequest, 8)), Sense(samples);
    var w1 := Run(req, w, clk, io);
    assert Cycles(req, w, clk, io) == c1 && Quiet(w1) by {
      WriteCycles(clk, io, ReadIdCodeRequest, 8, w);
    }
    var w2 := w1.(driving := false);
    assert Cycles(turn, w1, clk, io) == [Turn] && Run(turn, w1, clk, io) == w2 by {
      TurnCycles(clk, io, w1);
    }
    var w3 := Run(read, w2, clk, io);
    assert Cycles(read, w2, clk, io) == c3 && Quiet(w3) by {
      ReadCycles(clk, io, samples, w2);
    }
    Then(req, turn, w, clk, io, c1, w1, [Turn], w2);
    Then(req + turn, read, w, clk, io, c1 + [Turn], w2, c3, w3);
  }

  /** The second turnaround, taking the line back, and the trailing bits. */
  lemma IdCodeBack(clk: Pin, io: Pin, w: Wire)
    requires clk != io
    requires Quiet(w)
    ensures var t := TurnTrace(clk, io) + [SetMode(io, Output)] + WriteTrace(clk, io, 0, TrailingBits);
      Cycles(t, w, clk, io) == [Turn] + Drive(Repeat(false, TrailingBits))
      && Quiet(Run(t, w, clk, io))
  {
    var turn, take, park := TurnTrace(clk, io), [SetMode(io, Output)], WriteTrace(clk, io, 0, TrailingBits);
    var c6 := Drive(Repeat(false, TrailingBits));
    var w4 := w.(driving := false);
    assert Cycles(turn, w, clk, io) == [Turn] && Run(turn, w, clk, io) == w4 by {
      TurnCycles(clk, io, w);
    }
    var w5 := w4.(driving := true);
    assert Cycles(take, w4, clk, io) == [] && Run(take, w4, clk, io) == w5 by {
      OneEvent(SetMode(io, Output), w4, clk, io);
    }
    var w6 := Run(park, w5, clk, io);
    assert Cycles(park, w5, clk, io) == c6 && Quiet(w6) by {
      WriteCycles(clk, io, 0, TrailingBits, w5);
      ZeroBitsOf(TrailingBits);
    }
    Then(turn, take, w, clk, io, [Turn], w4, [], w5);
    Then(turn + take, park, w, clk, io, [Turn] + [], w5, c6, w6);
  }

  /** The target sees the 8 request bits, a turnaround, one cycle per
      response bit it drives, a turnaround and 8 LOW cycles. The host drives
      the line again afterwards. */
  lemma IdCodeCyclesHold(clk: Pin, io: Pin, samples: seq<bool>, w: Wire)
    requires clk != io
    requires Quiet(w)
    ensures Cycles(IdCodeTrace(clk, io, samples), w, clk, io) == IdCodeCycles(samples)
    ensures Quiet(Run(IdCodeTrace(clk, io, samples), w, clk, io))
  {
    var front := WriteTrace(clk, io, ReadIdCodeRequest, 8) + TurnTrace(clk, io) + ReadTrace(clk, io, samples);
    var back := TurnTrace(clk, io) + [SetMode(io, Output)] + WriteTrace(clk, io, 0, TrailingBits);
    assert IdCodeTrace(clk, io, samples) == front + back;
    var cf, cb := Drive(BitsOf(ReadIdCodeRequest, 8)) + [Turn] + Sense(samples), [Turn] + Drive(Repeat(false, TrailingBits));
    var wf := Run(front, w, clk, io);
    IdCodeFront(clk, io, samples, w);
    IdCodeBack(clk, io, wf);
    Then(front, back, w, clk, io, cf, wf, cb, Run(back, wf, clk, io));
    assert cf + cb == IdCodeCycles(samples);
  }

  /** 54 clock cycles for a 36-bit response. */
  lemma IdCodePulses(clk: Pin, io: Pin, samples: seq<bool>)
    ensures PulseCount(IdCodeTrace(clk, io, samples), clk) == 18 + |samples|
  {
    var req, turn, read := WriteTrace(clk, io, ReadIdCodeRequest, 8), TurnTrace(clk, io), ReadTrace(clk, io, samples);
    var take, park := [SetMode(io, Output)], WriteTrace(clk, io, 0, TrailingBits);
    var w := Wire(true, true, None);
    WritePulses(clk, io, ReadIdCodeRequest, 8);
    WritePulses(clk, io, 0, TrailingBits);
    ReadPulses(clk, io, samples);
    TwoEvents(SetMode(io, InputPullup), Pulse(clk), w, clk, io);
    OneEvent(SetMode(io, Output), w, clk, io);
    PulseCountAppend(req, turn, clk);
    PulseCountAppend(req + turn, read, clk);
    PulseCountAppend(req + turn + read, turn, clk);
    PulseCountAppend(req + turn + read + turn, take, clk);
    PulseCountAppend(req + turn + read + turn + take, park, clk);
  }

  lemma IdCodeSampled(clk: Pin, io: Pin, samples: seq<bool>)
    ensures Sampled(IdCodeTrace(clk, io, samples), io) == samples
  {
    var req, turn, read := WriteTrace(clk, io, ReadIdCodeRequest, 8), TurnTrace(clk, io), ReadTrace(clk, io, samples);
    var take, park := [SetMode(io, Output)], WriteTrace(clk, io, 0, TrailingBits);
    var w := Wire(true, true, None);
    assert Sampled(req, io) == [] by { WriteSampled(clk, io, ReadIdCodeRequest, 8); }
    assert Sampled(park, io) == [] by { WriteSampled(clk, io, 0, TrailingBits); }
    assert Sampled(read, io) == samples by { ReadSampled(clk, io, samples); }
    assert Sampled(turn, io) == [] by { TwoEvents(SetMode(io, InputPullup), Pulse(clk), w, clk, io); }
    assert Sampled(take, io) == [] by { OneEvent(SetMode(io, Output), w, clk, io); }
    SampledAppend(req, turn, io);
    SampledAppend(req + turn, read, io);
    SampledAppend(req + turn + read, turn, io);
    SampledAppend(req + turn + read + turn, take, io);
    SampledAppend(req + turn + read + turn + take, park, io);
  }

  /** readIdCode touches the clock pin and the data pin and no other. */
  lemma IdCodeOnPins(clk: Pin, io: Pin, samples: seq<bool>)
    ensures OnPins(IdCodeTrace(clk, io, samples), clk, io)
  {
    var req, turn, read := WriteTrace(clk, io, ReadIdCodeRequest, 8), TurnTrace(clk, io), ReadTrace(clk, io, samples);
    var take, park := [SetMode(io, Output)], WriteTrace(clk, io, 0, TrailingBits);
    WriteOnPins(clk, io, ReadIdCodeRequest, 8);
    WriteOnPins(clk, io, 0, TrailingBits);
    DriverOnPins(clk, io, samples);
    OnPinsAppend(req, turn, clk, io);
    OnPinsAppend(req + turn, read, clk, io);
    OnPinsAppend(req + turn + read, turn, clk, io);
    OnPinsAppend(req + turn + read + turn, take, clk, io);
    OnPinsAppend(req + turn + read + turn + take, park, clk, io);
  }
}
