/** The probe itself: its global settings as the fields of one object, the
    pins it drives, and every routine of the link driver, the sequencer and
    the scanner as a method that appends to the recorded trace of pin
    events. The attached hardware is the line the object is built with. */
module SwdProbe {
  import opened Bits
  import opened Gpio
  import opened Link
  import opened Sequencer
  import opened IdCode
  import opened Scan

  /** A byte as readCliByte returns it from the serial line. */
  type Byte = b: nat | b < 256

  /** The default pin mask 0b11100: pins 2, 3 and 4. */
  const DefaultPinMask: Mask := 0x1C

  class Probe {
    /** pin_mask: bit n enables pin n for the scan. */
    var pinMask: Mask
    /** pin_max: the scan tries pins below it. */
    var pinMax: Pin
    /** swclk_pin and swdio_pin: the pair the driver works on. */
    var swclkPin: Pin
    var swdioPin: Pin
    /** break_on_hit: stop the scan at the first target found. */
    var breakOnHit: bool
    /** Everything done to the pins so far. */
    var trace: seq<Event>
    /** The hardware on the pins: what digitalRead returns. */
    const line: Line

    /** pin_max follows pin_mask, and every sample in the trace is what the
        hardware showed at that moment. */
    ghost predicate Valid()
      reads this
    {
      pinMax == MaxPin(pinMask) && Legal(line, trace)
    }

    /** The static initialisers, and setup() computing pin_max. */
    constructor (line: Line)
      ensures Valid()
      ensures pinMask == DefaultPinMask && pinMax == 5
      ensures swclkPin == 2 && swdioPin == 3 && !breakOnHit
      ensures trace == [] && this.line == line
    {
      var max := GetMaxPinFromMask(DefaultPinMask);
      pinMask := DefaultPinMask;
      pinMax := max;
      swclkPin := 2;
      swdioPin := 3;
      breakOnHit := false;
      trace := [];
      this.line := line;
      DefaultMaxPin();
    }

    // -------------------------------------------------------------------
    // The Arduino pin functions, recorded

    method PinMode(pin: Pin, mode: Mode)
      requires Valid()
      modifies this`trace
      ensures trace == old(trace) + [SetMode(pin, mode)]
      ensures Valid()
    {
      LegalAppend(line, trace, SetMode(pin, mode));
      trace := trace + [SetMode(pin, mode)];
    }

    method DigitalWrite(pin: Pin, level: bool)
      requires Valid()
      modifies this`trace
      ensures trace == old(trace) + [Write(pin, level)]
      ensures Valid()
    {
      LegalAppend(line, trace, Write(pin, level));
      trace := trace + [Write(pin, level)];
    }

    method DigitalRead(pin: Pin) returns (level: bool)
      requires Valid()
      modifies this`trace
      ensures level == line(old(trace), pin)
      ensures trace == old(trace) + [Sample(pin, level)]
      ensures Valid()
    {
      level := line(trace, pin);
      LegalAppend(line, trace, Sample(pin, level));
      trace := trace + [Sample(pin, level)];
    }

    // -------------------------------------------------------------------
    // The link driver

    /** setupMasterWrite: the host drives the data line. */
    method SetupMasterWrite()
      requires Valid()
      modifies this`trace
      ensures trace == old(trace) + [SetMode(swdioPin, Output)]
      ensures Valid()
    {
      PinMode(swdioPin, Output);
    }

    /** setupMasterRead: the host releases the data line to its pull-up. */
    method SetupMasterRead()
      requires Valid()
      modifies this`trace
      ensures trace == old(trace) + [SetMode(swdioPin, InputPullup)]
      ensures Valid()
    {
      PinMode(swdioPin, InputPullup);
    }

    /** setupPins: both lines become outputs, data line first. */
    method SetupPins()
      requires Valid()
      modifies this`trace
      ensures trace == old(trace) + [SetMode(swdioPin, Output), SetMode(swclkPin, Output)]
      ensures Valid()
    {
      PinMode(swdioPin, Output);
      PinMode(swclkPin, Output);
    }

    /** resetPins: both lines become plain inputs, data line first. */
    method ResetPins()
      requires Valid()
      modifies this`trace
      ensures trace == old(trace) + [SetMode(swdioPin, Input), SetMode(swclkPin, Input)]
      ensures Valid()
    {
      PinMode(swdioPin, Input);
      PinMode(swclkPin, Input);
    }

    /** setPins: choose the pair to work on. */
    method SetPins(clk: Pin, io: Pin)
      modifies this`swclkPin, this`swdioPin
      ensures swclkPin == clk && swdioPin == io
    {
      swclkPin := clk;
      swdioPin := io;
    }

    /** pulseClock: one clock cycle, LOW then HIGH. */
    method PulseClock()
      requires Valid()
      modifies this`trace
      ensures trace == old(trace) + [Pulse(swclkPin)]
      ensures Valid()
    {
      LegalAppend(line, trace, Pulse(swclkPin));
      trace := trace + [Pulse(swclkPin)];
    }

    /** resetLine: data line HIGH, then 64 clock cycles. */
    method ResetLine()
      requires Valid()
      modifies this`trace
      ensures trace == old(trace) + ResetTrace(swclkPin, swdioPin)
      ensures Valid()
    {
      DigitalWrite(swdioPin, true);
      for i := 0 to ResetSequenceLength
        invariant trace == old(trace) + [Write(swdioPin, true)] + Pulses(swclkPin, i)
        invariant Valid()
      {
        PulseClock();
        assert Pulses(swclkPin, i + 1) == Pulses(swclkPin, i) + [Pulse(swclkPin)];
      }
    }

    /** writeBit: put the level on the data line, then clock it. */
    method WriteBit(level: bool)
      requires Valid()
      modifies this`trace
      ensures trace == old(trace) + BitTrace(swclkPin, swdioPin, level)
      ensures Valid()
    {
      DigitalWrite(swdioPin, level);
      PulseClock();
    }

    /** writeBits: the length low bits of value, least significant first. */
    method WriteBits(value: nat, length: nat)
      requires Valid()
      modifies this`trace
      ensures trace == old(trace) + WriteTrace(swclkPin, swdioPin, value, length)
      ensures Valid()
    {
      for i := 0 to length
        invariant trace == old(trace) + WriteTrace(swclkPin, swdioPin, value, i)
        invariant Valid()
      {
        WriteBit(Bit(value, i));
      }
    }

    /** readBits: release the line, then for each bit sample it into the
        buffer and clock; take the line back. Bit i of the result is the
        i-th sample below length, and the old buffer's bit from there on. */
    method ReadBits(value: nat, length: nat) returns (r: nat, samples: seq<bool>)
      requires Valid()
      modifies this`trace
      ensures |samples| == length
      ensures trace == old(trace) + ReadTrace(swclkPin, swdioPin, samples)
      ensures r == Splice(value, samples)
      ensures forall j: nat :: Bit(r, j) == if j < length then samples[j] else Bit(value, j)
      ensures Valid()
    {
      SetupMasterRead();
      r, samples := value, [];
      for i := 0 to length
        invariant |samples| == i
        invariant trace == old(trace) + [SetMode(swdioPin, InputPullup)] + SenseTrace(swclkPin, swdioPin, samples)
        invariant r == Splice(value, samples)
        invariant Valid()
      {
        var level := DigitalRead(swdioPin);
        r := SetBit(r, i, level);
        PulseClock();
        SenseStep(old(trace) + [SetMode(swdioPin, InputPullup)], swclkPin, swdioPin, value, samples, level);
        samples := samples + [level];
      }
      SetupMasterWrite();
      forall j: nat
        ensures Bit(r, j) == if j < length then samples[j] else Bit(value, j)
      {
        SpliceBit(value, samples, j);
      }
    }

    /** turnaround: release the line and clock once. */
    method Turnaround()
      requires Valid()
      modifies this`trace
      ensures trace == old(trace) + TurnTrace(swclkPin, swdioPin)
      ensures Valid()
    {
      SetupMasterRead();
      PulseClock();
    }

    // -------------------------------------------------------------------
    // The sequencer

    /** switchJtagToSwd: reset, select sequence, reset, idle bits. */
    method SwitchJtagToSwd()
      requires Valid()
      modifies this`trace
      ensures trace == old(trace) + SwitchTrace(swclkPin, swdioPin)
      ensures Valid()
    {
      var clk, io := swclkPin, swdioPin;
      ResetLine();
      WriteBits(JtagToSwd, 16);
      ResetLine();
      WriteBits(0x00, IdleBits);
      AppendPieces(old(trace), ResetTrace(clk, io), WriteTrace(clk, io, JtagToSwd, 16),
        ResetTrace(clk, io), WriteTrace(clk, io, 0, IdleBits), [], []);
    }

    /** readIdCode: the DPIDR read request, a turnaround, the 36-bit reply
        into buffer, a turnaround, the line taken back, 8 LOW bits. */
    method ReadIdCode(buffer: nat) returns (r: nat, samples: seq<bool>)
      requires Valid()
      modifies this`trace
      ensures |samples| == ReplyBits
      ensures trace == old(trace) + IdCodeTrace(swclkPin, swdioPin, samples)
      ensures r == Splice(buffer, samples)
      ensures Valid()
    {
      var clk, io := swclkPin, swdioPin;
      WriteBits(ReadIdCodeRequest, 8);
      Turnaround();
      r, samples := ReadBits(buffer, ReplyBits);
      Turnaround();
      SetupMasterWrite();
      WriteBits(0x00, TrailingBits);
      AppendPieces(old(trace), WriteTrace(clk, io, ReadIdCodeRequest, 8), TurnTrace(clk, io),
        ReadTrace(clk, io, samples), TurnTrace(clk, io), [SetMode(io, Output)], WriteTrace(clk, io, 0, TrailingBits));
    }

    // -------------------------------------------------------------------
    // The scanner

    /** testSwdLines: select the pair, run the switch sequence and the
        ID-code read into a cleared buffer, decide the match on it, and
        leave both pins as inputs. */
    method TestSwdLines(clk: Pin, io: Pin) returns (result: bool, samples: seq<bool>)
      requires Valid()
      modifies this`swclkPin, this`swdioPin, this`trace
      ensures swclkPin == clk && swdioPin == io
      ensures |samples| == ReplyBits
      ensures trace == old(trace) + AttemptTrace(clk, io, samples)
      ensures result == IsSwdTarget(FromBits(samples))
      ensures LastMode(trace, clk) == Some(Input) && LastMode(trace, io) == Some(Input)
      ensures Valid()
    {
      var readBuffer: nat := 0;
      SetPins(clk, io);
      SetupPins();
      SwitchJtagToSwd();
      readBuffer, samples := ReadIdCode(readBuffer);
      result := IsSwdTarget(readBuffer);
      ResetPins();
      AttemptPieces(old(trace), clk, io, samples);
      AttemptLeavesInputs(old(trace), clk, io, samples);
    }

    /** enumerateSwdLines: for every enabled clock pin below pin_max and
        every other enabled data pin below pin_max, in ascending order, test
        the pair; the result is whether any test hit, and with break_on_hit
        the scan ends at the first hit. */
    method EnumerateSwdLines() returns (result: bool, tested: seq<Attempt>)
      requires Valid()
      modifies this`swclkPin, this`swdioPin, this`trace
      ensures ScanOutcome(Candidates(pinMask, pinMax), breakOnHit, tested, result)
      ensures trace == old(trace) + AttemptsTrace(tested)
      ensures PinsOf(tested, (old(swclkPin), old(swdioPin)), (swclkPin, swdioPin))
      ensures Valid()
    {
      result, tested := false, [];
      ghost var segs: seq<seq<Event>> := [];
      var clk: nat := 0;
      while clk < pinMax
        invariant clk <= pinMax
        invariant Pairs(tested) == Rows(pinMask, pinMax, clk)
        invariant Scanning(tested, result) && (breakOnHit ==> !result)
        invariant trace == old(trace) + Concat(segs) && Recorded(segs, tested)
        invariant PinsOf(tested, (old(swclkPin), old(swdioPin)), (swclkPin, swdioPin))
        invariant Valid()
      {
        if !Bit(pinMask, clk) {
          StopPrefix(pinMask, pinMax, clk, 0);
          clk := clk + 1;
          continue;
        }
        result, tested, segs := ScanRow(clk, result, tested, old(trace), segs, (old(swclkPin), old(swdioPin)));
        if result && breakOnHit {
          RecordedTrace(segs, tested);
          return;
        }
        clk := clk + 1;
      }
      ScanCompleted(pinMask, pinMax, breakOnHit, tested, result);
      RecordedTrace(segs, tested);
    }

    /** The inner loop of enumerateSwdLines for the enabled clock pin clk:
        every other enabled data pin below pin_max, in ascending order.
        It either completes the row of clk or, with break_on_hit, stops at
        the first hit, which ends the whole scan. The trace so far is t0
        followed by the segments segs0, one per attempt. */
    method ScanRow(clk: Pin, result0: bool, tested0: seq<Attempt>,
                   ghost t0: seq<Event>, ghost segs0: seq<seq<Event>>, ghost pins0: (Pin, Pin))
        returns (result: bool, tested: seq<Attempt>, ghost segs: seq<seq<Event>>)
      requires Valid()
      requires clk < pinMax && Bit(pinMask, clk)
      requires Pairs(tested0) == Rows(pinMask, pinMax, clk)
      requires Scanning(tested0, result0) && (breakOnHit ==> !result0)
      requires trace == t0 + Concat(segs0) && Recorded(segs0, tested0)
      requires PinsOf(tested0, pins0, (swclkPin, swdioPin))
      modifies this`swclkPin, this`swdioPin, this`trace
      ensures Scanning(tested, result)
      ensures result && breakOnHit ==> ScanOutcome(Candidates(pinMask, pinMax), breakOnHit, tested, result)
      ensures !(result && breakOnHit) ==> Pairs(tested) == Rows(pinMask, pinMax, clk + 1)
      ensures trace == t0 + Concat(segs) && Recorded(segs, tested)
      ensures PinsOf(tested, pins0, (swclkPin, swdioPin))
      ensures Valid()
    {
      result, tested, segs := result0, tested0, segs0;
      ghost var mask, max := pinMask, pinMax;
      var io: nat := 0;
      while io < pinMax
        invariant io <= max
        invariant Pairs(tested) == Rows(mask, max, clk) + Row(mask, clk, io)
        invariant Scanning(tested, result) && (breakOnHit ==> !result)
        invariant trace == t0 + Concat(segs) && Recorded(segs, tested)
        invariant PinsOf(tested, pins0, (swclkPin, swdioPin))
        invariant Valid()
      {
        result, tested, segs := ScanPair(clk, io, result, tested, t0, segs, pins0);
        if result && breakOnHit {
          return;
        }
        io := io + 1;
      }
      RowDone(mask, max, clk, tested);
    }

    /** One step of the inner loop of enumerateSwdLines: skip io when it is
        disabled or is the clock pin, otherwise test the pair (clk, io) and
        OR its verdict into the result. */
    method ScanPair(clk: Pin, io: Pin, result0: bool, tested0: seq<Attempt>,
                    ghost t0: seq<Event>, ghost segs0: seq<seq<Event>>, ghost pins0: (Pin, Pin))
        returns (result: bool, tested: seq<Attempt>, ghost segs: seq<seq<Event>>)
      requires Valid()
      requires clk < pinMax && io < pinMax && Bit(pinMask, clk)
      requires Pairs(tested0) == Rows(pinMask, pinMax, clk) + Row(pinMask, clk, io)
      requires Scanning(tested0, result0) && (breakOnHit ==> !result0)
      requires trace == t0 + Concat(segs0) && Recorded(segs0, tested0)
      requires PinsOf(tested0, pins0, (swclkPin, swdioPin))
      modifies this`swclkPin, this`swdioPin, this`trace
      ensures if Bit(pinMask, io) && io != clk
        then |tested| == |tested0| + 1 && tested[..|tested0|] == tested0
          && tested[|tested0|].clk == clk && tested[|tested0|].io == io
        else tested == tested0 && result == result0 && trace == old(trace)
      ensures Pairs(tested) == Rows(pinMask, pinMax, clk) + Row(pinMask, clk, io + 1)
      ensures Scanning(tested, result)
      ensures result && breakOnHit ==> ScanOutcome(Candidates(pinMask, pinMax), breakOnHit, tested, result)
      ensures trace == t0 + Concat(segs) && Recorded(segs, tested)
      ensures PinsOf(tested, pins0, (swclkPin, swdioPin))
      ensures Valid()
    {
      if !Bit(pinMask, io) || io == clk {
        assert Row(pinMask, clk, io + 1) == Row(pinMask, clk, io);
        result, tested, segs := result0, tested0, segs0;
        return;
      }
      var hit, samples := TestSwdLines(clk, io);
      var a := Attempt(clk, io, samples);
      ScanStep(pinMask, pinMax, clk, io, breakOnHit, tested0, result0, a);
      RecordedSnoc(t0, segs0, tested0, a);
      tested := tested0 + [a];
      segs := segs0 + [AttemptTrace(clk, io, samples)];
      result := result0 || hit;
    }

    /** The menu's pin-mask setting: store the mask and recompute pin_max. */
    method SetPinMask(mask: Mask)
      requires Valid()
      modifies this`pinMask, this`pinMax
      ensures pinMask == mask && pinMax == MaxPin(mask)
      ensures Valid()
    {
      pinMask := mask;
      var max := GetMaxPinFromMask(mask);
      pinMax := max;
    }

    /** The menu's break-on-hit setting: the key typed, minus '0' as a byte,
        converted to bool, so every key but '0' turns it on. */
    method SetBreakOnHit(key: Byte)
      requires Valid()
      modifies this`breakOnHit
      ensures breakOnHit == (key != 0x30)
      ensures Valid()
    {
      var choice := (key - 0x30) % 256;
      breakOnHit := choice != 0;
    }
  }

  /** The selected pins after the attempts: the last pair tried, or the
      pins from before. */
  predicate PinsOf(tested: seq<Attempt>, before: (Pin, Pin), now: (Pin, Pin))
  {
    now == if tested == [] then before else (tested[|tested| - 1].clk, tested[|tested| - 1].io)
  }
}
