# SWDscan, modelled in Dafny

SWDscan is an Arduino sketch (`src/main.cpp`) that looks for an ARM Serial
Wire Debug (SWD) port among a set of pins. It bit-bangs the protocol on two
GPIO pins. For each candidate pair (SWCLK, SWDIO) it does four things:

- sends the line reset and the JTAG-to-SWD select sequence;
- reads the debug port's identification register (DPIDR);
- reports the pair when the target acknowledges OK and the designer code is
  ARM's (JEP106 0x23B);
- leaves both pins as inputs.

This project models the core of that sketch and proves what it does.

The model has seven modules:

- `Bits` (`bits.dfy`): the bit operations the sketch uses on non-negative
  integers, defined by halving. `Bit` is `bitRead`, `SetBit` is `bitWrite`,
  `Shr` is `>>`, `And` is `&`, `Splice` is a run of `bitWrite`s,
  `BitsOf`/`FromBits` convert to and from LSB-first bit lists. Lemmas tie
  them to `/` and `%`.
- `Gpio` (`gpio.dfy`): the pins as a recorded trace of events.
  - The four events are `SetMode` (pinMode), `Write` (digitalWrite), `Pulse`
    (one pulseClock: LOW, then HIGH) and `Sample` (digitalRead and its
    result).
  - The attached hardware is a `Line`: a function from the history and a pin
    to the level read. A trace is `Legal` for a line when every sample shows
    what the line gave at that point.
  - Two views of a trace serve as independent references. `Cycles` is what
    the target sees on each clock cycle (host drives a level, target drives
    a level, or turnaround). `Driven`, `Sampled`, `PulseCount` and
    `LastMode` collect per-pin facts. A pulse counts as a LOW and a HIGH
    write of its own pin.
  - `Loopback` is a line that echoes the driven levels.
- `Link` (`link.dfy`): the trace of each driver routine (resetLine,
  writeBit, writeBits, readBits, turnaround) and what the target sees of it,
  plus the write/read round trip over a loopback.
- `Sequencer` (`sequencer.dfy`): switchJtagToSwd and readIdCode as traces.
  The select sequence 0xE79E and the request 0xA5 are checked bit by bit on
  the wire.
- `IdCode` (`idcode.dfy`): getAck, getManufacturer, getPartNo and the match
  of testSwdLines, with the bits of the reply each one reads.
- `Scan` (`scan.dfy`):
  - getMaxPinFromMask as a loop, against `MaxPin`;
  - the pairs enumerateSwdLines tries, in order;
  - the trace of one testSwdLines;
  - what a whole scan promises (`ScanOutcome`).
- `SwdProbe` (`probe.dfy`): the sketch's globals (`pin_mask`, `pin_max`,
  `swclk_pin`, `swdio_pin`, `break_on_hit`) as the fields of class `Probe`,
  with the trace as one more field.
  - Every routine of the driver, sequencer and scanner is a method that
    appends its events to the trace. The Arduino calls are `PinMode`,
    `DigitalWrite` and `DigitalRead`, and reads come from the object's
    `line`.
  - Each method is proved against the trace functions above.
  - The invariant `Valid` says two things: `pin_max` follows `pin_mask`, and
    the trace is legal for the line.

The target's answers are a parameter. `ReadBits`, `ReadIdCode` and
`TestSwdLines` return the samples they took, and `EnumerateSwdLines`
returns every attempt. Their contracts state the result in terms of those
samples and pin numbers.

## Model

| member | source | states |
|---|---|---|
| `SwdProbe.Probe.constructor` | src/main.cpp:24-31 | The globals start as the static initialisers set them (mask 0b11100, pins 2 and 3, no break on hit). As setup() computes it, pin_max is 5. |
| `SwdProbe.Probe.SetupMasterWrite` | src/main.cpp:36-39 | Records one pinMode of the data pin to OUTPUT and nothing else. |
| `SwdProbe.Probe.SetupMasterRead` | src/main.cpp:44-47 | Records one pinMode of the data pin to INPUT_PULLUP and nothing else. |
| `SwdProbe.Probe.SetupPins` | src/main.cpp:52-56 | Data pin, then clock pin, become OUTPUT. |
| `SwdProbe.Probe.ResetPins` | src/main.cpp:61-65 | Data pin, then clock pin, become INPUT. |
| `SwdProbe.Probe.SetPins` | src/main.cpp:73-77 | The selected pair becomes (clk, io); the trace is untouched. |
| `SwdProbe.Probe.PulseClock` | src/main.cpp:85-91 | Exactly one clock pulse on the selected clock pin. |
| `Gpio.PulseWrites` | src/main.cpp:85-90 | What n pulses write to a pin. The clock pin gets 2n levels, LOW then HIGH for each pulse. Any other pin gets none. |
| `SwdProbe.Probe.ResetLine` | src/main.cpp:96-103 | The trace grows by a HIGH write of the data pin followed by 64 pulses. |
| `Link.ResetTrace` | src/main.cpp:96-103 | The events of resetLine: a HIGH write of the data pin, then 64 pulses of the clock pin. Its properties are in `ResetShape` and `ResetCycles`. |
| `Link.ResetShape` | src/main.cpp:96-103 | A line reset writes the data line once, HIGH, then only pulses the clock, 64 times. It never samples. When the data pin is the clock pin, the pulses' own LOW and HIGH writes land on it too: 129 writes in all. |
| `Link.ResetCycles` | src/main.cpp:96-103 | The target sees 64 cycles of the host holding the line HIGH (at least the 50 the protocol needs). The clock pulses 64 times. |
| `SwdProbe.Probe.WriteBit` | src/main.cpp:110-114 | The level goes on the data line, then one clock pulse. |
| `Link.BitTrace` | src/main.cpp:110-114 | The events of writeBit(b): a write of b to the data pin, then one pulse. |
| `Link.WriteTrace` | src/main.cpp:124-129 | The events of writeBits(v, n): writeBit of bit i of v, for i = 0 .. n-1. Its properties are in `WriteCollect` and `WriteCycles`. |
| `SwdProbe.Probe.WriteBits` | src/main.cpp:124-129 | Loop proved to append `WriteTrace`: writeBit of bit i of value, for i = 0 .. length-1. |
| `Link.WriteCollect` | src/main.cpp:124-129 | writeBits(v, n) writes exactly the n low bits of v, LSB first, with n pulses and no sample. When the data pin is the clock pin, each bit is followed by its pulse's LOW and HIGH writes. |
| `Link.WriteCycles` | src/main.cpp:124-129 | The target sees n host cycles carrying bits 0 .. n-1 of v, LSB first. The host still drives the line afterwards. |
| `Link.WriteIgnoresHighBits` | src/main.cpp:124-129 | Bits of v at or above n do not change what writeBits(v, n) does. |
| `Link.WriteOnPins` | src/main.cpp:124-129 | writeBits touches the clock pin and the data pin and no other. |
| `SwdProbe.Probe.ReadBits` | src/main.cpp:150-171 | Loop proved to release the line first, then sample and pulse once per bit, then drive it again. Bit i of the result is the i-th sample for i < length. Every bit from length up keeps its old value. |
| `Link.SenseTrace` | src/main.cpp:153-158 | The events of readBits' loop for the levels samples: sample the data pin, then pulse, once per bit. |
| `Link.ReadTrace` | src/main.cpp:150-171 | The events of readBits: release the data pin, the loop, take the pin back. |
| `Link.ReadCollect` | src/main.cpp:150-171 | readBits records exactly its samples, with one pulse per bit. It never writes the data line, except for the pulses' own LOW and HIGH writes when the data pin is the clock pin. |
| `Link.ReadCycles` | src/main.cpp:150-171 | The target sees one target-driven cycle per bit, carrying the samples in order. Afterwards the host drives the line again. |
| `Link.LoopbackReadsBack` | src/main.cpp:124-171 | Over a loopback line, reading n bits after writeBits(v, n) returns exactly bits 0 .. n-1 of v. |
| `Link.LoopbackRoundTrip` | src/main.cpp:124-171 | Over a loopback line, reading n bits into a cleared buffer after writeBits(v, n), with v < 2^n, gives back v. |
| `SwdProbe.Probe.Turnaround` | src/main.cpp:176-180 | The line is released and one pulse follows. |
| `Link.TurnTrace` | src/main.cpp:176-180 | The events of turnaround: release the data pin, then one pulse. |
| `Link.TurnCycles` | src/main.cpp:176-180 | A turnaround is one cycle in which nobody drives the line. One pulse. |
| `Link.DriverOnPins` | src/main.cpp:96-180 | resetLine, readBits and turnaround touch the clock pin and the data pin and no other. |
| `SwdProbe.Probe.SwitchJtagToSwd` | src/main.cpp:191-197 | Appends a line reset, the 16-bit select sequence, a line reset and 4 LOW bits. |
| `Sequencer.SwitchTrace` | src/main.cpp:191-197 | The events of switchJtagToSwd: line reset, writeBits(0xE79E, 16), line reset, writeBits(0, 4). |
| `Sequencer.JtagToSwdOnTheWire` | src/main.cpp:194 | 0xE79E goes out LSB first as 0111 1001 1110 0111. |
| `Sequencer.SwitchCycles` | src/main.cpp:191-197 | The target sees 64 HIGH, the select sequence, 64 HIGH and 4 LOW cycles: 148 cycles, all host-driven. |
| `Sequencer.SwitchPulses` | src/main.cpp:191-197 | The switch sequence pulses the clock 148 times, for any pair of pins. |
| `Sequencer.SwitchOnPins` | src/main.cpp:191-197 | switchJtagToSwd touches the pair and no other pin. |
| `Sequencer.SwitchSampled` | src/main.cpp:191-197 | The switch sequence never samples the data line. |
| `SwdProbe.Probe.ReadIdCode` | src/main.cpp:204-212 | Appends, in order: the request, a turnaround, a 36-bit read into the buffer, a turnaround, taking the line back, and 8 LOW bits. The buffer becomes the 36 samples, LSB first, over its old bits. |
| `Sequencer.IdCodeTrace` | src/main.cpp:204-212 | The events of readIdCode for the reply samples: writeBits(0xA5, 8), turnaround, readBits of the reply, turnaround, setupMasterWrite, writeBits(0, 8). |
| `Sequencer.ReadIdCodeRequestOnTheWire` | src/main.cpp:206 | 0xA5 goes out LSB first as 1010 0101. |
| `Sequencer.ReadIdCodeRequestWellFormed` | src/main.cpp:206 | The request has start 1, stop 0 and park 1. Its parity bit makes APnDP, RnW, A2, A3 and parity even. |
| `Sequencer.IdCodeCyclesHold` | src/main.cpp:204-212 | The target sees 8 request cycles, a turnaround, one target cycle per sample, a turnaround and 8 LOW cycles. The host drives the line at the end. |
| `Sequencer.IdCodePulses` | src/main.cpp:204-212 | 18 pulses plus one per sample: 54 for the 36-bit reply. |
| `Sequencer.IdCodeSampled` | src/main.cpp:204-212 | An ID-code read samples the data line exactly for the reply. |
| `Sequencer.IdCodeOnPins` | src/main.cpp:204-212 | readIdCode touches the pair and no other pin. |
| `IdCode.Ack` | src/main.cpp:14 | The acknowledge is below 8. |
| `IdCode.Manufacturer` | src/main.cpp:15 | The designer code is below 0x800. |
| `IdCode.PartNo` | src/main.cpp:16 | The part-number field is below 0x10000. |
| `IdCode.IsSwdTarget` | src/main.cpp:246 | The match of testSwdLines: acknowledge 1 (OK) and designer code 0x23B. Its properties are in `MatchDeterminedBy`, `MatchIgnoresPartNo` and `MatchOnTheWire`. |
| `IdCode.AckBit` | src/main.cpp:14 | Bit j of the acknowledge is bit j of the reply for j < 3, and clear above. |
| `IdCode.ManufacturerBit` | src/main.cpp:15 | Bit j of the designer code is bit 4+j of the reply for j < 11, and clear above. |
| `IdCode.PartNoBit` | src/main.cpp:16 | Bit j of the part number is bit 15+j of the reply for j < 16, and clear above. |
| `IdCode.FieldsAsArithmetic` | src/main.cpp:14-16 | The three fields are v % 8, v / 16 % 0x800 and v / 0x8000 % 0x10000. |
| `IdCode.AckDeterminedBy` | src/main.cpp:14 | Replies that agree on bits 0-2 have the same acknowledge. |
| `IdCode.ManufacturerDeterminedBy` | src/main.cpp:15 | Replies that agree on bits 4-14 have the same designer code. |
| `IdCode.PartNoDeterminedBy` | src/main.cpp:16 | Replies that agree on bits 15-30 have the same part number. |
| `IdCode.MatchDeterminedBy` | src/main.cpp:246 | The match reads only bits 0-2 and 4-14 of the reply. |
| `IdCode.MatchIgnoresPartNo` | src/main.cpp:246 | Replies that differ only in bits 15-30 get the same verdict. |
| `IdCode.TruncationKeepsFields` | src/main.cpp:241 | Keeping only the low n >= 31 bits of the reply (a `long` of 32 bits) changes none of the three fields. |
| `IdCode.TruncationKeepsMatch` | src/main.cpp:241-246 | The verdict is the same on a reply cut to 31 or more bits. |
| `IdCode.AckOnTheWire` | src/main.cpp:246 | The acknowledge read from 36 samples is OK if and only if the first three samples are HIGH, LOW, LOW. |
| `IdCode.ManufacturerOnTheWire` | src/main.cpp:246 | The designer code read from 36 samples is 0x23B if and only if samples 4-14 spell 0x23B, LSB first. |
| `IdCode.MatchOnTheWire` | src/main.cpp:246 | A pair is reported if and only if both of those hold. |
| `IdCode.FloatingLineNoMatch` | src/main.cpp:246 | A line the pull-up holds HIGH (no target) is never reported. |
| `IdCode.GroundedLineNoMatch` | src/main.cpp:246 | A line held LOW is never reported. |
| `IdCode.CortexExample` | src/main.cpp:246 | The reply of a Cortex-M debug port (DPIDR 0x1BA01477, ACK OK) matches, with part number 0xBA01. |
| `IdCode.OtherDesignerExample` | src/main.cpp:246 | An OK reply with another designer code does not match. |
| `SwdProbe.Probe.TestSwdLines` | src/main.cpp:238-250 | Selects the pair and appends the attempt's trace (setup, switch, ID-code read, release). The result is the match of the 36 samples read. Both pins end as INPUT. |
| `Scan.AttemptTrace` | src/main.cpp:238-250 | The events of testSwdLines(clk, io) for the reply samples: setupPins, switchJtagToSwd, readIdCode, resetPins. |
| `Scan.AttemptCycles` | src/main.cpp:238-250 | The target on the pair sees the switch sequence followed by the ID-code read cycles, and nothing else. |
| `Scan.AttemptSampled` | src/main.cpp:238-250 | An attempt samples the data pin exactly for the reply. |
| `Scan.AttemptPulses` | src/main.cpp:238-250 | An attempt clocks 166 plus one per sample times: 202 for the 36-bit reply. |
| `Scan.AttemptLeavesInputs` | src/main.cpp:248 | After an attempt, the last mode of both pins is INPUT, whatever came before. |
| `Scan.AttemptOnPins` | src/main.cpp:238-250 | testSwdLines(clk, io) touches clk and io and no other pin. |
| `Scan.MaxPin` | src/main.cpp:284-295 | The value is at least 1. |
| `Scan.MaxPinAbove` | src/main.cpp:284-295 | No bit of the mask is set at or above MaxPin. |
| `Scan.MaxPinTop` | src/main.cpp:284-295 | For a nonzero mask, bit MaxPin - 1 is set. |
| `Scan.MaxPinBound` | src/main.cpp:284-295 | An n-bit mask has MaxPin at most n. |
| `Scan.MaxPinUnique` | src/main.cpp:284-295 | MaxPin is the only r >= 1 that has every set bit below r and bit r-1 set (or r = 1 for mask 0). |
| `Scan.GetMaxPinFromMask` | src/main.cpp:284-295 | Loop proved to return one plus the highest set bit, 1 for mask 0, and at most 64. |
| `Scan.LastSetBit` | src/main.cpp:286-294 | Where the loop ends: highest + 1 is MaxPin. |
| `Scan.DefaultMaxPin` | src/main.cpp:3 | The default mask 0b11100 gives pin_max 5. |
| `Scan.Row` | src/main.cpp:267-269 | The pairs the inner loop tries for clk over io < n: io enabled and not clk, ascending. Its properties are in `RowMembers` and `RowIncreasing`. |
| `Scan.RowIncreasing` | src/main.cpp:267-269 | A row is in ascending order of data pin, and every pair in it has clock pin clk and data pin below the bound. |
| `Scan.Rows` | src/main.cpp:264-269 | The rows of the enabled clock pins below n, in ascending order of clock pin. |
| `Scan.RowsIncreasing` | src/main.cpp:264-269 | The rows below n are in ascending order, clock pin first, and every pair has clock pin below n. |
| `Scan.Candidates` | src/main.cpp:264-272 | Every pair the scan tries for pin_mask and pin_max, in order: all the rows below pin_max. |
| `Scan.RowMembers` | src/main.cpp:267-269 | The inner loop for clk tries (clk, io) if and only if io is enabled, below the bound and not clk. |
| `Scan.RowsMembers` | src/main.cpp:264-269 | The rows below n hold exactly the eligible pairs whose clock pin is below n. |
| `Scan.CandidatesSpec` | src/main.cpp:264-272 | The scan's candidates are exactly the eligible pairs. Each appears once, ordered by clock pin, then data pin. |
| `Scan.DefaultCandidates` | src/main.cpp:3 | The default mask gives the six pairs (2,3), (2,4), (3,2), (3,4), (4,2), (4,3), in that order. |
| `Scan.StopPrefix` | src/main.cpp:271-273 | A scan that stops inside a row has tried a prefix of the candidates. A finished row leads to the next one. |
| `SwdProbe.Probe.EnumerateSwdLines` | src/main.cpp:261-276 | ScanOutcome: the pairs tried are a prefix of the candidates in order, and each attempt reads 36 bits. The result is the OR of the verdicts. With break_on_hit no attempt before the last hits. Without a break every candidate is tried. The trace is the attempts' traces in order, and the selected pair is the last one tried. |
| `SwdProbe.Probe.ScanRow` | src/main.cpp:267-273 | The inner loop for an enabled clock pin either completes its row, or stops the whole scan at a hit under break_on_hit. |
| `SwdProbe.Probe.ScanPair` | src/main.cpp:269-271 | One inner iteration: a disabled or equal data pin changes nothing. Any other pin is tested, and its verdict is ORed into the result. |
| `Scan.ScanTriesAll` | src/main.cpp:264-275 | Without break_on_hit, the pairs tried are exactly the candidates, in order. |
| `Scan.ScanStopsAtFirstHit` | src/main.cpp:271-273 | With break_on_hit, a positive scan ends at its first hit. |
| `Scan.ScanTriesEligibleOnce` | src/main.cpp:264-272 | Every pair tried is eligible, and no pair is tried twice. |
| `Scan.ScanTouchesOnlyEnabledPins` | src/main.cpp:261-276 | Every event of a scan is on a pin below pin_max that pin_mask enables. No other pin is driven, read or reconfigured. |
| `Scan.ScanStep` | src/main.cpp:270-271 | Testing one more pair extends the record by it and ORs in its verdict. A hit under break_on_hit ends the scan with its outcome. |
| `Scan.ScanCompleted` | src/main.cpp:264-276 | A loop that ran to its end meets ScanOutcome. |
| `SwdProbe.Probe.SetPinMask` | src/main.cpp:387-389 | The menu's 'm' command: the mask is stored and pin_max recomputed from it. |
| `SwdProbe.Probe.SetBreakOnHit` | src/main.cpp:409-411 | The menu's 'b' command: break_on_hit turns on for every key but '0'. The key minus 0x30 is taken as a byte. |
| `Bits.Bit` | src/main.cpp:128 | Arduino's bitRead(v, i), bit i of v, defined by halving. Its partner is `BitIsDivMod`. |
| `Bits.BitIsDivMod` | src/main.cpp:128 | bitRead(v, i) is (v >> i) & 1: bit i of v is HIGH exactly when v / 2^i is odd. |
| `Bits.SetBit` | src/main.cpp:156 | Arduino's bitWrite(v, i, b). Its properties are in `SetBitBit` and `SetBitBound`. |
| `Bits.SetBitBit` | src/main.cpp:156 | bitWrite(v, i, b) sets bit i to b and leaves every other bit of v as it was. |
| `Bits.SetBitBound` | src/main.cpp:156 | bitWrite at a bit below n keeps a value below 2^n. |
| `Bits.SpliceBit` | src/main.cpp:153-158 | After the read loop's bitWrites, bit j holds the j-th sample below the count read, and the old bit from there on. |

## Left out

- Serial I/O: the command-line interface (`readCliByte`, `readCliUnsignedInt`,
  `clearSerial`, `printPrompt`, `commandLineInterface`, `setup`, `loop`)
  is not part of this model. Only the state updates of its 'm' and 'b'
  commands are modelled, as `SetPinMask` and `SetBreakOnHit`; the mask
  typed and the key pressed are parameters. The 't' command calls
  `testSwdLines` with the typed pins, and that call is modelled. The debug
  level and its 'd' command are left out. So are `printResultRow` with its
  `sprintf`, and the verbose bit dumps inside writeBits and readBits. They
  only print.
- Timing: `delayMicroseconds` and `CLOCK_HALF_CYCLE_US`. The model has no
  clock, and `Pulse` stands for pulseClock's LOW write followed by its HIGH
  write. Electrical behaviour (drive strength, the pull-up's real effect) is
  left out. Only the level a read returns is modelled, through the `Line`
  parameter.
- `PARTNO_DEFAULT` (0xBA01) is defined but unused by the match. It appears
  only in `CortexExample`.
- The response buffer is an unbounded `nat`. The sketch holds it in a C
  `long` (lines 150 and 241), which is 32 bits on an 8-bit AVR board. There
  the `bitWrite` calls for bits 32-35 (the top three DPIDR bits and the
  parity) shift `1UL` by 32 or more, and C leaves such a shift undefined.
  `TruncationKeepsFields` and `TruncationKeepsMatch` assume that those
  writes are lost and leave bits 0-30 of the buffer alone. Under that
  assumption they show that no field and no verdict depends on bits 31-35. The sign of a negative `long` under `>>` is not
  modelled, because the masks drop every bit it could affect.
- `writeBits` takes a signed `int` length and `long` value. The model takes
  `nat`s, so negative lengths (the loop does nothing) and negative values
  are not modelled; the sketch never passes either.
- Parity: the sketch never checks the reply's parity bit. The model reads it
  and ignores it, as the sketch does.
- The loopback line used for the write/read round trip is a FIFO echo: the
  k-th sample of a pin returns the k-th level driven on it, and HIGH once
  nothing is left. A line that returns the last driven level would make
  every bit read back equal to the last bit written, so it could not state a
  round trip.
- `testSwdLines` itself does not refuse clk == io. Only the loop of
  `enumerateSwdLines` skips such pairs, so the model lets `TestSwdLines` be
  called with equal pins, as the 't' command can do. On a shared pin every
  pulse is also a LOW and a HIGH write of the data pin. `Driven` counts
  both (`PulseWrites`), so `ResetShape`, `WriteCollect` and `ReadCollect`
  hold for equal pins too. `Sampled` and `PulseCount` do not depend on it.
- The cycle view (`Cycles`, `Run`) and the loopback line describe a clock
  wire and a separate data wire. The lemmas about them require clk != io,
  because with one pin in both roles the clock's writes overwrite the data
  level and there is no data wire of its own to observe. They are named
  below.
- ResetCycles: stated for clk != io only, see above.
- WriteCycles: stated for clk != io only, see above.
- ReadCycles: stated for clk != io only, see above.
- TurnCycles: stated for clk != io only, see above.
- SwitchCycles: stated for clk != io only, see above. Its pulse count is
  `SwitchPulses`, which holds for any pins.
- IdCodeCyclesHold: stated for clk != io only, see above.
- AttemptCycles: stated for clk != io only, see above. `AttemptSampled`,
  `AttemptPulses` and `AttemptLeavesInputs` hold for any pins.
- LoopbackReadsBack: stated for clk != io only. On one pin the loopback
  would echo the pulses' writes as well.
- LoopbackRoundTrip: stated for clk != io only, as for `LoopbackReadsBack`.
- The inner loop of `enumerateSwdLines` is written as `ScanRow` and one
  iteration of it as `ScanPair`. The pins visited, the calls made and both
  `break`s behave as in the sketch.
