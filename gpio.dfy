/** The Arduino pins as the probe uses them, abstracted into a recorded
    trace of line events, and the two views of a trace the rest of the
    model is stated against: what the target sees on each clock cycle, and
    which mode each pin was last put in. */
module Gpio {
  import opened Bits

  /** A pin number; the probe passes pins around as a byte. */
  type Pin = p: nat | p < 256

  /** The three pinMode settings the probe uses. */
  datatype Mode = Output | Input | InputPullup

  /** One thing the probe does to its pins. Levels are true for HIGH. */
  datatype Event =
    | SetMode(pin: Pin, mode: Mode)      // pinMode(pin, mode)
    | Write(pin: Pin, level: bool)       // digitalWrite(pin, level)
    | Pulse(pin: Pin)                    // one LOW-then-HIGH clock cycle on pin
    | Sample(pin: Pin, level: bool)      // digitalRead(pin) returned level

  /** What the probe reads back: the level digitalRead(pin) returns after
      the events recorded so far. The attached board (or its absence) is a
      parameter of the model. */
  type Line = (seq<Event>, Pin) -> bool

  /** The trace is a possible run against line: every sample recorded is
      what the line showed at that moment. */
  ghost predicate Legal(line: Line, t: seq<Event>)
  {
    forall k :: 0 <= k < |t| && t[k].Sample? ==> t[k].level == line(t[..k], t[k].pin)
  }

  lemma LegalAppend(line: Line, t: seq<Event>, e: Event)
    requires Legal(line, t)
    requires e.Sample? ==> e.level == line(t, e.pin)
    ensures Legal(line, t + [e])
  {
    var t' := t + [e];
    forall k | 0 <= k < |t'| && t'[k].Sample?
      ensures t'[k].level == line(t'[..k], t'[k].pin)
    {
      if k < |t| {
        assert t'[..k] == t[..k];
      } else {
        assert t'[..k] == t;
      }
    }
  }

  /** Appending pieces one at a time appends their concatenation. */
  lemma AppendPieces(t0: seq<Event>, a: seq<Event>, b: seq<Event>, c: seq<Event>,
                     d: seq<Event>, e: seq<Event>, f: seq<Event>)
    ensures t0 + a + b + c + d == t0 + (a + b + c + d)
    ensures t0 + a + b + c + d + e + f == t0 + (a + b + c + d + e + f)
  {
  }

  /** Every event of t is on pin a or on pin b. */
  predicate OnPins(t: seq<Event>, a: Pin, b: Pin)
  {
    forall k :: 0 <= k < |t| ==> t[k].pin == a || t[k].pin == b
  }

  lemma OnPinsAppend(t: seq<Event>, u: seq<Event>, a: Pin, b: Pin)
    requires OnPins(t, a, b) && OnPins(u, a, b)
    ensures OnPins(t + u, a, b)
  {
    forall k | 0 <= k < |t + u|
      ensures (t + u)[k].pin == a || (t + u)[k].pin == b
    {
      if k >= |t| {
        assert (t + u)[k] == u[k - |t|];
      }
    }
  }

  // ---------------------------------------------------------------------
  // Counting and collecting events

  /** The number of clock pulses on clk in t. */
  function PulseCount(t: seq<Event>, clk: Pin): nat
  {
    if t == [] then 0
    else PulseCount(t[..|t| - 1], clk) + (if t[|t| - 1] == Pulse(clk) then 1 else 0)
  }

  /** The levels written to pin, in order. */
  function Driven(t: seq<Event>, pin: Pin): seq<bool>
  {
    if t == [] then [] else Driven(t[..|t| - 1], pin) + WrittenBy(t[|t| - 1], pin)
  }

  /** The levels e writes to pin: a pulse of the clock writes it LOW, then
      HIGH, so a pulse counts as two writes to a data pin that is also the
      clock pin. */
  function WrittenBy(e: Event, pin: Pin): seq<bool>
  {
    if e.Write? && e.pin == pin then [e.level]
    else if e == Pulse(pin) then [false, true]
    else []
  }

  /** The levels n pulses of clk write to pin: none, unless pin is the clock
      pin itself, which every pulse writes LOW and then HIGH. */
  function PulseWrites(clk: Pin, pin: Pin, n: nat): (r: seq<bool>)
    ensures |r| == if clk == pin then 2 * n else 0
  {
    if n == 0 || clk != pin then [] else PulseWrites(clk, pin, n - 1) + [false, true]
  }

  lemma PulseWritesSnoc(clk: Pin, pin: Pin, n: nat)
    ensures PulseWrites(clk, pin, n) + PulseWrites(clk, pin, 1) == PulseWrites(clk, pin, n + 1)
  {
    assert PulseWrites(clk, pin, 0) == [];
  }

  /** The levels read from pin, in order. */
  function Sampled(t: seq<Event>, pin: Pin): seq<bool>
  {
    if t == [] then [] else Sampled(t[..|t| - 1], pin) + ReadBy(t[|t| - 1], pin)
  }

  function ReadBy(e: Event, pin: Pin): seq<bool>
  {
    if e.Sample? && e.pin == pin then [e.level] else []
  }

  lemma {:induction false} PulseCountAppend(t: seq<Event>, u: seq<Event>, clk: Pin)
    ensures PulseCount(t + u, clk) == PulseCount(t, clk) + PulseCount(u, clk)
  {
    if u != [] {
      assert (t + u)[..|t + u| - 1] == t + u[..|u| - 1];
      PulseCountAppend(t, u[..|u| - 1], clk);
    } else {
      assert t + u == t;
    }
  }

  lemma {:induction false} DrivenAppend(t: seq<Event>, u: seq<Event>, pin: Pin)
    ensures Driven(t + u, pin) == Driven(t, pin) + Driven(u, pin)
  {
    if u != [] {
      assert (t + u)[..|t + u| - 1] == t + u[..|u| - 1];
      DrivenAppend(t, u[..|u| - 1], pin);
    } else {
      assert t + u == t;
    }
  }

  lemma {:induction false} SampledAppend(t: seq<Event>, u: seq<Event>, pin: Pin)
    ensures Sampled(t + u, pin) == Sampled(t, pin) + Sampled(u, pin)
  {
    if u != [] {
      assert (t + u)[..|t + u| - 1] == t + u[..|u| - 1];
      SampledAppend(t, u[..|u| - 1], pin);
    } else {
      assert t + u == t;
    }
  }

  /** The collectors over three appended pieces. */
  lemma CollectAppend3(t0: seq<Event>, a: seq<Event>, b: seq<Event>, c: seq<Event>, pin: Pin)
    ensures Driven(t0 + a + b + c, pin) == Driven(t0, pin) + Driven(a, pin) + Driven(b, pin) + Driven(c, pin)
    ensures Sampled(t0 + a + b + c, pin) == Sampled(t0, pin) + Sampled(a, pin) + Sampled(b, pin) + Sampled(c, pin)
  {
    DrivenAppend(t0, a, pin);
    DrivenAppend(t0 + a, b, pin);
    DrivenAppend(t0 + a + b, c, pin);
    SampledAppend(t0, a, pin);
    SampledAppend(t0 + a, b, pin);
    SampledAppend(t0 + a + b, c, pin);
  }

  /** The mode pin was last put in, if any. */
  function LastMode(t: seq<Event>, pin: Pin): Option<Mode>
  {
    if t == [] then None
    else match t[|t| - 1]
      case SetMode(p, m) => if p == pin then Some(m) else LastMode(t[..|t| - 1], pin)
      case _ => LastMode(t[..|t| - 1], pin)
  }

  datatype Option<T> = None | Some(value: T)

  // ---------------------------------------------------------------------
  // A loopback line

  /** A line that echoes the levels driven on a pin, in the order they were
      driven: the k-th sample of a pin reads the k-th level written to it,
      and a pin with nothing left to echo reads the pull-up's HIGH. */
  function Loopback(t: seq<Event>, pin: Pin): bool
  {
    var driven, k := Driven(t, pin), |Sampled(t, pin)|;
    if k < |driven| then driven[k] else true
  }

  // ---------------------------------------------------------------------
  // The wire as the target sees it

  /** One clock cycle on the wire: the host drives level, the target drives
      level (the host sampled it just before the pulse), or nobody is
      sampled while the line is released (a turnaround). */
  datatype Cycle = Host(level: bool) | Target(level: bool) | Turn

  /** The state of the data line between events: whether the host drives it,
      the level it last wrote, and the sample taken since the last pulse. */
  datatype Wire = Wire(driving: bool, level: bool, sampled: Option<bool>)

  /** The host drives the line and no sample is pending. */
  predicate Quiet(w: Wire)
  {
    w.driving && w.sampled.None?
  }

  function Step(w: Wire, e: Event, clk: Pin, io: Pin): Wire
  {
    match e
    case SetMode(p, m) => if p == io then w.(driving := m == Output) else w
    case Write(p, b) => if p == io then w.(level := b) else w
    case Sample(p, b) => if p == io then w.(sampled := Some(b)) else w
    case Pulse(p) =>
      var w' := if p == io then w.(level := true) else w;
      if p == clk then w'.(sampled := None) else w'
  }

  function Emit(w: Wire, e: Event, clk: Pin): seq<Cycle>
  {
    if e == Pulse(clk) then
      [if w.driving then Host(w.level) else if w.sampled.Some? then Target(w.sampled.value) else Turn]
    else []
  }

  /** The wire state after t, starting from w. */
  function Run(t: seq<Event>, w: Wire, clk: Pin, io: Pin): Wire
  {
    if t == [] then w else Step(Run(t[..|t| - 1], w, clk, io), t[|t| - 1], clk, io)
  }

  /** The cycles the target sees on (clk, io) while t happens, from w. */
  function Cycles(t: seq<Event>, w: Wire, clk: Pin, io: Pin): seq<Cycle>
  {
    if t == [] then []
    else Cycles(t[..|t| - 1], w, clk, io) + Emit(Run(t[..|t| - 1], w, clk, io), t[|t| - 1], clk)
  }

  /** Host cycles driving bits, in order. */
  function Drive(bits: seq<bool>): (c: seq<Cycle>)
  {
    seq(|bits|, i requires 0 <= i < |bits| => Host(bits[i]))
  }

  /** Target cycles delivering bits, in order. */
  function Sense(bits: seq<bool>): (c: seq<Cycle>)
  {
    seq(|bits|, i requires 0 <= i < |bits| => Target(bits[i]))
  }

  lemma DriveSnoc(bits: seq<bool>, b: bool)
    ensures Drive(bits + [b]) == Drive(bits) + [Host(b)]
  {
  }

  lemma SenseSnoc(bits: seq<bool>, b: bool)
    ensures Sense(bits + [b]) == Sense(bits) + [Target(b)]
  {
  }

  /** n copies of level. */
  function Repeat(level: bool, n: nat): seq<bool>
  {
    seq(n, _ => level)
  }

  lemma {:induction false} RunAppend(t: seq<Event>, u: seq<Event>, w: Wire, clk: Pin, io: Pin)
    ensures Run(t + u, w, clk, io) == Run(u, Run(t, w, clk, io), clk, io)
    ensures Cycles(t + u, w, clk, io) == Cycles(t, w, clk, io) + Cycles(u, Run(t, w, clk, io), clk, io)
  {
    if u != [] {
      assert (t + u)[..|t + u| - 1] == t + u[..|u| - 1];
      RunAppend(t, u[..|u| - 1], w, clk, io);
    } else {
      assert t + u == t;
    }
  }

  /** Each cycle the target sees is one pulse of the clock. */
  lemma {:induction false} CyclesCountPulses(t: seq<Event>, w: Wire, clk: Pin, io: Pin)
    ensures |Cycles(t, w, clk, io)| == PulseCount(t, clk)
  {
    if t != [] {
      CyclesCountPulses(t[..|t| - 1], w, clk, io);
    }
  }

  /** The views of a trace of two events, unfolded. */
  lemma TwoEvents(a: Event, b: Event, w: Wire, clk: Pin, io: Pin)
    ensures Run([a, b], w, clk, io) == Step(Step(w, a, clk, io), b, clk, io)
    ensures Cycles([a, b], w, clk, io) == Emit(w, a, clk) + Emit(Step(w, a, clk, io), b, clk)
    ensures PulseCount([a, b], clk) == (if a == Pulse(clk) then 1 else 0) + (if b == Pulse(clk) then 1 else 0)
    ensures Driven([a, b], io) == WrittenBy(a, io) + WrittenBy(b, io)
    ensures Sampled([a, b], io) == ReadBy(a, io) + ReadBy(b, io)
  {
    var t := [a, b];
    assert t[..1] == [a];
    OneEvent(a, w, clk, io);
    OneEvent(b, w, clk, io);
  }

  /** The views of a trace of one event, unfolded. */
  lemma OneEvent(a: Event, w: Wire, clk: Pin, io: Pin)
    ensures Run([a], w, clk, io) == Step(w, a, clk, io)
    ensures Cycles([a], w, clk, io) == Emit(w, a, clk)
    ensures PulseCount([a], clk) == if a == Pulse(clk) then 1 else 0
    ensures Driven([a], io) == WrittenBy(a, io)
    ensures Sampled([a], io) == ReadBy(a, io)
  {
    var t := [a];
    assert t[..0] == [];
    assert Run(t, w, clk, io) == Step(Run([], w, clk, io), a, clk, io);
    assert Cycles(t, w, clk, io) == Cycles([], w, clk, io) + Emit(Run([], w, clk, io), a, clk);
    assert PulseCount(t, clk) == PulseCount([], clk) + (if a == Pulse(clk) then 1 else 0);
    assert Driven(t, io) == Driven([], io) + WrittenBy(a, io);
    assert Sampled(t, io) == Sampled([], io) + ReadBy(a, io);
  }

  /** Two consecutive pieces of a trace, each with known cycles and end state. */
  lemma Then(t: seq<Event>, u: seq<Event>, w: Wire, clk: Pin, io: Pin,
             ct: seq<Cycle>, wt: Wire, cu: seq<Cycle>, wu: Wire)
    requires Cycles(t, w, clk, io) == ct && Run(t, w, clk, io) == wt
    requires Cycles(u, wt, clk, io) == cu && Run(u, wt, clk, io) == wu
    ensures Cycles(t + u, w, clk, io) == ct + cu && Run(t + u, w, clk, io) == wu
  {
    RunAppend(t, u, w, clk, io);
  }
}
