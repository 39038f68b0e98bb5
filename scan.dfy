/** The pin-pair scanner: which pairs enumerateSwdLines tries and in what
    order, the highest pin a mask enables, the events of one attempt at a
    pair, and what a whole scan promises. */
module Scan {
  import opened Bits
  import opened Gpio
  import opened Link
  import opened Sequencer
  import opened IdCode

  /** A 64-bit pin mask: bit n enables pin n. */
  type Mask = m: nat | m < 0x1_0000_0000_0000_0000

  /** The pins getMaxPinFromMask inspects. */
  const MaskBits: nat := 64

  // ---------------------------------------------------------------------
  // getMaxPinFromMask

  /** One more than the index of the highest set bit of m; 1 when no bit
      above bit 0 is set (so for m == 0 as well as for m == 1). */
  function MaxPin(m: nat): (r: nat)
    ensures r >= 1
  {
    if m < 2 then 1 else MaxPin(m / 2) + 1
  }

  /** No bit of m is set at or above MaxPin(m). */
  lemma {:induction false} MaxPinAbove(m: nat, j: nat)
    requires MaxPin(m) <= j
    ensures !Bit(m, j)
  {
    if m < 2 {
      assert m / 2 == 0;
      ZeroBits(j - 1);
    } else {
      MaxPinAbove(m / 2, j - 1);
    }
  }

  /** A nonzero m has its bit MaxPin(m) - 1 set. */
  lemma {:induction false} MaxPinTop(m: nat)
    requires m != 0
    ensures Bit(m, MaxPin(m) - 1)
  {
    if m >= 2 {
      MaxPinTop(m / 2);
    }
  }

  /** A value of n bits has MaxPin at most n (for n >= 1). */
  lemma {:induction false} MaxPinBound(m: nat, n: nat)
    requires 1 <= n && m < Pow2(n)
    ensures MaxPin(m) <= n
  {
    if m >= 2 {
      assert n >= 2;
      MaxPinBound(m / 2, n - 1);
    }
  }

  /** MaxPin(m) is the only r >= 1 with every set bit of m below r and,
      for m != 0, bit r - 1 set. */
  lemma MaxPinUnique(m: nat, r: nat)
    requires r >= 1
    requires forall j: nat :: r <= j ==> !Bit(m, j)
    requires m != 0 ==> Bit(m, r - 1)
    requires m == 0 ==> r == 1
    ensures r == MaxPin(m)
  {
    if m != 0 {
      MaxPinTop(m);
      if MaxPin(m) < r {
        MaxPinAbove(m, r - 1);
      }
    }
  }

  /** getMaxPinFromMask: scan bits 0 to 63, remember the last set one, and
      return it plus one. */
  method GetMaxPinFromMask(mask: Mask) returns (r: nat)
    ensures 1 <= r <= MaskBits
    ensures forall j: nat :: r <= j ==> !Bit(mask, j)
    ensures mask != 0 ==> Bit(mask, r - 1)
    ensures mask == 0 ==> r == 1
    ensures r == MaxPin(mask)
  {
    var highest: nat := 0;
    for i := 0 to MaskBits
      invariant highest < MaskBits && highest <= i
      invariant forall j :: highest < j < i ==> !Bit(mask, j)
      invariant Bit(mask, highest) || (highest == 0 && forall j :: 0 <= j < i ==> !Bit(mask, j))
    {
      if Bit(mask, i) {
        highest := i;
      }
    }
    r := highest + 1;
    LastSetBit(mask, highest);
    forall j: nat | r <= j
      ensures !Bit(mask, j)
    {
      MaxPinAbove(mask, j);
    }
    if mask != 0 {
      MaxPinTop(mask);
    }
  }

  lemma MaskBound(mask: Mask)
    ensures mask < Pow2(MaskBits)
  {
    Pow2Values();
  }

  /** A mask clear between highest and 64 is clear everywhere above highest. */
  lemma ClearAbove(mask: Mask, highest: nat)
    requires highest < MaskBits
    requires forall j :: highest < j < MaskBits ==> !Bit(mask, j)
    ensures forall j: nat :: highest + 1 <= j ==> !Bit(mask, j)
  {
    MaskBound(mask);
    forall j: nat | MaskBits <= j
      ensures !Bit(mask, j)
    {
      HighBitsClear(mask, MaskBits, j);
    }
  }

  /** Where the scan of getMaxPinFromMask ends: highest is the last set bit
      below 64, or 0 when there is none. */
  lemma LastSetBit(mask: Mask, highest: nat)
    requires highest < MaskBits
    requires forall j :: highest < j < MaskBits ==> !Bit(mask, j)
    requires Bit(mask, highest) || (highest == 0 && forall j :: 0 <= j < MaskBits ==> !Bit(mask, j))
    ensures highest + 1 == MaxPin(mask)
  {
    ClearAbove(mask, highest);
    if mask == 0 {
      ZeroBits(highest);
    } else if !Bit(mask, highest) {
      MaskBound(mask);
      var k := NonzeroHasBit(mask, MaskBits);
      assert false;
    }
    MaxPinUnique(mask, highest + 1);
  }

  // ---------------------------------------------------------------------
  // The pairs enumerateSwdLines tries

  /** The pairs (clk, io) the inner loop tries for clk among io < n:
      io enabled in mask and different from clk, in increasing order. */
  function Row(mask: nat, clk: Pin, n: Pin): seq<(Pin, Pin)>
  {
    if n == 0 then []
    else Row(mask, clk, n - 1) + (if Bit(mask, n - 1) && n - 1 != clk then [(clk, n - 1)] else [])
  }

  /** The rows of the enabled clock pins below n, each over io < max. */
  function Rows(mask: nat, max: Pin, n: nat): seq<(Pin, Pin)>
    requires n <= max
  {
    if n == 0 then []
    else Rows(mask, max, n - 1) + (if Bit(mask, n - 1) then Row(mask, n - 1, max) else [])
  }

  /** Every pair enumerateSwdLines tries for pin_mask mask and pin_max max,
      in the order it tries them. */
  function Candidates(mask: nat, max: Pin): seq<(Pin, Pin)>
  {
    Rows(mask, max, max)
  }

  /** p comes before q: clock pin first, then data pin. */
  predicate Before(p: (Pin, Pin), q: (Pin, Pin))
  {
    p.0 < q.0 || (p.0 == q.0 && p.1 < q.1)
  }

  predicate Increasing(s: seq<(Pin, Pin)>)
  {
    forall i, j :: 0 <= i < j < |s| ==> Before(s[i], s[j])
  }

  /** The pair may be tried: both pins enabled, both below max, distinct. */
  predicate Eligible(mask: nat, max: nat, p: (Pin, Pin))
  {
    p.0 < max && p.1 < max && p.0 != p.1 && Bit(mask, p.0) && Bit(mask, p.1)
  }

  lemma {:induction false} RowMembers(mask: nat, clk: Pin, n: Pin, p: (Pin, Pin))
    ensures p in Row(mask, clk, n) <==> p.0 == clk && p.1 < n && p.1 != clk && Bit(mask, p.1)
  {
    if n > 0 {
      RowMembers(mask, clk, n - 1, p);
    }
  }

  lemma {:induction false} RowIncreasing(mask: nat, clk: Pin, n: Pin)
    ensures Increasing(Row(mask, clk, n))
    ensures forall i :: 0 <= i < |Row(mask, clk, n)| ==> Row(mask, clk, n)[i].0 == clk && Row(mask, clk, n)[i].1 < n
  {
    if n > 0 {
      RowIncreasing(mask, clk, n - 1);
    }
  }

  lemma {:induction false} RowsMembers(mask: nat, max: Pin, n: nat, p: (Pin, Pin))
    requires n <= max
    ensures p in Rows(mask, max, n) <==> p.0 < n && Eligible(mask, max, p)
  {
    if n > 0 {
      RowsMembers(mask, max, n - 1, p);
      RowMembers(mask, n - 1, max, p);
    }
  }

  lemma {:induction false} RowsIncreasing(mask: nat, max: Pin, n: nat)
    requires n <= max
    ensures Increasing(Rows(mask, max, n))
    ensures forall i :: 0 <= i < |Rows(mask, max, n)| ==> Rows(mask, max, n)[i].0 < n
  {
    if n > 0 {
      RowsIncreasing(mask, max, n - 1);
      RowIncreasing(mask, n - 1, max);
    }
  }

  /** The scan tries exactly the eligible pairs, each once, clock pin in
      the outer loop and data pin in the inner loop, both ascending. */
  lemma CandidatesSpec(mask: nat, max: Pin)
    ensures forall p :: p in Candidates(mask, max) <==> Eligible(mask, max, p)
    ensures Increasing(Candidates(mask, max))
  {
    forall p
      ensures p in Candidates(mask, max) <==> Eligible(mask, max, p)
    {
      RowsMembers(mask, max, max, p);
    }
    RowsIncreasing(mask, max, max);
  }

  /** The pairs of the default mask 0b11100 (pins 2, 3 and 4): six pairs. */
  lemma DefaultCandidates()
    ensures Candidates(0x1C, 5) == [(2, 3), (2, 4), (3, 2), (3, 4), (4, 2), (4, 3)]
  {
    assert !Bit(0x1C, 0) && !Bit(0x1C, 1) && Bit(0x1C, 2) && Bit(0x1C, 3) && Bit(0x1C, 4);
    assert Row(0x1C, 2, 5) == [(2, 3), (2, 4)];
    assert Row(0x1C, 3, 5) == [(3, 2), (3, 4)];
    assert Row(0x1C, 4, 5) == [(4, 2), (4, 3)];
    assert Rows(0x1C, 5, 2) == [];
  }

  /** The default mask enables pins up to 4, so pin_max starts at 5. */
  lemma DefaultMaxPin()
    ensures MaxPin(0x1C) == 5
  {
  }

  /** The inner loop stopped before io is a prefix of the whole row. */
  lemma {:induction false} RowPrefix(mask: nat, clk: Pin, io: Pin, n: Pin)
    requires io <= n
    ensures Row(mask, clk, io) <= Row(mask, clk, n)
  {
    if io < n {
      RowPrefix(mask, clk, io, n - 1);
    }
  }

  lemma {:induction false} RowsPrefix(mask: nat, max: Pin, k: nat, n: nat)
    requires k <= n <= max
    ensures Rows(mask, max, k) <= Rows(mask, max, n)
  {
    if k < n {
      RowsPrefix(mask, max, k, n - 1);
    }
  }

  /** The pairs tried when the scan stops inside row clk, before io. */
  lemma StopPrefix(mask: nat, max: Pin, clk: nat, io: Pin)
    requires clk < max && io <= max
    ensures Bit(mask, clk) ==> Rows(mask, max, clk) + Row(mask, clk, io) <= Candidates(mask, max)
    ensures Bit(mask, clk) ==> Rows(mask, max, clk) + Row(mask, clk, max) == Rows(mask, max, clk + 1)
    ensures !Bit(mask, clk) ==> Rows(mask, max, clk) == Rows(mask, max, clk + 1)
  {
    RowPrefix(mask, clk, io, max);
    RowsPrefix(mask, max, clk + 1, max);
  }

  // ---------------------------------------------------------------------
  // One attempt: testSwdLines

  /** The events of testSwdLines(clk, io) against a target answering
      samples: setupPins, switchJtagToSwd, readIdCode, resetPins. */
  function AttemptTrace(clk: Pin, io: Pin, samples: seq<bool>): seq<Event>
  {
    [SetMode(io, Output), SetMode(clk, Output)]
      + (SwitchTrace(clk, io) + IdCodeTrace(clk, io, samples))
      + [SetMode(io, Input), SetMode(clk, Input)]
  }

  /** The pieces of an attempt, appended one at a time. */
  lemma AttemptPieces(t0: seq<Event>, clk: Pin, io: Pin, samples: seq<bool>)
    ensures t0 + [SetMode(io, Output), SetMode(clk, Output)] + SwitchTrace(clk, io)
      + IdCodeTrace(clk, io, samples) + [SetMode(io, Input), SetMode(clk, Input)]
      == t0 + AttemptTrace(clk, io, samples)
  {
    AppendPieces(t0, [SetMode(io, Output), SetMode(clk, Output)], SwitchTrace(clk, io),
      IdCodeTrace(clk, io, samples), [SetMode(io, Input), SetMode(clk, Input)], [], []);
  }

  /** The start of an attempt takes both lines as outputs. */
  lemma SetupQuiet(clk: Pin, io: Pin, w: Wire)
    requires w.sampled.None?
    ensures Cycles([SetMode(io, Output), SetMode(clk, Output)], w, clk, io) == []
    ensures Quiet(Run([SetMode(io, Output), SetMode(clk, Output)], w, clk, io))
  {
    TwoEvents(SetMode(io, Output), SetMode(clk, Output), w, clk, io);
    ModeSteps(clk, io, Output, w);
  }

  /** The end of an attempt releases both lines without a clock cycle. */
  lemma ReleaseSilent(clk: Pin, io: Pin, w: Wire)
    ensures Cycles([SetMode(io, Input), SetMode(clk, Input)], w, clk, io) == []
    ensures !Run([SetMode(io, Input), SetMode(clk, Input)], w, clk, io).driving
    ensures Run([SetMode(io, Input), SetMode(clk, Input)], w, clk, io).sampled == w.sampled
  {
    TwoEvents(SetMode(io, Input), SetMode(clk, Input), w, clk, io);
    ModeSteps(clk, io, Input, w);
  }

  /** Setting the mode of both pins, data pin first: no cycle, the data
      line driven exactly when the mode is Output, the sample kept. */
  lemma ModeSteps(clk: Pin, io: Pin, m: Mode, w: Wire)
    ensures var w2 := Step(Step(w, SetMode(io, m), clk, io), SetMode(clk, m), clk, io);
      w2.driving == (m == Output) && w2.sampled == w.sampled
    ensures Emit(w, SetMode(io, m), clk) == []
    ensures Emit(Step(w, SetMode(io, m), clk, io), SetMode(clk, m), clk) == []
  {
  }

  /** The body of an attempt: the switch sequence, then the ID-code read. */
  lemma SwitchThenIdCode(clk: Pin, io: Pin, samples: seq<bool>, w: Wire)
    requires clk != io
    requires Quiet(w)
    ensures Cycles(SwitchTrace(clk, io) + IdCodeTrace(clk, io, samples), w, clk, io)
         == Drive(SwitchBits()) + IdCodeCycles(samples)
    ensures Quiet(Run(SwitchTrace(clk, io) + IdCodeTrace(clk, io, samples), w, clk, io))
  {
    var sw, id := SwitchTrace(clk, io), IdCodeTrace(clk, io, samples);
    var w2 := Run(sw, w, clk, io);
    var w3 := Run(id, w2, clk, io);
    SwitchCycles(clk, io, w);
    IdCodeCyclesHold(clk, io, samples, w2);
    Then(sw, id, w, clk, io, Drive(SwitchBits()), w2, IdCodeCycles(samples), w3);
  }

  /** Whatever runs between setupPins and resetPins with the line driven,
      the attempt adds no cycle of its own and leaves the line released. */
  lemma Bracketed(clk: Pin, io: Pin, mid: seq<Event>, cm: seq<Cycle>, w: Wire)
    requires w.sampled.None?
    requires Cycles(mid, Run([SetMode(io, Output), SetMode(clk, Output)], w, clk, io), clk, io) == cm
    requires Quiet(Run(mid, Run([SetMode(io, Output), SetMode(clk, Output)], w, clk, io), clk, io))
    ensures var t := [SetMode(io, Output), SetMode(clk, Output)] + mid + [SetMode(io, Input), SetMode(clk, Input)];
      Cycles(t, w, clk, io) == cm && !Run(t, w, clk, io).driving && Run(t, w, clk, io).sampled.None?
  {
    var setup, release := [SetMode(io, Output), SetMode(clk, Output)], [SetMode(io, Input), SetMode(clk, Input)];
    var w1 := Run(setup, w, clk, io);
    var w2 := Run(mid, w1, clk, io);
    var w3 := Run(release, w2, clk, io);
    SetupQuiet(clk, io, w);
    ReleaseSilent(clk, io, w2);
    Then(setup, mid, w, clk, io, [], w1, cm, w2);
    Then(setup + mid, release, w, clk, io, [] + cm, w2, [], w3);
    assert [] + cm + [] == cm;
  }

  /** What the target on (clk, io) sees of one attempt: the switch sequence
      and the ID-code read, after which the host lets go of the line. */
  lemma AttemptCycles(clk: Pin, io: Pin, samples: seq<bool>, w: Wire)
    requires clk != io
    requires w.sampled.None?
    ensures Cycles(AttemptTrace(clk, io, samples), w, clk, io) == Drive(SwitchBits()) + IdCodeCycles(samples)
    ensures !Run(AttemptTrace(clk, io, samples), w, clk, io).driving
    ensures Run(AttemptTrace(clk, io, samples), w, clk, io).sampled.None?
  {
    var setup, release := [SetMode(io, Output), SetMode(clk, Output)], [SetMode(io, Input), SetMode(clk, Input)];
    var mid := SwitchTrace(clk, io) + IdCodeTrace(clk, io, samples);
    SetupQuiet(clk, io, w);
    SwitchThenIdCode(clk, io, samples, Run(setup, w, clk, io));
    Bracketed(clk, io, mid, Drive(SwitchBits()) + IdCodeCycles(samples), w);
  }

  /** An attempt samples the data line exactly for the reply. */
  lemma AttemptSampled(clk: Pin, io: Pin, samples: seq<bool>)
    ensures Sampled(AttemptTrace(clk, io, samples), io) == samples
  {
    var setup, release := [SetMode(io, Output), SetMode(clk, Output)], [SetMode(io, Input), SetMode(clk, Input)];
    var sw, id := SwitchTrace(clk, io), IdCodeTrace(clk, io, samples);
    var w := Wire(true, true, None);
    assert Sampled(sw + id, io) == samples by {
      SwitchSampled(clk, io);
      IdCodeSampled(clk, io, samples);
      SampledAppend(sw, id, io);
    }
    assert Sampled(setup, io) == [] by {
      TwoEvents(SetMode(io, Output), SetMode(clk, Output), w, clk, io);
    }
    assert Sampled(release, io) == [] by {
      TwoEvents(SetMode(io, Input), SetMode(clk, Input), w, clk, io);
    }
    SampledAppend(setup, sw + id, io);
    SampledAppend(setup + (sw + id), release, io);
  }

  /** 148 cycles of switch sequence and 54 of ID-code read. */
  lemma AttemptPulses(clk: Pin, io: Pin, samples: seq<bool>)
    ensures PulseCount(AttemptTrace(clk, io, samples), clk) == 166 + |samples|
  {
    var setup, release := [SetMode(io, Output), SetMode(clk, Output)], [SetMode(io, Input), SetMode(clk, Input)];
    var sw, id := SwitchTrace(clk, io), IdCodeTrace(clk, io, samples);
    var w := Wire(true, true, None);
    SwitchPulses(clk, io);
    IdCodePulses(clk, io, samples);
    TwoEvents(SetMode(io, Output), SetMode(clk, Output), w, clk, io);
    TwoEvents(SetMode(io, Input), SetMode(clk, Input), w, clk, io);
    PulseCountAppend(sw, id, clk);
    PulseCountAppend(setup, sw + id, clk);
    PulseCountAppend(setup + (sw + id), release, clk);
  }

  /** After an attempt both pins of the pair are inputs again, whatever
      happened before it. */
  lemma AttemptLeavesInputs(t: seq<Event>, clk: Pin, io: Pin, samples: seq<bool>)
    ensures LastMode(t + AttemptTrace(clk, io, samples), clk) == Some(Input)
    ensures LastMode(t + AttemptTrace(clk, io, samples), io) == Some(Input)
  {
    var u := t + AttemptTrace(clk, io, samples);
    var body := t + [SetMode(io, Output), SetMode(clk, Output)] + SwitchTrace(clk, io) + IdCodeTrace(clk, io, samples);
    assert u == body + [SetMode(io, Input)] + [SetMode(clk, Input)];
    assert u[..|u| - 1] == body + [SetMode(io, Input)];
    assert (body + [SetMode(io, Input)])[..|body|] == body;
  }

  /** testSwdLines(clk, io) touches those two pins and no other. */
  lemma AttemptOnPins(clk: Pin, io: Pin, samples: seq<bool>)
    ensures OnPins(AttemptTrace(clk, io, samples), clk, io)
  {
    var setup, release := [SetMode(io, Output), SetMode(clk, Output)], [SetMode(io, Input), SetMode(clk, Input)];
    var sw, id := SwitchTrace(clk, io), IdCodeTrace(clk, io, samples);
    SwitchOnPins(clk, io);
    IdCodeOnPins(clk, io, samples);
    OnPinsAppend(sw, id, clk, io);
    OnPinsAppend(setup, sw + id, clk, io);
    OnPinsAppend(setup + (sw + id), release, clk, io);
  }

  // ---------------------------------------------------------------------
  // A whole scan: enumerateSwdLines

  /** One testSwdLines call: the pair and the samples the target gave. */
  datatype Attempt = Attempt(clk: Pin, io: Pin, samples: seq<bool>)

  /** The attempt found a target. */
  predicate Hit(a: Attempt)
  {
    IsSwdTarget(FromBits(a.samples))
  }

  function Pairs(tested: seq<Attempt>): (s: seq<(Pin, Pin)>)
    ensures |s| == |tested|
  {
    seq(|tested|, i requires 0 <= i < |tested| => (tested[i].clk, tested[i].io))
  }

  /** The events of a sequence of attempts, in order. */
  function AttemptsTrace(tested: seq<Attempt>): seq<Event>
  {
    if tested == [] then []
    else
      var a := tested[|tested| - 1];
      AttemptsTrace(tested[..|tested| - 1]) + AttemptTrace(a.clk, a.io, a.samples)
  }

  predicate AnyHit(tested: seq<Attempt>)
  {
    exists i :: 0 <= i < |tested| && Hit(tested[i])
  }

  /** What enumerateSwdLines promises about the attempts it made: they run
      through the candidates in order, each reads a full reply, the result
      is the OR of the verdicts, with break-on-hit no attempt but the last
      hits, and the scan covers every candidate unless it broke on a hit. */
  predicate ScanOutcome(cands: seq<(Pin, Pin)>, breakOnHit: bool, tested: seq<Attempt>, result: bool)
  {
    && Pairs(tested) <= cands
    && (forall i :: 0 <= i < |tested| ==> |tested[i].samples| == ReplyBits)
    && result == AnyHit(tested)
    && (breakOnHit ==> forall i :: 0 <= i < |tested| - 1 ==> !Hit(tested[i]))
    && (!breakOnHit || !result ==> |tested| == |cands|)
  }

  /** Without break-on-hit every candidate is tried, in order. */
  lemma ScanTriesAll(cands: seq<(Pin, Pin)>, tested: seq<Attempt>, result: bool)
    requires ScanOutcome(cands, false, tested, result)
    ensures Pairs(tested) == cands
  {
    assert Pairs(tested) == cands[..|tested|];
  }

  /** With break-on-hit a positive scan stops right at its first hit. */
  lemma ScanStopsAtFirstHit(cands: seq<(Pin, Pin)>, tested: seq<Attempt>)
    requires ScanOutcome(cands, true, tested, true)
    ensures |tested| > 0 && Hit(tested[|tested| - 1])
    ensures forall i :: 0 <= i < |tested| - 1 ==> !Hit(tested[i])
  {
  }

  /** A scan tries only eligible pairs, and none twice. */
  lemma ScanTriesEligibleOnce(mask: nat, max: Pin, brk: bool, tested: seq<Attempt>, result: bool)
    requires ScanOutcome(Candidates(mask, max), brk, tested, result)
    ensures forall i :: 0 <= i < |tested| ==> Eligible(mask, max, (tested[i].clk, tested[i].io))
    ensures forall i, j :: 0 <= i < j < |tested| ==> Pairs(tested)[i] != Pairs(tested)[j]
  {
    var cands := Candidates(mask, max);
    CandidatesSpec(mask, max);
    forall i | 0 <= i < |tested|
      ensures Eligible(mask, max, (tested[i].clk, tested[i].io))
    {
      assert Pairs(tested)[i] == cands[i];
    }
    forall i, j | 0 <= i < j < |tested|
      ensures Pairs(tested)[i] != Pairs(tested)[j]
    {
      assert Pairs(tested)[i] == cands[i] && Pairs(tested)[j] == cands[j];
      assert Before(cands[i], cands[j]);
    }
  }

  /** Every event of t is on a pin below max that mask enables. */
  predicate OnEnabledPins(t: seq<Event>, mask: nat, max: nat)
  {
    forall k :: 0 <= k < |t| ==> t[k].pin < max && Bit(mask, t[k].pin)
  }

  lemma {:induction false} AttemptsOnEnabledPins(mask: nat, max: Pin, tested: seq<Attempt>)
    requires forall i :: 0 <= i < |tested| ==> Eligible(mask, max, (tested[i].clk, tested[i].io))
    ensures OnEnabledPins(AttemptsTrace(tested), mask, max)
  {
    if tested != [] {
      var init, a := tested[..|tested| - 1], tested[|tested| - 1];
      var t: seq<Event> := AttemptsTrace(init);
      var u: seq<Event> := AttemptTrace(a.clk, a.io, a.samples);
      AttemptsOnEnabledPins(mask, max, init);
      AttemptOnPins(a.clk, a.io, a.samples);
      assert Eligible(mask, max, (a.clk, a.io));
      forall k | 0 <= k < |t + u|
        ensures (t + u)[k].pin < max && Bit(mask, (t + u)[k].pin)
      {
        if k >= |t| {
          assert (t + u)[k] == u[k - |t|];
        }
      }
    }
  }

  /** A scan drives, reads and reconfigures only pins below pin_max that
      pin_mask enables. */
  lemma ScanTouchesOnlyEnabledPins(mask: nat, max: Pin, brk: bool, tested: seq<Attempt>, result: bool)
    requires ScanOutcome(Candidates(mask, max), brk, tested, result)
    ensures OnEnabledPins(AttemptsTrace(tested), mask, max)
  {
    ScanTriesEligibleOnce(mask, max, brk, tested, result);
    AttemptsOnEnabledPins(mask, max, tested);
  }

  // ---------------------------------------------------------------------
  // The loop of enumerateSwdLines, one attempt at a time

  /** The loop so far: every attempt read a full reply and the result is
      the OR of the verdicts. */
  predicate Scanning(tested: seq<Attempt>, result: bool)
  {
    && (forall i :: 0 <= i < |tested| ==> |tested[i].samples| == ReplyBits)
    && result == AnyHit(tested)
  }

  lemma PairsSnoc(tested: seq<Attempt>, a: Attempt, done: seq<(Pin, Pin)>)
    requires Pairs(tested) == done
    ensures Pairs(tested + [a]) == done + [(a.clk, a.io)]
  {
  }

  lemma ScanningSnoc(tested: seq<Attempt>, result: bool, a: Attempt)
    requires Scanning(tested, result)
    requires |a.samples| == ReplyBits
    ensures Scanning(tested + [a], result || Hit(a))
    ensures !result ==> forall i :: 0 <= i < |tested + [a]| - 1 ==> !Hit((tested + [a])[i])
  {
    var t := tested + [a];
    assert t[|tested|] == a;
    if AnyHit(tested) {
      var i :| 0 <= i < |tested| && Hit(tested[i]);
      assert t[i] == tested[i];
    }
    if AnyHit(t) {
      var i :| 0 <= i < |t| && Hit(t[i]);
      if i < |tested| {
        assert t[i] == tested[i];
      }
    }
  }

  /** One more pair tested within the row of clk: the record grows by the
      pair, and a hit under break-on-hit ends the scan with its outcome. */
  lemma ScanStep(mask: nat, max: Pin, clk: Pin, io: Pin, brk: bool, tested: seq<Attempt>, result: bool, a: Attempt)
    requires clk < max && io < max && Bit(mask, clk) && Bit(mask, io) && io != clk
    requires a.clk == clk && a.io == io && |a.samples| == ReplyBits
    requires Pairs(tested) == Rows(mask, max, clk) + Row(mask, clk, io)
    requires Scanning(tested, result) && (brk ==> !result)
    ensures Pairs(tested + [a]) == Rows(mask, max, clk) + Row(mask, clk, io + 1)
    ensures Scanning(tested + [a], result || Hit(a))
    ensures brk && (result || Hit(a)) ==> ScanOutcome(Candidates(mask, max), brk, tested + [a], true)
  {
    var rows, row := Rows(mask, max, clk), Row(mask, clk, io);
    PairsSnoc(tested, a, rows + row);
    assert Row(mask, clk, io + 1) == row + [(clk, io)];
    assert rows + row + [(clk, io)] == rows + (row + [(clk, io)]);
    ScanningSnoc(tested, result, a);
    StopPrefix(mask, max, clk, io + 1);
  }

  /** The loop ran to its end. */
  lemma ScanCompleted(mask: nat, max: Pin, brk: bool, tested: seq<Attempt>, result: bool)
    requires Pairs(tested) == Rows(mask, max, max)
    requires Scanning(tested, result) && (brk ==> !result)
    ensures ScanOutcome(Candidates(mask, max), brk, tested, result)
  {
  }

  /** The loop has run through the whole row of clk. */
  lemma RowDone(mask: nat, max: Pin, clk: Pin, tested: seq<Attempt>)
    requires clk < max && Bit(mask, clk)
    requires Pairs(tested) == Rows(mask, max, clk) + Row(mask, clk, max)
    ensures Pairs(tested) == Rows(mask, max, clk + 1)
  {
  }

  // ---------------------------------------------------------------------
  // The trace of a scan, one segment per attempt

  /** Segments of events, joined in order. */
  function Concat(segs: seq<seq<Event>>): seq<Event>
  {
    if segs == [] then [] else Concat(segs[..|segs| - 1]) + segs[|segs| - 1]
  }

  /** The i-th segment. */
  function Segment(segs: seq<seq<Event>>, i: nat): seq<Event>
    requires i < |segs|
  {
    segs[i]
  }

  /** segs holds the events of each attempt, in order. */
  ghost predicate Recorded(segs: seq<seq<Event>>, tested: seq<Attempt>)
  {
    && |segs| == |tested|
    && forall i: nat {:trigger Segment(segs, i)} :: i < |segs| ==>
         Segment(segs, i) == AttemptTrace(tested[i].clk, tested[i].io, tested[i].samples)
  }

  lemma RecordedSnoc(t0: seq<Event>, segs: seq<seq<Event>>, tested: seq<Attempt>, a: Attempt)
    requires Recorded(segs, tested)
    ensures Recorded(segs + [AttemptTrace(a.clk, a.io, a.samples)], tested + [a])
    ensures t0 + Concat(segs) + AttemptTrace(a.clk, a.io, a.samples) == t0 + Concat(segs + [AttemptTrace(a.clk, a.io, a.samples)])
  {
    var segs', tested' := segs + [AttemptTrace(a.clk, a.io, a.samples)], tested + [a];
    forall i: nat | i < |segs'|
      ensures Segment(segs', i) == AttemptTrace(tested'[i].clk, tested'[i].io, tested'[i].samples)
    {
      if i < |segs| {
        assert Segment(segs', i) == Segment(segs, i);
      }
    }
    assert segs'[..|segs|] == segs;
  }

  /** The recorded segments join to the trace of the attempts. */
  lemma {:induction false} RecordedTrace(segs: seq<seq<Event>>, tested: seq<Attempt>)
    requires Recorded(segs, tested)
    ensures Concat(segs) == AttemptsTrace(tested)
  {
    if tested != [] {
      var n := |tested| - 1;
      assert Recorded(segs[..n], tested[..n]) by {
        forall i: nat | i < n
          ensures Segment(segs[..n], i) == AttemptTrace(tested[..n][i].clk, tested[..n][i].io, tested[..n][i].samples)
        {
          assert Segment(segs[..n], i) == Segment(segs, i);
        }
      }
      RecordedTrace(segs[..n], tested[..n]);
      assert Segment(segs, n) == segs[n];
    }
  }
}
