/** Decoding the 36-bit reply to the DPIDR read, and the test that decides
    whether a pin pair carries an ARM SWD target. The reply holds, least
    significant bit first, the 3 acknowledge bits, the 32 bits of DPIDR and
    the parity bit. */
module IdCode {
  import opened Bits

  /** The JEDEC JEP106 designer code of ARM (continuation 4, identity 0x3B). */
  const DesignerDefault: nat := 0x23B
  /** The acknowledge value OK, as it arrives: bit 0 first. */
  const AckOk: nat := 1
  /** The reply readIdCode reads: acknowledge (3), data (32) and parity (1) bits. */
  const ReplyBits: nat := 36

  /** getAck: the acknowledge, bits 0-2 of the reply. */
  function Ack(v: nat): (r: nat)
    ensures r < 8
  {
    AndBound(v, 0x7);
    And(v, 0x7)
  }

  /** getManufacturer: the designer code, bits 4-14 of the reply
      (DPIDR bits 1-11). */
  function Manufacturer(v: nat): (r: nat)
    ensures r < 0x800
  {
    AndBound(Shr(v, 4), 0x7FF);
    And(Shr(v, 4), 0x7FF)
  }

  /** getPartNo: bits 15-30 of the reply (DPIDR bits 12-27, which hold the
      part number together with the version and minor-revision fields). */
  function PartNo(v: nat): (r: nat)
    ensures r < 0x1_0000
  {
    AndBound(Shr(v, 15), 0xFFFF);
    And(Shr(v, 15), 0xFFFF)
  }

  /** The match of testSwdLines: the target acknowledged OK and ARM
      designed its debug port. */
  predicate IsSwdTarget(v: nat)
  {
    Ack(v) == AckOk && Manufacturer(v) == DesignerDefault
  }

  // ---------------------------------------------------------------------
  // Which bits each field reads

  lemma AckBit(v: nat, j: nat)
    ensures Bit(Ack(v), j) == (j < 3 && Bit(v, j))
  {
    Pow2Values();
    FieldBit(v, 0, 3, j);
  }

  lemma ManufacturerBit(v: nat, j: nat)
    ensures Bit(Manufacturer(v), j) == (j < 11 && Bit(v, 4 + j))
  {
    Pow2Values();
    FieldBit(v, 4, 11, j);
  }

  lemma PartNoBit(v: nat, j: nat)
    ensures Bit(PartNo(v), j) == (j < 16 && Bit(v, 15 + j))
  {
    Pow2Values();
    FieldBit(v, 15, 16, j);
  }

  /** The fields as arithmetic on the reply. */
  lemma FieldsAsArithmetic(v: nat)
    ensures Ack(v) == v % 8
    ensures Manufacturer(v) == v / 16 % 0x800
    ensures PartNo(v) == v / 0x8000 % 0x1_0000
  {
    Pow2Values();
    AndLowMaskIsMod(v, 3);
    ShrIsDiv(v, 4);
    AndLowMaskIsMod(Shr(v, 4), 11);
    ShrIsDiv(v, 15);
    AndLowMaskIsMod(Shr(v, 15), 16);
  }

  /** Two replies that agree on bits 0-2 have the same acknowledge. */
  lemma AckDeterminedBy(u: nat, v: nat)
    requires forall j :: 0 <= j < 3 ==> Bit(u, j) == Bit(v, j)
    ensures Ack(u) == Ack(v)
  {
    Pow2Values();
    forall j | 0 <= j < 3
      ensures Bit(Ack(u), j) == Bit(Ack(v), j)
    {
      AckBit(u, j);
      AckBit(v, j);
    }
    BitsDetermine(Ack(u), Ack(v), 3);
  }

  /** Two replies that agree on bits 4-14 have the same designer code. */
  lemma ManufacturerDeterminedBy(u: nat, v: nat)
    requires forall j :: 4 <= j < 15 ==> Bit(u, j) == Bit(v, j)
    ensures Manufacturer(u) == Manufacturer(v)
  {
    Pow2Values();
    forall j | 0 <= j < 11
      ensures Bit(Manufacturer(u), j) == Bit(Manufacturer(v), j)
    {
      ManufacturerBit(u, j);
      ManufacturerBit(v, j);
    }
    BitsDetermine(Manufacturer(u), Manufacturer(v), 11);
  }

  /** Two replies that agree on bits 15-30 have the same part number. */
  lemma PartNoDeterminedBy(u: nat, v: nat)
    requires forall j :: 15 <= j < 31 ==> Bit(u, j) == Bit(v, j)
    ensures PartNo(u) == PartNo(v)
  {
    Pow2Values();
    forall j | 0 <= j < 16
      ensures Bit(PartNo(u), j) == Bit(PartNo(v), j)
    {
      PartNoBit(u, j);
      PartNoBit(v, j);
    }
    BitsDetermine(PartNo(u), PartNo(v), 16);
  }

  /** The match reads only bits 0-2 and 4-14. */
  lemma MatchDeterminedBy(u: nat, v: nat)
    requires forall j :: 0 <= j < 15 && j != 3 ==> Bit(u, j) == Bit(v, j)
    ensures IsSwdTarget(u) == IsSwdTarget(v)
  {
    AckDeterminedBy(u, v);
    ManufacturerDeterminedBy(u, v);
  }

  /** So the part-number bits never change the verdict. */
  lemma MatchIgnoresPartNo(u: nat, v: nat)
    requires forall j: nat :: !(15 <= j < 31) ==> Bit(u, j) == Bit(v, j)
    ensures IsSwdTarget(u) == IsSwdTarget(v)
  {
    MatchDeterminedBy(u, v);
  }

  /** Keeping only the low n >= 31 bits of the reply changes no field: a
      32-bit C long that drops the bits shifted past its width still
      decodes the same acknowledge, designer code and part number. */
  lemma TruncationKeepsFields(v: nat, n: nat)
    requires n >= 31
    ensures Ack(v % Pow2(n)) == Ack(v)
    ensures Manufacturer(v % Pow2(n)) == Manufacturer(v)
    ensures PartNo(v % Pow2(n)) == PartNo(v)
  {
    var u := v % Pow2(n);
    forall j | 0 <= j < n
      ensures Bit(u, j) == Bit(v, j)
    {
      ModBit(v, n, j);
    }
    AckDeterminedBy(u, v);
    ManufacturerDeterminedBy(u, v);
    PartNoDeterminedBy(u, v);
  }

  lemma TruncationKeepsMatch(v: nat, n: nat)
    requires n >= 31
    ensures IsSwdTarget(v % Pow2(n)) == IsSwdTarget(v)
  {
    TruncationKeepsFields(v, n);
  }

  // ---------------------------------------------------------------------
  // The match on the wire

  /** The acknowledge read from 36 samples is OK exactly when it arrives
      as HIGH, LOW, LOW. */
  lemma AckOnTheWire(s: seq<bool>)
    requires |s| == ReplyBits
    ensures Ack(FromBits(s)) == AckOk <==> s[0] && !s[1] && !s[2]
  {
    var v := FromBits(s);
    forall j: nat
      ensures Bit(Ack(v), j) == (j < 3 && s[j])
    {
      AckBit(v, j);
      SpliceBit(0, s, j);
    }
    assert Bit(AckOk, 0) && !Bit(AckOk, 1) && !Bit(AckOk, 2);
    if s[0] && !s[1] && !s[2] {
      forall j | 0 <= j < 3
        ensures Bit(Ack(v), j) == Bit(AckOk, j)
      {
      }
      Pow2Values();
      BitsDetermine(Ack(v), AckOk, 3);
    }
  }

  /** The designer code read from 36 samples is ARM's exactly when samples
      4-14 spell it. */
  lemma ManufacturerOnTheWire(s: seq<bool>)
    requires |s| == ReplyBits
    ensures Manufacturer(FromBits(s)) == DesignerDefault <==> s[4..15] == BitsOf(DesignerDefault, 11)
  {
    var v := FromBits(s);
    var w := s[4..15];
    forall j: nat | j < 11
      ensures Bit(Manufacturer(v), j) == w[j]
    {
      ManufacturerBit(v, j);
      SpliceBit(0, s, 4 + j);
    }
    if w == BitsOf(DesignerDefault, 11) {
      forall j | 0 <= j < 11
        ensures Bit(Manufacturer(v), j) == Bit(DesignerDefault, j)
      {
      }
      Pow2Values();
      BitsDetermine(Manufacturer(v), DesignerDefault, 11);
    }
    if Manufacturer(v) == DesignerDefault {
      forall j | 0 <= j < 11
        ensures w[j] == BitsOf(DesignerDefault, 11)[j]
      {
      }
    }
  }

  /** The reply read from 36 samples matches exactly when the acknowledge
      arrives as HIGH, LOW, LOW and samples 4-14 spell ARM's designer code. */
  lemma MatchOnTheWire(s: seq<bool>)
    requires |s| == ReplyBits
    ensures IsSwdTarget(FromBits(s)) <==>
      s[0] && !s[1] && !s[2] && s[4..15] == BitsOf(DesignerDefault, 11)
  {
    AckOnTheWire(s);
    ManufacturerOnTheWire(s);
  }

  /** With no target on the pair, the pull-up holds the data line HIGH:
      the acknowledge reads 7 and the pair is not reported. */
  lemma FloatingLineNoMatch(s: seq<bool>)
    requires |s| == ReplyBits
    requires forall k :: 0 <= k < |s| ==> s[k]
    ensures !IsSwdTarget(FromBits(s))
  {
    MatchOnTheWire(s);
  }

  /** A line held LOW does not match either. */
  lemma GroundedLineNoMatch(s: seq<bool>)
    requires |s| == ReplyBits
    requires forall k :: 0 <= k < |s| ==> !s[k]
    ensures !IsSwdTarget(FromBits(s))
  {
    MatchOnTheWire(s);
  }

  /** A Cortex-M debug port (DPIDR 0x1BA01477) answering OK, with even
      parity 0: the reply 0x0DD00A3B9 matches, with part number 0xBA01. */
  lemma CortexExample(v: nat)
    requires v == 0x0DD00A3B9
    ensures IsSwdTarget(v)
    ensures PartNo(v) == 0xBA01
  {
    assert v % 8 == 1;
    assert v / 16 % 0x800 == 0x23B;
    assert v / 0x8000 % 0x1_0000 == 0xBA01;
    FieldsAsArithmetic(v);
  }

  /** A reply that differs from it only in the designer code does not. */
  lemma OtherDesignerExample(v: nat)
    requires v == 0x0DD00A479
    ensures Ack(v) == AckOk
    ensures !IsSwdTarget(v)
  {
    assert v % 8 == 1;
    assert v / 16 % 0x800 == 0x247;
    FieldsAsArithmetic(v);
  }
}
