/** Bit-level arithmetic on unbounded naturals, as the probe's C code uses it:
    Arduino's bitRead / bitWrite macros and the shift-and-mask operators.
    Every operation is defined by halving, so that the lemmas below are
    proved by induction with linear arithmetic only. */
module Bits {

  /** 2 to the power n. */
  function Pow2(n: nat): (r: nat)
    ensures r >= 1
  {
    if n == 0 then 1 else 2 * Pow2(n - 1)
  }

  /** Arduino's bitRead(v, i): bit i of v. */
  function Bit(v: nat, i: nat): bool
  {
    if i == 0 then v % 2 == 1 else Bit(v / 2, i - 1)
  }

  /** Arduino's bitWrite(v, i, b): v with bit i replaced by b. */
  function SetBit(v: nat, i: nat, b: bool): nat
  {
    if i == 0 then v / 2 * 2 + (if b then 1 else 0)
    else SetBit(v / 2, i - 1, b) * 2 + v % 2
  }

  /** The C operator v >> k on a non-negative value. */
  function Shr(v: nat, k: nat): nat
  {
    if k == 0 then v else Shr(v / 2, k - 1)
  }

  /** The C operator a & b on non-negative values. */
  function And(a: nat, b: nat): nat
    decreases a
  {
    if a == 0 || b == 0 then 0
    else And(a / 2, b / 2) * 2 + (if a % 2 == 1 && b % 2 == 1 then 1 else 0)
  }

  /** The n least significant bits of v, least significant first. */
  function BitsOf(v: nat, n: nat): (s: seq<bool>)
  {
    seq(n, i requires 0 <= i < n => Bit(v, i))
  }

  /** v with its bits 0 .. |bits|-1 replaced by bits (bit i by bits[i]),
      written one bit at a time in increasing order, as a read loop does. */
  function Splice(v: nat, bits: seq<bool>): nat
  {
    if |bits| == 0 then v
    else SetBit(Splice(v, bits[..|bits| - 1]), |bits| - 1, bits[|bits| - 1])
  }

  /** The value whose bits are bits, least significant first. */
  function FromBits(bits: seq<bool>): nat
  {
    Splice(0, bits)
  }

  // ---------------------------------------------------------------------
  // Powers of two

  lemma {:induction false} Pow2Add(a: nat, b: nat)
    ensures Pow2(a + b) == Pow2(a) * Pow2(b)
  {
    if a > 0 {
      Pow2Add(a - 1, b);
      assert Pow2(a + b) == 2 * Pow2(a - 1 + b);
    }
  }

  lemma {:induction false} Pow2Monotone(a: nat, b: nat)
    requires a <= b
    ensures Pow2(a) <= Pow2(b)
  {
    if a < b {
      Pow2Monotone(a, b - 1);
    }
  }

  /** The powers of two the probe's constants are made of. */
  lemma Pow2Values()
    ensures Pow2(3) == 8 && Pow2(4) == 16 && Pow2(8) == 0x100
    ensures Pow2(11) == 0x800 && Pow2(15) == 0x8000 && Pow2(16) == 0x1_0000
    ensures Pow2(31) == 0x8000_0000 && Pow2(32) == 0x1_0000_0000
    ensures Pow2(36) == 0x10_0000_0000
    ensures Pow2(64) == 0x1_0000_0000_0000_0000
  {
    assert Pow2(4) == 16;
    assert Pow2(8) == 0x100 by { Pow2Add(4, 4); }
    assert Pow2(11) == 0x800 by { Pow2Add(8, 3); }
    assert Pow2(15) == 0x8000 by { Pow2Add(11, 4); }
    assert Pow2(16) == 0x1_0000 by { Pow2Add(8, 8); }
    assert Pow2(31) == 0x8000_0000 by { Pow2Add(16, 15); }
    assert Pow2(32) == 0x1_0000_0000 by { Pow2Add(16, 16); }
    assert Pow2(36) == 0x10_0000_0000 by { Pow2Add(32, 4); }
    assert Pow2(64) == 0x1_0000_0000_0000_0000 by { Pow2Add(32, 32); }
  }

  // ---------------------------------------------------------------------
  // Division facts

  /** Quotient and remainder are unique. */
  lemma DivModUnique(x: int, d: int, q: int, r: int)
    requires d > 0 && 0 <= r < d && x == q * d + r
    ensures x / d == q && x % d == r
  {
    var q', r' := x / d, x % d;
    assert (q - q') * d == r' - r;
    if q > q' {
      MulAtLeast(q - q', d);
    } else if q < q' {
      MulAtLeast(q' - q, d);
    }
  }

  lemma {:induction false} MulAtLeast(k: int, d: int)
    requires k >= 1 && d > 0
    ensures k * d >= d
    decreases k
  {
    if k > 1 {
      MulAtLeast(k - 1, d);
      assert k * d == (k - 1) * d + d;
    }
  }

  lemma HalfQuotient(v: nat, p: nat)
    requires p >= 1
    ensures v / 2 / p == v / (2 * p)
    ensures v % (2 * p) == v / 2 % p * 2 + v % 2
  {
    var q, r := v / 2 / p, v / 2 % p;
    assert v / 2 == q * p + r;
    assert v == q * (2 * p) + (r * 2 + v % 2);
    DivModUnique(v, 2 * p, q, r * 2 + v % 2);
  }

  // ---------------------------------------------------------------------
  // bitRead and bitWrite

  /** Arduino defines bitRead(v, i) as (v >> i) & 1. */
  lemma {:induction false} BitIsDivMod(v: nat, i: nat)
    ensures Bit(v, i) == (v / Pow2(i) % 2 == 1)
  {
    if i > 0 {
      BitIsDivMod(v / 2, i - 1);
      HalfQuotient(v, Pow2(i - 1));
    }
  }

  lemma {:induction false} ZeroBits(i: nat)
    ensures !Bit(0, i)
  {
    if i > 0 {
      ZeroBits(i - 1);
    }
  }

  /** bitWrite changes bit i and no other bit. */
  lemma {:induction false} SetBitBit(v: nat, i: nat, b: bool, j: nat)
    ensures Bit(SetBit(v, i, b), j) == if j == i then b else Bit(v, j)
  {
    var r := SetBit(v, i, b);
    if i == 0 {
      assert r / 2 == v / 2;
    } else {
      assert r / 2 == SetBit(v / 2, i - 1, b) && r % 2 == v % 2;
      if j > 0 {
        SetBitBit(v / 2, i - 1, b, j - 1);
      }
    }
  }

  /** A value below 2^n has no bit set at or above n. */
  lemma {:induction false} HighBitsClear(v: nat, n: nat, j: nat)
    requires v < Pow2(n) && n <= j
    ensures !Bit(v, j)
  {
    if n == 0 {
      ZeroBits(j);
    } else {
      HighBitsClear(v / 2, n - 1, j - 1);
    }
  }

  /** A value that is not zero has a bit set below any power of two above it. */
  lemma {:induction false} NonzeroHasBit(v: nat, n: nat) returns (i: nat)
    requires 0 < v < Pow2(n)
    ensures i < n && Bit(v, i)
  {
    if v % 2 == 1 {
      i := 0;
    } else {
      var k := NonzeroHasBit(v / 2, n - 1);
      i := k + 1;
    }
  }

  /** Two values below 2^n with the same n low bits are equal. */
  lemma {:induction false} BitsDetermine(a: nat, b: nat, n: nat)
    requires a < Pow2(n) && b < Pow2(n)
    requires forall j :: 0 <= j < n ==> Bit(a, j) == Bit(b, j)
    ensures a == b
  {
    if n > 0 {
      assert Bit(a, 0) == Bit(b, 0);
      forall j | 0 <= j < n - 1
        ensures Bit(a / 2, j) == Bit(b / 2, j)
      {
        assert Bit(a, j + 1) == Bit(b, j + 1);
      }
      BitsDetermine(a / 2, b / 2, n - 1);
    }
  }

  lemma {:induction false} SetBitBound(v: nat, i: nat, b: bool, n: nat)
    requires v < Pow2(n) && i < n
    ensures SetBit(v, i, b) < Pow2(n)
  {
    assert Pow2(n) == 2 * Pow2(n - 1);
    assert v / 2 < Pow2(n - 1);
    if i > 0 {
      SetBitBound(v / 2, i - 1, b, n - 1);
      assert SetBit(v, i, b) == SetBit(v / 2, i - 1, b) * 2 + v % 2;
    } else {
      assert SetBit(v, i, b) <= v / 2 * 2 + 1;
    }
  }

  // ---------------------------------------------------------------------
  // Splicing a sequence of bits into a value

  /** After Splice(v, bits), bit j holds bits[j] below |bits| and the old
      bit of v from |bits| on. */
  lemma {:induction false} SpliceBit(v: nat, bits: seq<bool>, j: nat)
    ensures Bit(Splice(v, bits), j) == if j < |bits| then bits[j] else Bit(v, j)
  {
    if |bits| > 0 {
      var init := bits[..|bits| - 1];
      SetBitBit(Splice(v, init), |bits| - 1, bits[|bits| - 1], j);
      SpliceBit(v, init, j);
    }
  }

  lemma {:induction false} FromBitsBound(bits: seq<bool>)
    ensures FromBits(bits) < Pow2(|bits|)
  {
    if |bits| > 0 {
      var init := bits[..|bits| - 1];
      FromBitsBound(init);
      Pow2Monotone(|init|, |bits|);
      SetBitBound(FromBits(init), |bits| - 1, bits[|bits| - 1], |bits|);
    }
  }

  lemma BitsOfSnoc(v: nat, n: nat)
    requires n > 0
    ensures BitsOf(v, n) == BitsOf(v, n - 1) + [Bit(v, n - 1)]
  {
  }

  /** Reading the n low bits of v back into a cleared value gives v. */
  lemma FromBitsOfBits(v: nat, n: nat)
    requires v < Pow2(n)
    ensures FromBits(BitsOf(v, n)) == v
  {
    var s := BitsOf(v, n);
    FromBitsBound(s);
    forall j | 0 <= j < n
      ensures Bit(FromBits(s), j) == Bit(v, j)
    {
      SpliceBit(0, s, j);
    }
    BitsDetermine(FromBits(s), v, n);
  }

  /** Taking bits apart and putting them back is the identity. */
  lemma BitsOfFromBits(bits: seq<bool>)
    ensures BitsOf(FromBits(bits), |bits|) == bits
  {
    forall j | 0 <= j < |bits|
      ensures Bit(FromBits(bits), j) == bits[j]
    {
      SpliceBit(0, bits, j);
    }
  }

  // ---------------------------------------------------------------------
  // Shift and mask

  /** Bit j of v >> k is bit k + j of v. */
  lemma {:induction false} ShrBit(v: nat, k: nat, j: nat)
    ensures Bit(Shr(v, k), j) == Bit(v, k + j)
  {
    if k > 0 {
      ShrBit(v / 2, k - 1, j);
    }
  }

  lemma {:induction false} ShrIsDiv(v: nat, k: nat)
    ensures Shr(v, k) == v / Pow2(k)
  {
    if k > 0 {
      ShrIsDiv(v / 2, k - 1);
      HalfQuotient(v, Pow2(k - 1));
    }
  }

  /** Bit j of a & b is set exactly when it is set in both. */
  lemma {:induction false} AndBit(a: nat, b: nat, j: nat)
    ensures Bit(And(a, b), j) == (Bit(a, j) && Bit(b, j))
    decreases j
  {
    if a == 0 {
      ZeroBits(j);
    } else if b == 0 {
      ZeroBits(j);
    } else if j > 0 {
      AndBit(a / 2, b / 2, j - 1);
    }
  }

  lemma {:induction false} AndBound(a: nat, b: nat)
    ensures And(a, b) <= b
    decreases a
  {
    if a != 0 && b != 0 {
      AndBound(a / 2, b / 2);
    }
  }

  /** The mask 2^w - 1 has exactly the bits 0 .. w-1 set. */
  lemma {:induction false} LowMaskBit(w: nat, j: nat)
    ensures Bit(Pow2(w) - 1, j) == (j < w)
  {
    if w == 0 {
      ZeroBits(j);
    } else if j > 0 {
      assert (Pow2(w) - 1) / 2 == Pow2(w - 1) - 1;
      LowMaskBit(w - 1, j - 1);
    }
  }

  /** x & (2^w - 1) is x modulo 2^w. */
  lemma {:induction false} AndLowMaskIsMod(x: nat, w: nat)
    ensures And(x, Pow2(w) - 1) == x % Pow2(w)
    decreases w
  {
    if w == 0 {
      assert Pow2(w) - 1 == 0;
    } else if x == 0 {
      assert And(x, Pow2(w) - 1) == 0;
    } else {
      AndLowMaskStep(x, w);
      AndLowMaskIsMod(x / 2, w - 1);
      ModPow2Step(x, w);
    }
  }

  /** One halving step of x & (2^w - 1). */
  lemma AndLowMaskStep(x: nat, w: nat)
    requires w > 0 && x != 0
    ensures And(x, Pow2(w) - 1) == And(x / 2, Pow2(w - 1) - 1) * 2 + x % 2
  {
    var p := Pow2(w - 1);
    assert Pow2(w) == 2 * p;
    DivModUnique(2 * p - 1, 2, p - 1, 1);
  }

  /** One halving step of x % 2^w. */
  lemma ModPow2Step(x: nat, w: nat)
    requires w > 0
    ensures x % Pow2(w) == x / 2 % Pow2(w - 1) * 2 + x % 2
  {
    HalfQuotient(x, Pow2(w - 1));
  }

  /** The bit field of width w starting at bit lo, as (v >> lo) & (2^w - 1). */
  lemma FieldBit(v: nat, lo: nat, w: nat, j: nat)
    ensures Bit(And(Shr(v, lo), Pow2(w) - 1), j) == (j < w && Bit(v, lo + j))
  {
    AndBit(Shr(v, lo), Pow2(w) - 1, j);
    LowMaskBit(w, j);
    ShrBit(v, lo, j);
  }

  /** Bit j of v % 2^n is bit j of v below n, and clear from n on. */
  lemma {:induction false} ModBit(v: nat, n: nat, j: nat)
    ensures Bit(v % Pow2(n), j) == (j < n && Bit(v, j))
  {
    AndLowMaskIsMod(v, n);
    AndBit(v, Pow2(n) - 1, j);
    LowMaskBit(n, j);
  }

  /** The n + m low bits of v: the n low bits, then the m bits above them. */
  lemma BitsOfSplit(v: nat, n: nat, m: nat)
    ensures BitsOf(v, n + m) == BitsOf(And(v, Pow2(n) - 1), n) + BitsOf(Shr(v, n), m)
  {
    var whole, low, high := BitsOf(v, n + m), BitsOf(And(v, Pow2(n) - 1), n), BitsOf(Shr(v, n), m);
    forall i | 0 <= i < n + m
      ensures whole[i] == (low + high)[i]
    {
      if i < n {
        AndBit(v, Pow2(n) - 1, i);
        LowMaskBit(n, i);
      } else {
        ShrBit(v, n, i - n);
      }
    }
  }
}
