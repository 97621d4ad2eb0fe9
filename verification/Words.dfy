/**
  The 64-bit operators of `unsigned long`, each specified by the bits of its result.
 */
module Words {
  import opened Bits

  /** `BITS_PER_LONG` */
  const WIDTH: nat := 64

  /** `~0UL` */
  const ALL_ONES: u64 := TWO64 - 1

  lemma Pow2Of64()
    ensures Pow2(WIDTH) == TWO64
  {
    assert Pow2(4) == 16;
    Pow2Adds(4, 4);
    Pow2Adds(8, 8);
    Pow2Adds(16, 16);
    Pow2Adds(32, 32);
  }

  lemma FitsByBits(a: nat)
    requires forall i: nat :: i >= 64 ==> !Bit(a, i)
    ensures a < TWO64
  {
    BoundedByBits(a, WIDTH);
    Pow2Of64();
  }

  lemma NoBit64(a: u64, i: nat)
    requires i >= 64
    ensures !Bit(a, i)
  {
    Pow2Of64();
    NoBitAbove(a, WIDTH, i);
  }

  /** Two words with the same 64 bits are equal. */
  lemma SameBits(a: u64, b: u64)
    requires forall i: nat :: i < 64 ==> Bit(a, i) == Bit(b, i)
    ensures a == b
  {
    forall i: nat ensures Bit(a, i) == Bit(b, i) {
      if i >= 64 { NoBit64(a, i); NoBit64(b, i); }
    }
    Extensional(a, b);
  }

  /** `w == 0` says that no bit of the word is set. */
  lemma IsZero(w: u64)
    ensures w == 0 <==> forall i: nat :: i < 64 ==> !Bit(w, i)
  {
    if w == 0 {
      forall i: nat ensures !Bit(w, i) { BitOfZero(i); }
    } else {
      var i := NonZeroHasBit(w);
      if i >= 64 { NoBit64(w, i); }
      assert Bit(w, i);
    }
  }

  /** `~w == 0` says that every bit of the word is set. */
  lemma IsAllOnes(w: u64)
    ensures w == ALL_ONES <==> forall i: nat :: i < 64 ==> Bit(w, i)
  {
    OnesIsAllOnes();
    if w == ALL_ONES {
      forall i: nat | i < 64 ensures Bit(w, i) { BitOfOnes(WIDTH, i); }
    } else if forall i: nat :: i < 64 ==> Bit(w, i) {
      forall i: nat | i < 64 ensures Bit(w, i) == Bit(Ones(WIDTH), i) { BitOfOnes(WIDTH, i); }
      SameBits(w, Ones(WIDTH));
    } else {
      var i: nat :| i < 64 && !Bit(w, i);
      assert !Bit(w, i);
    }
  }

  lemma OnesIsAllOnes()
    ensures Ones(WIDTH) == ALL_ONES
  {
    OnesIsPow2Minus1(64);
    Pow2Of64();
  }

  // ---------- operators ----------

  function And64(a: u64, b: u64): u64
  {
    AndBits(a, b);
    And(a, b)
  }

  lemma AndBits(a: u64, b: u64)
    ensures And(a, b) < TWO64
    ensures forall i: nat :: Bit(And(a, b), i) <==> Bit(a, i) && Bit(b, i)
  {
    forall i: nat ensures Bit(And(a, b), i) <==> Bit(a, i) && Bit(b, i) { BitOfAnd(a, b, i); }
    forall i: nat | i >= 64 ensures !Bit(And(a, b), i) { NoBit64(a, i); }
    FitsByBits(And(a, b));
  }

  function Or64(a: u64, b: u64): u64
  {
    OrBits(a, b);
    Or(a, b)
  }

  lemma OrBits(a: u64, b: u64)
    ensures Or(a, b) < TWO64
    ensures forall i: nat :: Bit(Or(a, b), i) <==> Bit(a, i) || Bit(b, i)
  {
    forall i: nat ensures Bit(Or(a, b), i) <==> Bit(a, i) || Bit(b, i) { BitOfOr(a, b, i); }
    forall i: nat | i >= 64 ensures !Bit(Or(a, b), i) { NoBit64(a, i); NoBit64(b, i); }
    FitsByBits(Or(a, b));
  }

  function Xor64(a: u64, b: u64): u64
  {
    XorBits(a, b);
    Xor(a, b)
  }

  lemma XorBits(a: u64, b: u64)
    ensures Xor(a, b) < TWO64
    ensures forall i: nat :: Bit(Xor(a, b), i) <==> Bit(a, i) != Bit(b, i)
  {
    forall i: nat ensures Bit(Xor(a, b), i) <==> Bit(a, i) != Bit(b, i) { BitOfXor(a, b, i); }
    forall i: nat | i >= 64 ensures !Bit(Xor(a, b), i) { NoBit64(a, i); NoBit64(b, i); }
    FitsByBits(Xor(a, b));
  }

  /** `~a`; `NotIsBitwise` says that it flips every bit. */
  function Not64(a: u64): u64
  {
    ALL_ONES - a
  }

  lemma NotIsBitwise(a: u64)
    ensures Not64(a) == Not(WIDTH, a)
  {
    Pow2Of64();
    NotIsComplement(WIDTH, a);
  }

  lemma NotBits(a: u64)
    ensures forall i: nat :: Bit(Not64(a), i) <==> i < 64 && !Bit(a, i)
  {
    NotIsBitwise(a);
    forall i: nat ensures Bit(Not64(a), i) <==> i < 64 && !Bit(a, i) { BitOfNot(WIDTH, a, i); }
  }

  /** `a << n`, the bits pushed past the top being lost. */
  function Shl64(a: u64, n: nat): u64
  {
    a * Pow2(n) % TWO64
  }

  lemma Shl64Is(a: u64, n: nat)
    ensures Shl64(a, n) == Low(WIDTH, Shl(a, n))
  {
    ShlIsMul(a, n);
    Pow2Of64();
    LowIsRemainder(WIDTH, Shl(a, n));
  }

  lemma ShlBits(a: u64, n: nat)
    ensures forall i: nat :: Bit(Shl64(a, n), i) <==> n <= i < 64 && Bit(a, i - n)
  {
    Shl64Is(a, n);
    forall i: nat ensures Bit(Low(WIDTH, Shl(a, n)), i) <==> n <= i < 64 && Bit(a, i - n) {
      BitOfLow(WIDTH, Shl(a, n), i);
      BitOfShl(a, n, i);
    }
  }

  function Shr64(a: u64, n: nat): u64
  {
    ShrBits(a, n);
    Shr(a, n)
  }

  lemma ShrBits(a: u64, n: nat)
    ensures Shr(a, n) < TWO64
    ensures forall i: nat :: Bit(Shr(a, n), i) <==> Bit(a, i + n)
  {
    forall i: nat ensures Bit(Shr(a, n), i) <==> Bit(a, i + n) { BitOfShr(a, n, i); }
    forall i: nat | i >= 64 ensures !Bit(Shr(a, n), i) { NoBit64(a, i + n); }
    FitsByBits(Shr(a, n));
  }

  // ---------- masks ----------

  /** `~0UL << n` */
  function MaskFrom(n: nat): u64
  {
    Shl64(ALL_ONES, n)
  }

  lemma MaskFromBits(n: nat)
    ensures forall i: nat :: Bit(MaskFrom(n), i) <==> n <= i < 64
  {
    IsAllOnes(ALL_ONES);
    ShlBits(ALL_ONES, n);
  }

  /** `~0UL >> (BITS_PER_LONG - n)` */
  function MaskBelow(n: nat): u64
    requires n <= 64
  {
    Shr64(ALL_ONES, 64 - n)
  }

  lemma MaskBelowBits(n: nat)
    requires n <= 64
    ensures forall i: nat :: Bit(MaskBelow(n), i) <==> i < n
  {
    IsAllOnes(ALL_ONES);
    ShrBits(ALL_ONES, 64 - n);
    var r := MaskBelow(n);
    forall i: nat ensures Bit(r, i) <==> i < n {
      assert Bit(r, i) <==> Bit(ALL_ONES, i + (64 - n));
      if i >= n { NoBit64(ALL_ONES, i + (64 - n)); }
    }
  }

  /** `(1UL << n) - 1` */
  function Predecessor(n: nat): u64
    requires n < 64
  {
    SmallPower(n);
    Shl64(1, n) - 1
  }

  lemma {:induction false} Pow2Grows(m: nat, n: nat)
    requires m <= n
    ensures Pow2(m) <= Pow2(n)
    decreases n
  {
    if m == n {
    } else {
      Pow2Grows(m, n - 1);
    }
  }

  lemma SmallPower(n: nat)
    requires n < 64
    ensures Shl64(1, n) == Pow2(n)
  {
    Pow2Of64();
    Pow2Grows(n + 1, WIDTH);
  }

  lemma PredecessorBits(n: nat)
    requires n < 64
    ensures forall i: nat :: Bit(Predecessor(n), i) <==> i < n
  {
    SmallPower(n);
    OnesIsPow2Minus1(n);
    forall i: nat ensures Bit(Predecessor(n), i) <==> i < n { BitOfOnes(n, i); }
  }
}
