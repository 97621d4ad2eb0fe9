/**
  Machine-word arithmetic on natural numbers.

  The C operators `&`, `|`, `^`, `~`, `<<` and `>>` are defined bit by bit, and `Bit(a, i)` is
  the value of bit `i`.  The lemmas say which bits each operator sets, so that every word-level
  trick of the programs modelled elsewhere can be reasoned about position by position.
 */
module Bits {

  const TWO64: nat := 0x1_0000_0000_0000_0000

  /** An `unsigned long` on a 64-bit host. */
  type u64 = x: nat | x < TWO64

  type u8 = x: nat | x < 0x100

  // ---------- operators ----------

  function Shr(a: nat, n: nat): nat
    decreases n
  {
    if n == 0 then a else Shr(a / 2, n - 1)
  }

  /** Bit `i` of `a`, as `1 & (a >> i)`. */
  predicate Bit(a: nat, i: nat)
  {
    Shr(a, i) % 2 == 1
  }

  function And(a: nat, b: nat): nat
  {
    if a == 0 then 0 else 2 * And(a / 2, b / 2) + (if a % 2 == 1 && b % 2 == 1 then 1 else 0)
  }

  function Or(a: nat, b: nat): nat
    decreases a + b
  {
    if a == 0 && b == 0 then 0 else 2 * Or(a / 2, b / 2) + (if a % 2 == 1 || b % 2 == 1 then 1 else 0)
  }

  function Xor(a: nat, b: nat): nat
    decreases a + b
  {
    if a == 0 && b == 0 then 0 else 2 * Xor(a / 2, b / 2) + (if a % 2 != b % 2 then 1 else 0)
  }

  /** `~a` in a word of `width` bits. */
  function Not(width: nat, a: nat): nat
    decreases width
  {
    if width == 0 then 0 else 2 * Not(width - 1, a / 2) + (1 - a % 2)
  }

  /** The low `width` bits of `a`: what an assignment to a `width`-bit variable keeps. */
  function Low(width: nat, a: nat): nat
    decreases width
  {
    if width == 0 then 0 else 2 * Low(width - 1, a / 2) + a % 2
  }

  /** Left shift before truncation. */
  function Shl(a: nat, n: nat): nat
    decreases n
  {
    if n == 0 then a else Shl(2 * a, n - 1)
  }

  function Pow2(n: nat): (p: nat)
    ensures p >= 1
  {
    if n == 0 then 1 else 2 * Pow2(n - 1)
  }

  /** The number whose low `n` bits are ones. */
  function Ones(n: nat): nat
  {
    if n == 0 then 0 else 2 * Ones(n - 1) + 1
  }

  // ---------- which bits each operator sets ----------

  lemma {:induction false} BitOfZero(i: nat)
    ensures !Bit(0, i)
    decreases i
  {
    if i == 0 {
    } else {
      BitOfZero(i - 1);
    }
  }

  lemma {:induction false} BitOfAnd(a: nat, b: nat, i: nat)
    ensures Bit(And(a, b), i) <==> Bit(a, i) && Bit(b, i)
    decreases i
  {
    if a == 0 {
      BitOfZero(i);
    } else if i > 0 {
      BitOfAnd(a / 2, b / 2, i - 1);
      assert And(a, b) / 2 == And(a / 2, b / 2);
    }
  }

  lemma {:induction false} BitOfOr(a: nat, b: nat, i: nat)
    ensures Bit(Or(a, b), i) <==> Bit(a, i) || Bit(b, i)
    decreases i
  {
    if a == 0 && b == 0 {
      BitOfZero(i);
    } else if i > 0 {
      BitOfOr(a / 2, b / 2, i - 1);
      assert Or(a, b) / 2 == Or(a / 2, b / 2);
    }
  }

  lemma {:induction false} BitOfXor(a: nat, b: nat, i: nat)
    ensures Bit(Xor(a, b), i) <==> Bit(a, i) != Bit(b, i)
    decreases i
  {
    if a == 0 && b == 0 {
      BitOfZero(i);
    } else if i > 0 {
      BitOfXor(a / 2, b / 2, i - 1);
      assert Xor(a, b) / 2 == Xor(a / 2, b / 2);
    }
  }

  lemma {:induction false} BitOfNot(width: nat, a: nat, i: nat)
    ensures Bit(Not(width, a), i) <==> i < width && !Bit(a, i)
    decreases i
  {
    if width == 0 {
      BitOfZero(i);
    } else if i > 0 {
      BitOfNot(width - 1, a / 2, i - 1);
      assert Not(width, a) / 2 == Not(width - 1, a / 2);
    }
  }

  lemma {:induction false} BitOfLow(width: nat, a: nat, i: nat)
    ensures Bit(Low(width, a), i) <==> i < width && Bit(a, i)
    decreases i
  {
    if width == 0 {
      BitOfZero(i);
    } else if i > 0 {
      BitOfLow(width - 1, a / 2, i - 1);
      assert Low(width, a) / 2 == Low(width - 1, a / 2);
    }
  }

  lemma {:induction false} BitOfShr(a: nat, n: nat, i: nat)
    ensures Bit(Shr(a, n), i) <==> Bit(a, i + n)
    decreases n
  {
    if n == 0 {
    } else {
      BitOfShr(a / 2, n - 1, i);
    }
  }

  lemma {:induction false} BitOfShl(a: nat, n: nat, i: nat)
    ensures Bit(Shl(a, n), i) <==> i >= n && Bit(a, i - n)
    decreases n
  {
    if n == 0 {
    } else {
      BitOfShl(2 * a, n - 1, i);
      if i >= n { assert 2 * a / 2 == a; }
    }
  }

  lemma {:induction false} BitOfOnes(n: nat, i: nat)
    ensures Bit(Ones(n), i) <==> i < n
    decreases n
  {
    if n == 0 {
      BitOfZero(i);
    } else if i > 0 {
      BitOfOnes(n - 1, i - 1);
      assert Ones(n) / 2 == Ones(n - 1);
    }
  }

  // ---------- words as sets of bits ----------

  /** A number is determined by its bits. */
  lemma {:induction false} Extensional(a: nat, b: nat)
    requires forall i: nat :: Bit(a, i) == Bit(b, i)
    ensures a == b
    decreases a + b
  {
    assert Bit(a, 0) == Bit(b, 0);
    if a + b > 0 {
      forall i: nat ensures Bit(a / 2, i) == Bit(b / 2, i) {
        assert Bit(a, i + 1) == Bit(b, i + 1);
      }
      Extensional(a / 2, b / 2);
    }
  }

  lemma {:induction false} NoBitAbove(a: nat, width: nat, i: nat)
    requires a < Pow2(width) && i >= width
    ensures !Bit(a, i)
    decreases width
  {
    if width == 0 { BitOfZero(i); } else { NoBitAbove(a / 2, width - 1, i - 1); }
  }

  lemma {:induction false} BoundedByBits(a: nat, width: nat)
    requires forall i: nat :: i >= width ==> !Bit(a, i)
    ensures a < Pow2(width)
    decreases width
  {
    if width == 0 {
      forall i: nat ensures Bit(a, i) == Bit(0, i) { BitOfZero(i); assert i >= width; }
      Extensional(a, 0);
    } else {
      forall i: nat | i >= width - 1 ensures !Bit(a / 2, i) { assert !Bit(a, i + 1); }
      BoundedByBits(a / 2, width - 1);
    }
  }

  lemma NonZeroHasBit(a: nat) returns (i: nat)
    requires a != 0
    ensures Bit(a, i)
  {
    if forall j: nat :: !Bit(a, j) {
      forall j: nat ensures Bit(a, j) == Bit(0, j) { BitOfZero(j); }
      Extensional(a, 0);
    }
    i :| Bit(a, i);
  }

  // ---------- arithmetic meaning ----------

  lemma {:induction false} Pow2Adds(m: nat, n: nat)
    ensures Pow2(m + n) == Pow2(m) * Pow2(n)
    decreases n
  {
    if n == 0 {
    } else {
      Pow2Adds(m, n - 1);
      assert Pow2(m + n) == 2 * (Pow2(m) * Pow2(n - 1));
    }
  }

  lemma {:induction false} OnesIsPow2Minus1(n: nat)
    ensures Ones(n) == Pow2(n) - 1
  {
    if n == 0 {
    } else {
      OnesIsPow2Minus1(n - 1);
    }
  }

  lemma {:induction false} ShlIsMul(a: nat, n: nat)
    ensures Shl(a, n) == a * Pow2(n)
    decreases n
  {
    if n == 0 {
    } else {
      ShlIsMul(2 * a, n - 1);
      assert 2 * a * Pow2(n - 1) == a * (2 * Pow2(n - 1));
    }
  }

  lemma {:induction false} ShrIsDiv(a: nat, n: nat)
    ensures Shr(a, n) * Pow2(n) + Low(n, a) == a
    ensures Low(n, a) < Pow2(n)
    decreases n
  {
    if n == 0 {
    } else {
      ShrIsDiv(a / 2, n - 1);
      assert Shr(a, n) * Pow2(n) == 2 * (Shr(a / 2, n - 1) * Pow2(n - 1));
    }
  }

  lemma QuotientUnique(x: nat, d: nat, q: nat, r: nat)
    requires d > 0 && x == q * d + r && r < d
    ensures x / d == q && x % d == r
  {
    SmallMultiple(x / d - q, d, r - x % d);
  }

  lemma SmallMultiple(k: int, d: int, r: int)
    requires 0 <= d && k * d == r && -d < r < d
    ensures k == 0
  {
    MultipleGrows(k, d);
  }

  lemma MultipleGrows(k: int, d: int)
    requires d >= 0
    ensures k >= 1 ==> k * d >= d
    ensures k <= -1 ==> k * d + d <= 0
  {
  }

  lemma LowIsRemainder(n: nat, a: nat)
    ensures Low(n, a) == a % Pow2(n) && Shr(a, n) == a / Pow2(n)
  {
    ShrIsDiv(a, n);
    QuotientUnique(a, Pow2(n), Shr(a, n), Low(n, a));
  }

  lemma {:induction false} NotIsComplement(width: nat, a: nat)
    requires a < Pow2(width)
    ensures Not(width, a) == Pow2(width) - 1 - a
    decreases width
  {
    if width == 0 {
    } else {
      NotIsComplement(width - 1, a / 2);
    }
  }

  /** `x & ~(2^n - 1)` rounds down to a multiple of `2^n`, and `x & (2^n - 1)` is the remainder. */
  lemma MaskSplits(width: nat, x: nat, n: nat)
    requires x < Pow2(width)
    ensures And(x, Ones(n)) == Low(n, x)
    ensures And(x, Not(width, Ones(n))) == x - Low(n, x) == Shr(x, n) * Pow2(n)
  {
    forall i: nat ensures Bit(And(x, Ones(n)), i) == Bit(Low(n, x), i) {
      BitOfAnd(x, Ones(n), i);
      BitOfOnes(n, i);
      BitOfLow(n, x, i);
    }
    Extensional(And(x, Ones(n)), Low(n, x));
    var hi := Shl(Shr(x, n), n);
    forall i: nat ensures Bit(And(x, Not(width, Ones(n))), i) == Bit(hi, i) {
      BitOfAnd(x, Not(width, Ones(n)), i);
      BitOfNot(width, Ones(n), i);
      BitOfOnes(n, i);
      BitOfShl(Shr(x, n), n, i);
      if i >= n { BitOfShr(x, n, i - n); }
      if i >= width { NoBitAbove(x, width, i); }
    }
    Extensional(And(x, Not(width, Ones(n))), hi);
    ShlIsMul(Shr(x, n), n);
    ShrIsDiv(x, n);
  }

  /** Or of numbers without a common bit is their sum. */
  lemma {:induction false} OrDisjoint(a: nat, b: nat)
    requires forall i: nat :: !(Bit(a, i) && Bit(b, i))
    ensures Or(a, b) == a + b
    decreases a + b
  {
    if a + b > 0 {
      assert !(Bit(a, 0) && Bit(b, 0));
      forall i: nat ensures !(Bit(a / 2, i) && Bit(b / 2, i)) {
        assert !(Bit(a, i + 1) && Bit(b, i + 1));
      }
      OrDisjoint(a / 2, b / 2);
    }
  }
}
