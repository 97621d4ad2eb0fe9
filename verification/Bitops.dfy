/**
  Word-at-a-time searches over bitmaps (bitops.h, bitops.c).

  A bitmap is an array of 64-bit words; `TestBit` gives the plain set of positions it stands for.
  Every search is specified on positions alone.
 */
module Bitops {
  import opened Bits
  import opened Words

  predicate TestBit(bits: seq<u64>, nr: nat)
    requires nr < 64 * |bits|
  {
    Bit(bits[nr / 64], nr % 64)
  }

  /** No position in `[lo, hi)` has value `v`. */
  ghost predicate NoneIn(bits: seq<u64>, lo: nat, hi: nat, v: bool)
    requires hi <= 64 * |bits|
  {
    forall i :: lo <= i < hi ==> TestBit(bits, i) != v
  }

  /** `r` is the least position in `[offset, size)` whose bit is `v`, or `size` if there is none. */
  ghost predicate IsNext(bits: seq<u64>, size: nat, offset: nat, v: bool, r: nat)
    requires size <= 64 * |bits|
  {
    if offset >= size then r == size else
      && offset <= r <= size
      && NoneIn(bits, offset, r, v)
      && (r < size ==> TestBit(bits, r) == v)
  }

  ghost function Next(bits: seq<u64>, size: nat, offset: nat, v: bool): (r: nat)
    requires size <= 64 * |bits|
    ensures IsNext(bits, size, offset, v, r)
    decreases size - offset
  {
    if offset >= size then size
    else if TestBit(bits, offset) == v then offset
    else Next(bits, size, offset + 1, v)
  }

  lemma NextIsUnique(bits: seq<u64>, size: nat, offset: nat, v: bool, r: nat, r': nat)
    requires size <= 64 * |bits|
    requires IsNext(bits, size, offset, v, r) && IsNext(bits, size, offset, v, r')
    ensures r == r'
  {
    assert r < size ==> TestBit(bits, r) == v;
    assert r' < size ==> TestBit(bits, r') == v;
  }

  // ---------- masks of positions inside an index ----------

  /** `x & ~(BITS_PER_LONG-1)` and `x & (BITS_PER_LONG-1)` are the word base and the offset in it. */
  lemma WordBase(x: u64)
    ensures And64(x, Not64(63)) == x / 64 * 64
    ensures And64(x, 63) == x % 64
  {
    assert Ones(6) == 63 && Pow2(6) == 64;
    RoundDown(x, 6, 63);
  }

  lemma RoundDown(x: u64, n: nat, mask: u64)
    requires mask == Ones(n)
    ensures And64(x, Not64(mask)) == x / Pow2(n) * Pow2(n)
    ensures And64(x, mask) == x % Pow2(n)
  {
    Pow2Of64();
    NotIsBitwise(mask);
    MaskSplits(WIDTH, x, n);
    ShrIsDiv(x, n);
    QuotientUnique(x, Pow2(n), Shr(x, n), Low(n, x));
  }

  lemma LiteralMasks()
    ensures forall i: nat :: Bit(0xffff_ffff, i) <==> i < 32
    ensures forall i: nat :: Bit(0xffff, i) <==> i < 16
    ensures forall i: nat :: Bit(0xff, i) <==> i < 8
    ensures forall i: nat :: Bit(0xf, i) <==> i < 4
    ensures forall i: nat :: Bit(0x3, i) <==> i < 2
    ensures forall i: nat :: Bit(0x1, i) <==> i < 1
  {
    Pow2Adds(2, 2); Pow2Adds(4, 4); Pow2Adds(8, 8); Pow2Adds(16, 16);
    MaskOfOnes(32, 0xffff_ffff);
    MaskOfOnes(16, 0xffff);
    MaskOfOnes(8, 0xff);
    MaskOfOnes(4, 0xf);
    MaskOfOnes(2, 0x3);
    MaskOfOnes(1, 0x1);
  }

  lemma MaskOfOnes(n: nat, m: nat)
    requires m == Pow2(n) - 1
    ensures forall i: nat :: Bit(m, i) <==> i < n
  {
    OnesIsPow2Minus1(n);
    forall i: nat ensures Bit(m, i) <==> i < n { BitOfOnes(n, i); }
  }

  // ---------- binary search inside a word ----------

  /** State of the search for the lowest set bit: `w` is `word >> num`, nothing is set below `num`,
      and one of the low `k` bits of `w` is set. */
  ghost predicate Lowest(word: u64, num: nat, w: u64, k: nat)
  {
    && (forall i: nat :: Bit(w, i) <==> Bit(word, i + num))
    && (forall i: nat :: i < num ==> !Bit(word, i))
    && (exists i: nat :: i < k && Bit(w, i))
  }

  lemma LowerHalf(word: u64, num: nat, w: u64, k: nat, mask: u64)
    requires Lowest(word, num, w, 2 * k)
    requires forall i: nat :: Bit(mask, i) <==> i < k
    ensures And64(w, mask) != 0 ==> Lowest(word, num, w, k)
    ensures And64(w, mask) == 0 ==> Lowest(word, num + k, Shr64(w, k), k)
  {
    var m := And64(w, mask);
    AndBits(w, mask);
    ShrBits(w, k);
    if m != 0 {
      var i := NonZeroHasBit(m);
      assert i < k && Bit(w, i);
    } else {
      forall i: nat ensures !Bit(m, i) { BitOfZero(i); }
      forall i: nat | i < k ensures !Bit(w, i) { assert Bit(m, i) <==> Bit(w, i) && Bit(mask, i); }
      forall i: nat | i < num + k ensures !Bit(word, i) {
        if i >= num { assert Bit(w, i - num) <==> Bit(word, i - num + num); }
      }
      var w' := Shr64(w, k);
      forall i: nat ensures Bit(w', i) <==> Bit(word, i + (num + k)) {
        assert Bit(w, i + k) <==> Bit(word, i + k + num);
      }
      var j: nat :| j < 2 * k && Bit(w, j);
      assert Bit(w', j - k);
    }
  }

  /** One halving of bitops_ffsl: an empty lower half is shifted out and counted. */
  method LowerStep(ghost word0: u64, num: nat, word: u64, k: nat, mask: u64) returns (num': nat, word': u64)
    requires Lowest(word0, num, word, 2 * k)
    requires forall i: nat :: Bit(mask, i) <==> i < k
    ensures Lowest(word0, num', word', k)
  {
    LowerHalf(word0, num, word, k, mask);
    num', word' := num, word;
    if And64(word, mask) == 0 {
      num', word' := num + k, Shr64(word, k);
    }
  }

  /** bitops_ffsl */
  method Ffsl(word0: u64) returns (num: nat)
    requires word0 != 0
    ensures num < 64 && Bit(word0, num)
    ensures forall i: nat :: i < num ==> !Bit(word0, i)
  {
    LiteralMasks();
    num := 0;
    var word := word0;
    assert Lowest(word0, num, word, 64) by {
      var i := NonZeroHasBit(word);
      if i >= 64 { NoBit64(word, i); }
    }
    num, word := LowerStep(word0, num, word, 32, 0xffff_ffff);
    num, word := LowerStep(word0, num, word, 16, 0xffff);
    num, word := LowerStep(word0, num, word, 8, 0xff);
    num, word := LowerStep(word0, num, word, 4, 0xf);
    num, word := LowerStep(word0, num, word, 2, 0x3);
    num, word := LowerStep(word0, num, word, 1, 0x1);
    assert Bit(word, 0);
    if num >= 64 { NoBit64(word0, num); }
  }

  /** State of the search for the highest set bit: `w` is `word << (63 - num)`, nothing is set above
      `num`, and one of the high `k` bits of `w` is set. */
  ghost predicate Highest(word: u64, num: int, w: u64, k: nat)
  {
    && num <= 63
    && (forall i: nat :: Bit(w, i) <==> 63 - num <= i < 64 && Bit(word, i - (63 - num)))
    && (forall i: nat :: i > num ==> !Bit(word, i))
    && (exists i: nat :: 64 - k <= i < 64 && Bit(w, i))
  }

  lemma UpperHalf(word: u64, num: int, w: u64, k: nat, mask: u64)
    requires Highest(word, num, w, 2 * k) && k <= 32
    requires forall i: nat :: Bit(mask, i) <==> 64 - k <= i < 64
    ensures And64(w, mask) != 0 ==> Highest(word, num, w, k)
    ensures And64(w, mask) == 0 ==> Highest(word, num - k, Shl64(w, k), k)
  {
    var m := And64(w, mask);
    AndBits(w, mask);
    if m != 0 {
      var i := NonZeroHasBit(m);
      assert 64 - k <= i < 64 && Bit(w, i);
    } else {
      forall i: nat ensures !Bit(m, i) { BitOfZero(i); }
      forall i: nat | 64 - k <= i < 64 ensures !Bit(w, i) { assert Bit(m, i) <==> Bit(w, i) && Bit(mask, i); }
      UpperClear(word, num, w, k);
    }
  }

  lemma UpperClear(word: u64, num: int, w: u64, k: nat)
    requires Highest(word, num, w, 2 * k) && k <= 32
    requires forall i: nat :: 64 - k <= i < 64 ==> !Bit(w, i)
    ensures Highest(word, num - k, Shl64(w, k), k)
  {
    forall i: nat | i > num - k ensures !Bit(word, i) {
      if i <= num { assert Bit(w, i + (63 - num)) <==> Bit(word, i); }
    }
    var w' := Shl64(w, k);
    ShlBits(w, k);
    forall i: nat ensures Bit(w', i) <==> 63 - (num - k) <= i < 64 && Bit(word, i - (63 - (num - k))) {
      if i >= k { assert Bit(w, i - k) <==> 63 - num <= i - k < 64 && Bit(word, i - k - (63 - num)); }
    }
    var j: nat :| 64 - 2 * k <= j < 64 && Bit(w, j);
    assert Bit(w', j + k);
  }

  /** One halving of bitops_flsl: an empty upper half is shifted out and counted down. */
  method UpperStep(ghost word0: u64, num: int, word: u64, k: nat) returns (num': int, word': u64)
    requires Highest(word0, num, word, 2 * k) && k <= 32
    ensures Highest(word0, num', word', k)
  {
    MaskFromBits(64 - k);
    UpperHalf(word0, num, word, k, MaskFrom(64 - k));
    num', word' := num, word;
    if And64(word, MaskFrom(64 - k)) == 0 {
      num', word' := num - k, Shl64(word, k);
    }
  }

  /** bitops_flsl */
  method Flsl(word0: u64) returns (num: int)
    requires word0 != 0
    ensures 0 <= num < 64 && Bit(word0, num)
    ensures forall i: nat :: i > num ==> !Bit(word0, i)
  {
    num := 63;
    var word := word0;
    assert Highest(word0, num, word, 64) by {
      forall i: nat | i >= 64 ensures !Bit(word, i) { NoBit64(word, i); }
      var i := NonZeroHasBit(word);
      assert Bit(word, i);
    }
    num, word := UpperStep(word0, num, word, 32);
    num, word := UpperStep(word0, num, word, 16);
    num, word := UpperStep(word0, num, word, 8);
    num, word := UpperStep(word0, num, word, 4);
    num, word := UpperStep(word0, num, word, 2);
    num, word := UpperStep(word0, num, word, 1);
    assert Bit(word, 63);
  }

  /** ffz */
  method Ffz(word: u64) returns (num: nat)
    requires word != ALL_ONES
    ensures num < 64 && !Bit(word, num)
    ensures forall i: nat :: i < num ==> Bit(word, i)
  {
    NotBits(word);
    IsZero(Not64(word));
    num := Ffsl(Not64(word));
    forall i: nat | i < num ensures Bit(word, i) {
      assert !Bit(Not64(word), i);
    }
  }

  // ---------- searches over a bitmap ----------

  /** What word `p` of the bitmap says about the positions `64 * p + from .. 64 * p + k`. */
  lemma WordMiss(bits: seq<u64>, p: nat, w: u64, from: nat, k: nat, v: bool)
    requires p < |bits| && bits[p] == w && k <= 64
    requires forall i: nat :: from <= i < k ==> Bit(w, i) != v
    ensures NoneIn(bits, 64 * p + from, 64 * p + k, v)
    ensures k < 64 ==> TestBit(bits, 64 * p + k) == Bit(w, k)
  {
    forall i | 64 * p + from <= i < 64 * p + k ensures TestBit(bits, i) != v {
      assert i / 64 == p && i % 64 == i - 64 * p;
      assert Bit(w, i - 64 * p) != v;
    }
  }

  /** The `found_first` tail of find_next_bit: the lowest set bit of a word below `size`, or `size`. */
  method FirstBelow(word: u64, size: nat) returns (k: nat)
    requires 0 < size < 64
    ensures k <= size && (k < size ==> Bit(word, k))
    ensures forall i: nat :: i < k ==> !Bit(word, i)
  {
    MaskBelowBits(size);
    AndBits(word, MaskBelow(size));
    var tmp := And64(word, MaskBelow(size));
    IsZero(tmp);
    if tmp == 0 {
      k := size;
      forall i: nat | i < size ensures !Bit(word, i) { assert !Bit(tmp, i); }
      return;
    }
    k := Ffsl(tmp);
    forall i: nat | i < k ensures !Bit(word, i) { assert !Bit(tmp, i); }
  }

  /** The loop of find_next_bit over whole words, and its partial last word. */
  method ScanBits(addr: array<u64>, p0: nat, size1: nat) returns (r: nat)
    requires 64 * p0 + size1 <= 64 * addr.Length && 64 * p0 + size1 < TWO64
    ensures 64 * p0 <= r <= 64 * p0 + size1
    ensures NoneIn(addr[..], 64 * p0, r, true)
    ensures r < 64 * p0 + size1 ==> TestBit(addr[..], r)
  {
    var p: nat, size: u64, result: u64 := p0, size1, 64 * p0;
    WordBase(size);
    while And64(size, Not64(63)) != 0
      invariant result == 64 * p && p0 <= p && result + size == 64 * p0 + size1
      invariant And64(size, Not64(63)) == size / 64 * 64
      invariant NoneIn(addr[..], 64 * p0, result, true)
    {
      var tmp := addr[p];
      p := p + 1;
      if tmp != 0 {
        var k := Ffsl(tmp);
        WordMiss(addr[..], p - 1, tmp, 0, k, true);
        return result + k;
      }
      IsZero(tmp);
      WordMiss(addr[..], p - 1, tmp, 0, 64, true);
      result, size := result + 64, size - 64;
      WordBase(size);
    }
    if size == 0 {
      return result;
    }
    var k := FirstBelow(addr[p], size);
    WordMiss(addr[..], p, addr[p], 0, k, true);
    return result + k;
  }

  /** find_next_bit */
  method FindNextBit(addr: array<u64>, size0: u64, offset0: u64) returns (r: u64)
    requires size0 <= 64 * addr.Length
    ensures IsNext(addr[..], size0, offset0, true, r)
  {
    var p := offset0 / 64;
    WordBase(offset0);
    var result := And64(offset0, Not64(63));
    if offset0 >= size0 {
      return size0;
    }
    var size := size0 - result;
    var offset := offset0 % 64;
    if offset != 0 {
      var w := addr[p];
      var tmp := And64(w, MaskFrom(offset));
      p := p + 1;
      if size < 64 {
        var k := FirstBelow(tmp, size);
        MaskedMiss(addr[..], p - 1, w, offset, tmp, k);
        return result + k;
      }
      if tmp != 0 {
        var k := Ffsl(tmp);
        MaskedMiss(addr[..], p - 1, w, offset, tmp, k);
        return result + k;
      }
      IsZero(tmp);
      MaskedMiss(addr[..], p - 1, w, offset, tmp, 64);
      size := size - 64;
    }
    r := ScanBits(addr, p, size);
  }

  /** Masking off the positions below `offset` loses nothing of the search range. */
  lemma MaskedMiss(bits: seq<u64>, p: nat, w: u64, offset: nat, tmp: u64, k: nat)
    requires p < |bits| && bits[p] == w && offset < 64 && k <= 64
    requires tmp == And64(w, MaskFrom(offset))
    requires forall i: nat :: i < k ==> !Bit(tmp, i)
    ensures NoneIn(bits, 64 * p + offset, 64 * p + k, true)
    ensures k < 64 && Bit(tmp, k) ==> offset <= k && TestBit(bits, 64 * p + k)
  {
    MaskFromBits(offset);
    AndBits(w, MaskFrom(offset));
    forall i: nat | offset <= i < k ensures !Bit(w, i) { assert !Bit(tmp, i); }
    WordMiss(bits, p, w, offset, k, true);
  }

  /** The `found_first` tail of find_next_zero_bit. */
  method FirstZeroBelow(word: u64, size: nat) returns (k: nat)
    requires 0 < size < 64
    ensures k <= size && (k < size ==> !Bit(word, k))
    ensures forall i: nat :: i < k ==> Bit(word, i)
  {
    MaskFromBits(size);
    OrBits(word, MaskFrom(size));
    var tmp := Or64(word, MaskFrom(size));
    IsAllOnes(tmp);
    if tmp == ALL_ONES {
      k := size;
      forall i: nat | i < size ensures Bit(word, i) { assert Bit(tmp, i); }
      return;
    }
    k := Ffz(tmp);
    assert !Bit(tmp, k);
    forall i: nat | i < k ensures Bit(word, i) { assert Bit(tmp, i); }
  }

  /** The loop of find_next_zero_bit over whole words, and its partial last word. */
  method ScanZeros(addr: array<u64>, p0: nat, size1: nat) returns (r: nat)
    requires 64 * p0 + size1 <= 64 * addr.Length && 64 * p0 + size1 < TWO64
    ensures 64 * p0 <= r <= 64 * p0 + size1
    ensures NoneIn(addr[..], 64 * p0, r, false)
    ensures r < 64 * p0 + size1 ==> !TestBit(addr[..], r)
  {
    var p: nat, size: u64, result: u64 := p0, size1, 64 * p0;
    WordBase(size);
    while And64(size, Not64(63)) != 0
      invariant result == 64 * p && p0 <= p && result + size == 64 * p0 + size1
      invariant And64(size, Not64(63)) == size / 64 * 64
      invariant NoneIn(addr[..], 64 * p0, result, false)
    {
      var tmp := addr[p];
      p := p + 1;
      if Not64(tmp) != 0 {
        var k := Ffz(tmp);
        WordMiss(addr[..], p - 1, tmp, 0, k, false);
        return result + k;
      }
      IsAllOnes(tmp);
      WordMiss(addr[..], p - 1, tmp, 0, 64, false);
      result, size := result + 64, size - 64;
      WordBase(size);
    }
    if size == 0 {
      return result;
    }
    var k := FirstZeroBelow(addr[p], size);
    WordMiss(addr[..], p, addr[p], 0, k, false);
    return result + k;
  }

  /** find_next_zero_bit */
  method FindNextZeroBit(addr: array<u64>, size0: u64, offset0: u64) returns (r: u64)
    requires size0 <= 64 * addr.Length
    ensures IsNext(addr[..], size0, offset0, false, r)
  {
    var p := offset0 / 64;
    WordBase(offset0);
    var result := And64(offset0, Not64(63));
    if offset0 >= size0 {
      return size0;
    }
    var size := size0 - result;
    var offset := offset0 % 64;
    if offset != 0 {
      var w := addr[p];
      var tmp := Or64(w, MaskBelow(offset));
      p := p + 1;
      if size < 64 {
        var k := FirstZeroBelow(tmp, size);
        MaskedZeroMiss(addr[..], p - 1, w, offset, tmp, k);
        return result + k;
      }
      if Not64(tmp) != 0 {
        var k := Ffz(tmp);
        MaskedZeroMiss(addr[..], p - 1, w, offset, tmp, k);
        return result + k;
      }
      IsAllOnes(tmp);
      MaskedZeroMiss(addr[..], p - 1, w, offset, tmp, 64);
      size := size - 64;
    }
    r := ScanZeros(addr, p, size);
  }

  lemma MaskedZeroMiss(bits: seq<u64>, p: nat, w: u64, offset: nat, tmp: u64, k: nat)
    requires p < |bits| && bits[p] == w && offset < 64 && k <= 64
    requires tmp == Or64(w, MaskBelow(offset))
    requires forall i: nat :: i < k ==> Bit(tmp, i)
    ensures NoneIn(bits, 64 * p + offset, 64 * p + k, false)
    ensures k < 64 && !Bit(tmp, k) ==> offset <= k && !TestBit(bits, 64 * p + k)
  {
    MaskBelowBits(offset);
    OrBits(w, MaskBelow(offset));
    forall i: nat | offset <= i < k ensures Bit(w, i) { assert Bit(tmp, i); }
    WordMiss(bits, p, w, offset, k, false);
  }

  /** `r` is the greatest set position below `size`, or `size` if there is none. */
  ghost predicate IsLast(bits: seq<u64>, size: nat, r: nat)
    requires size <= 64 * |bits|
  {
    if r < size then TestBit(bits, r) && NoneIn(bits, r + 1, size, true)
    else r == size && NoneIn(bits, 0, size, true)
  }

  /** A set bit `k` of word `p` with nothing set after it in the word. */
  lemma LastInWord(bits: seq<u64>, p: nat, w: u64, k: nat, hi: nat)
    requires p < |bits| && bits[p] == w && k < 64
    requires Bit(w, k) && forall i: nat :: k < i < hi ==> !Bit(w, i)
    requires hi <= 64
    ensures TestBit(bits, 64 * p + k) && NoneIn(bits, 64 * p + k + 1, 64 * p + hi, true)
  {
    WordMiss(bits, p, w, k + 1, hi, true);
    assert (64 * p + k) / 64 == p && (64 * p + k) % 64 == k;
  }

  /** find_last_bit */
  method FindLastBit(addr: array<u64>, size: u64) returns (r: u64)
    requires size <= 64 * addr.Length
    ensures IsLast(addr[..], size, r)
  {
    var words := size / 64;
    WordBase(size);
    if And64(size, 63) != 0 {
      var part := size % 64;
      var w := addr[words];
      var tmp := And64(w, MaskBelow(And64(size, 63)));
      MaskBelowBits(part);
      AndBits(w, MaskBelow(part));
      if tmp != 0 {
        var k := Flsl(tmp);
        assert Bit(tmp, k);
        forall i: nat | k < i < part ensures !Bit(w, i) { assert !Bit(tmp, i); }
        LastInWord(addr[..], words, w, k, part);
        return words * 64 + k;
      }
      IsZero(tmp);
      forall i: nat | i < part ensures !Bit(w, i) { assert !Bit(tmp, i); }
      WordMiss(addr[..], words, w, 0, part, true);
    }
    while words != 0
      invariant 0 <= 64 * words <= size
      invariant NoneIn(addr[..], 64 * words, size, true)
    {
      words := words - 1;
      var tmp := addr[words];
      if tmp != 0 {
        var k := Flsl(tmp);
        LastInWord(addr[..], words, tmp, k, 64);
        return words * 64 + k;
      }
      IsZero(tmp);
      WordMiss(addr[..], words, tmp, 0, 64, true);
    }
    return size;
  }
}
