/**
  Bitmaps of any length (bitmap.h, bitmap.c): range updates, Boolean queries, bitwise combinations
  and the search for a free aligned area, each specified on bit positions.
 */
module Bitmap {
  import opened Bits
  import opened Words
  import opened Bitops

  // ---------- masks ----------

  /** BITMAP_LAST_WORD_MASK */
  function LastWordMask(nbits: nat): u64
  {
    if nbits % 64 != 0 then Predecessor(nbits % 64) else ALL_ONES
  }

  /** The number of positions of the last word that `LastWordMask` keeps. */
  function LastWordBits(nbits: nat): nat
  {
    if nbits % 64 != 0 then nbits % 64 else 64
  }

  lemma LastWordMaskBits(nbits: nat)
    ensures forall i: nat :: Bit(LastWordMask(nbits), i) <==> i < LastWordBits(nbits)
  {
    if nbits % 64 != 0 {
      PredecessorBits(nbits % 64);
    } else {
      IsAllOnes(ALL_ONES);
      forall i: nat ensures Bit(ALL_ONES, i) <==> i < 64 {
        if i >= 64 { NoBit64(ALL_ONES, i); }
      }
    }
  }

  // ---------- range updates ----------

  /** `after` is `before` with the positions `[lo, hi)` set to `v` and every other position kept. */
  ghost predicate RangeIs(before: seq<u64>, after: seq<u64>, lo: nat, hi: nat, v: bool)
  {
    && |before| == |after|
    && forall i: nat :: i < 64 * |after| ==>
         TestBit(after, i) == (if lo <= i < hi then v else TestBit(before, i))
  }

  lemma RangesJoin(a: seq<u64>, b: seq<u64>, c: seq<u64>, lo: nat, mid: nat, hi: nat, v: bool)
    requires lo <= mid <= hi
    requires RangeIs(a, b, lo, mid, v) && RangeIs(b, c, mid, hi, v)
    ensures RangeIs(a, c, lo, hi, v)
  {
  }

  /** Replacing word `p` by one that differs only on the bits `[from, to)`. */
  lemma WordUpdate(before: seq<u64>, p: nat, w: u64, from: nat, to: nat, v: bool)
    requires p < |before| && to <= 64
    requires forall i: nat :: i < 64 ==> Bit(w, i) == (if from <= i < to then v else Bit(before[p], i))
    ensures RangeIs(before, before[p := w], 64 * p + from, 64 * p + to, v)
  {
    var after := before[p := w];
    forall i: nat | i < 64 * |after|
      ensures TestBit(after, i) == (if 64 * p + from <= i < 64 * p + to then v else TestBit(before, i))
    {
      if i / 64 == p {
        assert i % 64 < 64;
      }
    }
  }

  /** `w | mask` sets, and `w & ~mask` clears, the positions of the mask. */
  lemma MaskedWord(w: u64, mask: u64, from: nat, to: nat)
    requires forall i: nat :: Bit(mask, i) <==> from <= i < to
    requires to <= 64
    ensures forall i: nat :: i < 64 ==> Bit(Or64(w, mask), i) == (if from <= i < to then true else Bit(w, i))
    ensures forall i: nat :: i < 64 ==>
      Bit(And64(w, Not64(mask)), i) == (if from <= i < to then false else Bit(w, i))
  {
    OrBits(w, mask);
    NotBits(mask);
    AndBits(w, Not64(mask));
  }

  /** The masks of bitmap_set: all positions from `from`, cut at `size` in the last word. */
  lemma CutMask(mask: u64, from: nat, size: nat)
    requires forall i: nat :: Bit(mask, i) <==> from <= i < 64
    requires size % 64 != 0
    ensures forall i: nat :: Bit(And64(mask, LastWordMask(size)), i) <==> from <= i < size % 64
  {
    LastWordMaskBits(size);
    AndBits(mask, LastWordMask(size));
  }

  lemma FullMaskBits()
    ensures forall i: nat :: Bit(ALL_ONES, i) <==> 0 <= i < 64
  {
    assert LastWordMask(0) == ALL_ONES;
    LastWordMaskBits(0);
  }

  /** bitmap_set */
  method Set(bits: array<u64>, start: nat, nr0: nat)
    requires start + nr0 <= 64 * bits.Length
    modifies bits
    ensures RangeIs(old(bits[..]), bits[..], start, start + nr0, true)
  {
    var p, nr := start / 64, nr0;
    var size := start + nr;
    var bitsToSet := 64 - start % 64;
    var mask := MaskFrom(start % 64);
    MaskFromBits(start % 64);
    ghost var was := bits[..];
    while nr - bitsToSet >= 0
      invariant 1 <= bitsToSet <= 64 && 0 <= nr && size == start + nr0
      invariant 64 * p + (64 - bitsToSet) + nr == size && start <= 64 * p + (64 - bitsToSet)
      invariant forall i: nat :: Bit(mask, i) <==> 64 - bitsToSet <= i < 64
      invariant RangeIs(was, bits[..], start, 64 * p + (64 - bitsToSet), true)
    {
      ghost var before := bits[..];
      MaskedWord(bits[p], mask, 64 - bitsToSet, 64);
      WordUpdate(before, p, Or64(bits[p], mask), 64 - bitsToSet, 64, true);
      bits[p] := Or64(bits[p], mask);
      assert bits[..] == before[p := Or64(before[p], mask)];
      RangesJoin(was, before, bits[..], start, 64 * p + (64 - bitsToSet), 64 * p + 64, true);
      nr := nr - bitsToSet;
      bitsToSet := 64;
      mask := ALL_ONES;
      FullMaskBits();
      p := p + 1;
    }
    if nr != 0 {
      ghost var from, before := 64 - bitsToSet, bits[..];
      assert size / 64 == p && size % 64 == from + nr;
      CutMask(mask, from, size);
      mask := And64(mask, LastWordMask(size));
      MaskedWord(bits[p], mask, from, size % 64);
      WordUpdate(before, p, Or64(bits[p], mask), from, size % 64, true);
      bits[p] := Or64(bits[p], mask);
      assert bits[..] == before[p := Or64(before[p], mask)];
      RangesJoin(was, before, bits[..], start, 64 * p + from, size, true);
    }
  }

  /** bitmap_clear */
  method Clear(bits: array<u64>, start: nat, nr0: nat)
    requires start + nr0 <= 64 * bits.Length
    modifies bits
    ensures RangeIs(old(bits[..]), bits[..], start, start + nr0, false)
  {
    var p, nr := start / 64, nr0;
    var size := start + nr;
    var bitsToClear := 64 - start % 64;
    var mask := MaskFrom(start % 64);
    MaskFromBits(start % 64);
    ghost var was := bits[..];
    while nr - bitsToClear >= 0
      invariant 1 <= bitsToClear <= 64 && 0 <= nr && size == start + nr0
      invariant 64 * p + (64 - bitsToClear) + nr == size && start <= 64 * p + (64 - bitsToClear)
      invariant forall i: nat :: Bit(mask, i) <==> 64 - bitsToClear <= i < 64
      invariant RangeIs(was, bits[..], start, 64 * p + (64 - bitsToClear), false)
    {
      ghost var before := bits[..];
      MaskedWord(bits[p], mask, 64 - bitsToClear, 64);
      WordUpdate(before, p, And64(bits[p], Not64(mask)), 64 - bitsToClear, 64, false);
      bits[p] := And64(bits[p], Not64(mask));
      assert bits[..] == before[p := And64(before[p], Not64(mask))];
      RangesJoin(was, before, bits[..], start, 64 * p + (64 - bitsToClear), 64 * p + 64, false);
      nr := nr - bitsToClear;
      bitsToClear := 64;
      mask := ALL_ONES;
      FullMaskBits();
      p := p + 1;
    }
    if nr != 0 {
      ghost var from, before := 64 - bitsToClear, bits[..];
      assert size / 64 == p && size % 64 == from + nr;
      CutMask(mask, from, size);
      mask := And64(mask, LastWordMask(size));
      MaskedWord(bits[p], mask, from, size % 64);
      WordUpdate(before, p, And64(bits[p], Not64(mask)), from, size % 64, false);
      bits[p] := And64(bits[p], Not64(mask));
      assert bits[..] == before[p := And64(before[p], Not64(mask))];
      RangesJoin(was, before, bits[..], start, 64 * p + from, size, false);
    }
  }

  // ---------- Boolean queries ----------

  /** bitmap_empty, bitmap_full, bitmap_equal and (negated) bitmap_intersects. */
  datatype Query = Empty | Full | Equal | Disjoint

  /** What the query asks of one position. */
  predicate Ok(q: Query, x: bool, y: bool)
  {
    match q
    case Empty => !x
    case Full => x
    case Equal => x == y
    case Disjoint => !(x && y)
  }

  /** The word the code tests for zero: its set bits are the positions that fail the query. */
  function Tested(q: Query, x: u64, y: u64): u64
  {
    match q
    case Empty => x
    case Full => Not64(x)
    case Equal => Xor64(x, y)
    case Disjoint => And64(x, y)
  }

  lemma TestedBits(q: Query, x: u64, y: u64)
    ensures forall i: nat :: i < 64 ==> (Bit(Tested(q, x, y), i) <==> !Ok(q, Bit(x, i), Bit(y, i)))
  {
    NotBits(x);
    XorBits(x, y);
    AndBits(x, y);
  }

  ghost predicate Holds(q: Query, a: seq<u64>, b: seq<u64>, lo: nat, hi: nat)
    requires hi <= 64 * |a| && hi <= 64 * |b|
  {
    forall i: nat :: lo <= i < hi ==> Ok(q, TestBit(a, i), TestBit(b, i))
  }

  /** Testing the first `n` bits of word `k` decides the query on those positions. */
  lemma WordDecides(q: Query, a: seq<u64>, b: seq<u64>, k: nat, n: nat, mask: u64)
    requires k < |a| && k < |b| && n <= 64
    requires forall i: nat :: Bit(mask, i) <==> i < n
    ensures And64(Tested(q, a[k], b[k]), mask) == 0 <==> Holds(q, a, b, 64 * k, 64 * k + n)
  {
    var t := Tested(q, a[k], b[k]);
    TestedBits(q, a[k], b[k]);
    AndBits(t, mask);
    IsZero(And64(t, mask));
    if Holds(q, a, b, 64 * k, 64 * k + n) {
      forall i: nat | i < 64 ensures !Bit(And64(t, mask), i) {
        if i < n {
          assert (64 * k + i) / 64 == k && (64 * k + i) % 64 == i;
          assert Ok(q, TestBit(a, 64 * k + i), TestBit(b, 64 * k + i));
        }
      }
    } else {
      var j: nat :| 64 * k <= j < 64 * k + n && !Ok(q, TestBit(a, j), TestBit(b, j));
      assert j / 64 == k && j % 64 == j - 64 * k;
      assert Bit(And64(t, mask), j - 64 * k);
    }
  }

  lemma AndAllOnes(t: u64)
    ensures And64(t, ALL_ONES) == t
  {
    FullMaskBits();
    AndBits(t, ALL_ONES);
    SameBits(And64(t, ALL_ONES), t);
  }

  /** slow_bitmap_empty, slow_bitmap_full, slow_bitmap_equal, slow_bitmap_intersects */
  method SlowQuery(q: Query, a: array<u64>, b: array<u64>, nbits: nat) returns (r: bool)
    requires nbits <= 64 * a.Length && nbits <= 64 * b.Length
    ensures r <==> Holds(q, a[..], b[..], 0, nbits)
  {
    var lim := nbits / 64;
    for k := 0 to lim
      invariant Holds(q, a[..], b[..], 0, 64 * k)
    {
      FullMaskBits();
      WordDecides(q, a[..], b[..], k, 64, ALL_ONES);
      AndAllOnes(Tested(q, a[k], b[k]));
      if Tested(q, a[k], b[k]) != 0 {
        return false;
      }
    }
    if nbits % 64 != 0 {
      LastWordMaskBits(nbits);
      WordDecides(q, a[..], b[..], lim, nbits % 64, LastWordMask(nbits));
      if And64(Tested(q, a[lim], b[lim]), LastWordMask(nbits)) != 0 {
        return false;
      }
    }
    return true;
  }

  /** The one-word test: no position of the word below `LastWordBits(nbits)` fails the query. */
  method WordQuery(q: Query, x: u64, y: u64, nbits: nat) returns (r: bool)
    ensures r <==> forall i: nat :: i < LastWordBits(nbits) ==> Ok(q, Bit(x, i), Bit(y, i))
  {
    var mask := LastWordMask(nbits);
    LastWordMaskBits(nbits);
    WordDecides(q, [x], [y], 0, LastWordBits(nbits), mask);
    FirstWord(q, [x], [y], LastWordBits(nbits));
    return And64(Tested(q, x, y), mask) == 0;
  }

  lemma FirstWord(q: Query, a: seq<u64>, b: seq<u64>, n: nat)
    requires 1 <= |a| && 1 <= |b| && n <= 64
    ensures Holds(q, a, b, 0, n) <==> forall i: nat :: i < n ==> Ok(q, Bit(a[0], i), Bit(b[0], i))
  {
    forall i: nat | i < n
      ensures TestBit(a, i) == Bit(a[0], i) && TestBit(b, i) == Bit(b[0], i)
    {
    }
  }

  /** bitmap_empty, bitmap_full, bitmap_equal, bitmap_intersects: one word is tested without a loop.
      The answer depends on the first `nbits` positions only, except that a query on zero bits reads
      the whole first word. */
  method FastQuery(q: Query, a: array<u64>, b: array<u64>, nbits: nat) returns (r: bool)
    requires 1 <= a.Length && 1 <= b.Length
    requires nbits <= 64 * a.Length && nbits <= 64 * b.Length
    ensures nbits >= 1 ==> (r <==> Holds(q, a[..], b[..], 0, nbits))
    ensures nbits == 0 ==> (r <==> Holds(q, a[..], b[..], 0, 64))
  {
    if nbits <= 64 {
      r := WordQuery(q, a[0], b[0], nbits);
      FirstWord(q, a[..], b[..], LastWordBits(nbits));
    } else {
      r := SlowQuery(q, a, b, nbits);
    }
  }

  // ---------- bitwise combinations ----------

  datatype Operation = AndOp | OrOp | XorOp | AndNotOp

  predicate OnBits(op: Operation, x: bool, y: bool)
  {
    match op
    case AndOp => x && y
    case OrOp => x || y
    case XorOp => x != y
    case AndNotOp => x && !y
  }

  function OnWords(op: Operation, x: u64, y: u64): u64
  {
    match op
    case AndOp => And64(x, y)
    case OrOp => Or64(x, y)
    case XorOp => Xor64(x, y)
    case AndNotOp => And64(x, Not64(y))
  }

  lemma OnWordsBits(op: Operation, x: u64, y: u64)
    ensures forall i: nat :: i < 64 ==> (Bit(OnWords(op, x, y), i) <==> OnBits(op, Bit(x, i), Bit(y, i)))
  {
    AndBits(x, y);
    OrBits(x, y);
    XorBits(x, y);
    NotBits(y);
    AndBits(x, Not64(y));
  }

  /** BITS_TO_LONGS */
  function WordsFor(nbits: nat): nat
  {
    (nbits + 63) / 64
  }

  /** No unused bit of the last word is set. */
  ghost predicate CleanTail(bits: seq<u64>, nbits: nat)
    requires WordsFor(nbits) <= |bits|
  {
    NoneIn(bits, nbits, 64 * WordsFor(nbits), true)
  }

  /** On the positions of the first `n` words `d` is the combination of `a` and `b`; elsewhere it is
      `was`. */
  ghost predicate Combined(op: Operation, was: seq<u64>, d: seq<u64>, a: seq<u64>, b: seq<u64>, n: nat)
    requires |was| == |d| && n <= |d| && n <= |a| && n <= |b|
  {
    && (forall i: nat :: i < 64 * n ==> TestBit(d, i) == OnBits(op, TestBit(a, i), TestBit(b, i)))
    && (forall k :: n <= k < |d| ==> d[k] == was[k])
  }

  lemma CombineWord(op: Operation, was: seq<u64>, d: seq<u64>, a: seq<u64>, b: seq<u64>, n: nat)
    requires |was| == |d| && n < |d| && n < |a| && n < |b|
    requires Combined(op, was, d, a, b, n)
    ensures Combined(op, was, d[n := OnWords(op, a[n], b[n])], a, b, n + 1)
  {
    var w := OnWords(op, a[n], b[n]);
    var d' := d[n := w];
    OnWordsBits(op, a[n], b[n]);
    forall i: nat | i < 64 * (n + 1)
      ensures TestBit(d', i) == OnBits(op, TestBit(a, i), TestBit(b, i))
    {
      if i < 64 * n {
        assert TestBit(d, i) == OnBits(op, TestBit(a, i), TestBit(b, i));
      } else {
        assert i / 64 == n;
      }
    }
  }

  /** slow_bitmap_and, slow_bitmap_or, slow_bitmap_xor, slow_bitmap_andnot; `dst` may be a source.
      The returned flag (of and, andnot) also counts the unused bits of the last word. */
  method Combine(op: Operation, dst: array<u64>, a: array<u64>, b: array<u64>, nbits: nat) returns (any: bool)
    requires WordsFor(nbits) <= dst.Length && WordsFor(nbits) <= a.Length && WordsFor(nbits) <= b.Length
    modifies dst
    ensures Combined(op, old(dst[..]), dst[..], old(a[..]), old(b[..]), WordsFor(nbits))
    ensures any <==> !NoneIn(dst[..], 0, 64 * WordsFor(nbits), true)
  {
    var nr := WordsFor(nbits);
    var result := 0;
    ghost var was, sa, sb := dst[..], a[..], b[..];
    for k := 0 to nr
      invariant Combined(op, was, dst[..], sa, sb, k)
      invariant a[k..] == sa[k..] && b[k..] == sb[k..]
      invariant result == 0 <==> NoneIn(dst[..], 0, 64 * k, true)
    {
      assert a[k] == a[k..][0] == sa[k] && b[k] == b[k..][0] == sb[k];
      ghost var before := dst[..];
      var w := OnWords(op, a[k], b[k]);
      CombineWord(op, was, before, sa, sb, k);
      KeepsPrefix(before, k, w);
      dst[k] := w;
      assert dst[..] == before[k := w];
      OrIsZero(result, w);
      result := Or64(result, w);
      assert a[k + 1..] == sa[k + 1..] && b[k + 1..] == sb[k + 1..];
    }
    any := result != 0;
  }

  /** The words that the operations of bitmap.h write: one for small bitmaps, even for no bits. */
  function WordsWritten(nbits: nat): nat
  {
    if nbits <= 64 then 1 else WordsFor(nbits)
  }

  /** bitmap_and, bitmap_or, bitmap_xor, bitmap_andnot: one word is combined without a loop. */
  method FastCombine(op: Operation, dst: array<u64>, a: array<u64>, b: array<u64>, nbits: nat) returns (any: bool)
    requires WordsWritten(nbits) <= dst.Length && WordsWritten(nbits) <= a.Length && WordsWritten(nbits) <= b.Length
    modifies dst
    ensures Combined(op, old(dst[..]), dst[..], old(a[..]), old(b[..]), WordsWritten(nbits))
    ensures any <==> !NoneIn(dst[..], 0, 64 * WordsWritten(nbits), true)
    ensures nbits >= 1 ==> WordsWritten(nbits) == WordsFor(nbits)
  {
    if nbits <= 64 {
      ghost var was := dst[..];
      var w := OnWords(op, a[0], b[0]);
      CombineWord(op, was, was, a[..], b[..], 0);
      KeepsPrefix(was, 0, w);
      dst[0] := w;
      assert dst[..] == was[0 := w];
      any := w != 0;
    } else {
      any := Combine(op, dst, a, b, nbits);
    }
  }

  lemma OrIsZero(x: u64, y: u64)
    ensures Or64(x, y) == 0 <==> x == 0 && y == 0
  {
    OrBits(x, y);
    IsZero(x);
    IsZero(y);
    IsZero(Or64(x, y));
  }

  lemma KeepsPrefix(before: seq<u64>, k: nat, w: u64)
    requires k < |before|
    ensures NoneIn(before[k := w], 0, 64 * (k + 1), true) <==> NoneIn(before, 0, 64 * k, true) && w == 0
  {
    var after := before[k := w];
    IsZero(w);
    forall i: nat | i < 64 * k ensures TestBit(after, i) == TestBit(before, i) {}
    if w == 0 {
      WordMiss(after, k, w, 0, 64, true);
    } else {
      var i: nat :| i < 64 && Bit(w, i);
      assert (64 * k + i) / 64 == k && (64 * k + i) % 64 == i;
      assert TestBit(after, 64 * k + i);
    }
    assert NoneIn(after, 0, 64 * k, true) <==> NoneIn(before, 0, 64 * k, true);
  }

  /** Clean-tailed sources give a clean-tailed result. */
  lemma CombineKeepsCleanTail(op: Operation, was: seq<u64>, d: seq<u64>, a: seq<u64>, b: seq<u64>, nbits: nat)
    requires |was| == |d| && WordsFor(nbits) <= |d| && WordsFor(nbits) <= |a| && WordsFor(nbits) <= |b|
    requires Combined(op, was, d, a, b, WordsFor(nbits))
    requires CleanTail(a, nbits) && CleanTail(b, nbits)
    ensures CleanTail(d, nbits)
  {
  }

  /** Somewhere from `lo` to before `hi` the operands combine to a set bit. */
  ghost predicate Meets(op: Operation, a: seq<u64>, b: seq<u64>, lo: nat, hi: nat)
    requires hi <= 64 * |a| && hi <= 64 * |b|
  {
    exists i: nat :: lo <= i < hi && OnBits(op, TestBit(a, i), TestBit(b, i))
  }

  /** The flag returned by bitmap_and and bitmap_andnot tells whether the result has a position below
      `nbits` exactly when the operands meet below `nbits`, or do not meet in their tails. */
  lemma ReturnedFlag(op: Operation, was: seq<u64>, d: seq<u64>, a: seq<u64>, b: seq<u64>, nbits: nat, any: bool)
    requires |was| == |d| && WordsFor(nbits) <= |d| && WordsFor(nbits) <= |a| && WordsFor(nbits) <= |b|
    requires Combined(op, was, d, a, b, WordsFor(nbits)) && any == !NoneIn(d, 0, 64 * WordsFor(nbits), true)
    ensures (any <==> !NoneIn(d, 0, nbits, true))
      <==> Meets(op, a, b, 0, nbits) || !Meets(op, a, b, nbits, 64 * WordsFor(nbits))
  {
    MeetsIn(op, was, d, a, b, nbits, 0, nbits);
    MeetsIn(op, was, d, a, b, nbits, nbits, 64 * WordsFor(nbits));
    if NoneIn(d, 0, nbits, true) && NoneIn(d, nbits, 64 * WordsFor(nbits), true) {
      assert NoneIn(d, 0, 64 * WordsFor(nbits), true);
    }
  }

  lemma MeetsIn(op: Operation, was: seq<u64>, d: seq<u64>, a: seq<u64>, b: seq<u64>, nbits: nat, lo: nat, hi: nat)
    requires |was| == |d| && WordsFor(nbits) <= |d| && WordsFor(nbits) <= |a| && WordsFor(nbits) <= |b|
    requires Combined(op, was, d, a, b, WordsFor(nbits)) && hi <= 64 * WordsFor(nbits)
    ensures Meets(op, a, b, lo, hi) <==> !NoneIn(d, lo, hi, true)
  {
    if Meets(op, a, b, lo, hi) {
      var i: nat :| lo <= i < hi && OnBits(op, TestBit(a, i), TestBit(b, i));
      assert TestBit(d, i);
    }
  }

  /** bitmap_and on one bit of two words whose second bits are set: the result is empty, and the
      returned flag says it is not. */
  lemma FlagCountsTheTail()
    ensures NoneIn([And64(2, 2)], 0, 1, true) && !NoneIn([And64(2, 2)], 0, 64 * WordsFor(1), true)
  {
    assert And(2, 2) == 2;
    var d := [And64(2, 2)];
    assert Shr(2, 1) == 1;
    assert TestBit(d, 1);
  }

  /** On the positions below `n` the words of `d` up to `k` complement `a`, and above it they are clear. */
  ghost predicate Complemented(d: seq<u64>, a: seq<u64>, k: nat, n: nat)
    requires k <= |d| && k <= |a|
  {
    forall i: nat :: i < 64 * k ==> TestBit(d, i) == (i < n && !TestBit(a, i))
  }

  /** Writing word `k`, masked to the positions below `n`. */
  lemma ComplementWord(d: seq<u64>, a: seq<u64>, k: nat, n: nat, mask: u64)
    requires k < |d| && k < |a| && Complemented(d, a, k, n)
    requires forall i: nat :: i < 64 ==> (Bit(mask, i) <==> 64 * k + i < n)
    ensures Complemented(d[k := And64(Not64(a[k]), mask)], a, k + 1, n)
  {
    var w := And64(Not64(a[k]), mask);
    NotBits(a[k]);
    AndBits(Not64(a[k]), mask);
    forall i: nat | i < 64 * (k + 1) ensures TestBit(d[k := w], i) == (i < n && !TestBit(a, i)) {
      if i < 64 * k {
        assert TestBit(d, i) == (i < n && !TestBit(a, i));
      } else {
        assert i / 64 == k && i == 64 * k + i % 64;
      }
    }
  }

  /** slow_bitmap_complement and the one-word path of bitmap_complement; `dst` may be the source. */
  method Complement(dst: array<u64>, src: array<u64>, nbits: nat)
    requires WordsFor(nbits) <= dst.Length && WordsFor(nbits) <= src.Length
    modifies dst
    ensures Complemented(dst[..], old(src[..]), WordsFor(nbits), nbits)
    ensures forall k :: WordsFor(nbits) <= k < dst.Length ==> dst[k] == old(dst[k])
  {
    var lim := nbits / 64;
    ghost var was := src[..];
    for k := 0 to lim
      invariant Complemented(dst[..], was, k, nbits)
      invariant src[k..] == was[k..]
      invariant forall j :: k <= j < dst.Length ==> dst[j] == old(dst[j])
    {
      assert src[k] == src[k..][0] == was[k];
      ghost var before := dst[..];
      FullMaskBits();
      ComplementWord(before, was, k, nbits, ALL_ONES);
      AndAllOnes(Not64(was[k]));
      dst[k] := Not64(src[k]);
      assert dst[..] == before[k := Not64(was[k])];
      assert src[k + 1..] == was[k + 1..];
    }
    if nbits % 64 != 0 {
      assert src[lim] == src[lim..][0] == was[lim];
      ghost var before := dst[..];
      LastWordMaskBits(nbits);
      ComplementWord(before, was, lim, nbits, LastWordMask(nbits));
      dst[lim] := And64(Not64(src[lim]), LastWordMask(nbits));
      assert dst[..] == before[lim := And64(Not64(was[lim]), LastWordMask(nbits))];
    }
  }

  lemma FirstComplemented(before: seq<u64>, was: seq<u64>, nbits: nat)
    requires 1 <= |before| && 1 <= |was| && nbits <= 64
    ensures var after := before[0 := And64(Not64(was[0]), LastWordMask(nbits))];
      Complemented(after, was, 1, if nbits == 0 then 64 else nbits)
  {
    LastWordMaskBits(nbits);
    assert LastWordBits(nbits) == if nbits == 0 then 64 else nbits;
    ComplementWord(before, was, 0, LastWordBits(nbits), LastWordMask(nbits));
  }

  /** bitmap_complement: on no bits it complements a whole word. */
  method FastComplement(dst: array<u64>, src: array<u64>, nbits: nat)
    requires WordsWritten(nbits) <= dst.Length && WordsWritten(nbits) <= src.Length
    modifies dst
    ensures Complemented(dst[..], old(src[..]), WordsWritten(nbits), if nbits == 0 then 64 else nbits)
    ensures forall k :: WordsWritten(nbits) <= k < dst.Length ==> dst[k] == old(dst[k])
  {
    if nbits <= 64 {
      ghost var before, was := dst[..], src[..];
      FirstComplemented(before, was, nbits);
      dst[0] := And64(Not64(src[0]), LastWordMask(nbits));
      assert dst[..] == before[0 := And64(Not64(was[0]), LastWordMask(nbits))];
    } else {
      Complement(dst, src, nbits);
    }
  }

  // ---------- free aligned area ----------

  /** `index` is a multiple of `mask + 1` at or after `start` with `nr` zero bits inside `size`. */
  ghost predicate IsArea(bits: seq<u64>, size: nat, start: nat, nr: nat, mask: nat, index: nat)
    requires size <= 64 * |bits|
  {
    start <= index && Aligned(index, mask) && index + nr <= size && NoneIn(bits, index, index + nr, true)
  }

  predicate Aligned(index: nat, mask: nat)
  {
    index % (mask + 1) == 0
  }

  lemma AlignBelow(x: u64, mask: u64, r: u64)
    requires exists n: nat :: mask == Ones(n)
    requires x + mask < TWO64 && r == And64(x + mask, Not64(mask))
    ensures Aligned(r, mask) && x <= r <= x + mask
    ensures forall y: nat :: Aligned(y, mask) && x <= y ==> r <= y
  {
    var n: nat :| mask == Ones(n);
    RoundDown(x + mask, n, mask);
    OnesIsPow2Minus1(n);
    RoundUp(x, mask);
  }

  /** What is left of a sum that has wrapped is less than the mask, and is masked away. */
  lemma AlignWraps(y: u64, mask: u64)
    requires (exists n: nat :: mask == Ones(n)) && y < mask
    ensures And64(y, Not64(mask)) == 0
  {
    var n: nat :| mask == Ones(n);
    RoundDown(y, n, mask);
    OnesIsPow2Minus1(n);
    QuotientUnique(y, mask + 1, 0, y);
  }

  function Wrapped(x: nat): u64
    requires x < 2 * TWO64
  {
    if x < TWO64 then x else x - TWO64
  }

  /** ALIGN_MASK */
  function AlignedUp(x: u64, mask: u64): u64
  {
    And64(Wrapped(x + mask), Not64(mask))
  }

  /** ALIGN_MASK: the least multiple of `mask + 1` that is not below `x`; but 0 if the sum wraps. */
  lemma AlignUp(x: u64, mask: u64, r: u64)
    requires (exists n: nat :: mask == Ones(n)) && r == AlignedUp(x, mask)
    ensures x + mask < TWO64 ==> Aligned(r, mask) && x <= r <= x + mask
    ensures x + mask < TWO64 ==> forall y: nat :: Aligned(y, mask) && x <= y ==> r <= y
    ensures x + mask >= TWO64 ==> r == 0
  {
    if x + mask < TWO64 { AlignBelow(x, mask, r); } else { AlignWraps(x + mask - TWO64, mask); }
  }

  lemma RoundUp(x: nat, mask: nat)
    ensures var r := (x + mask) / (mask + 1) * (mask + 1); Aligned(r, mask) && x <= r <= x + mask
    ensures forall y: nat :: Aligned(y, mask) && x <= y ==> (x + mask) / (mask + 1) * (mask + 1) <= y
  {
    MultipleOf((x + mask) / (mask + 1), mask + 1);
    forall y: nat | Aligned(y, mask) && x <= y ensures (x + mask) / (mask + 1) * (mask + 1) <= y {
      LeastMultiple(x, y, mask + 1);
    }
  }

  lemma MultipleOf(q: nat, d: nat)
    requires d > 0
    ensures q * d % d == 0
  {
    QuotientUnique(q * d, d, q, 0);
  }

  lemma LeastMultiple(x: nat, y: nat, d: nat)
    requires d > 0 && y % d == 0 && x <= y
    ensures (x + d - 1) / d * d <= y
  {
    var q, k := (x + d - 1) / d, y / d;
    assert q * d <= x + d - 1;
    assert y == k * d;
    assert q > k ==> q * d >= (k + 1) * d == k * d + d;
  }

  /** One turn of bitmap_find_next_zero_area ends the search, or begins it again further on. */
  datatype Turn = Answer(index: u64) | Again(start: u64)

  /** A turn of the search from `start`, with sums that wrap. */
  ghost function TurnOf(bits: seq<u64>, size: u64, start: nat, nr: u64, mask: u64): Turn
    requires size <= 64 * |bits|
  {
    CheckAt(bits, size, AlignedUp(Next(bits, size, start, false), mask), nr)
  }

  ghost function CheckAt(bits: seq<u64>, size: u64, index: u64, nr: u64): Turn
    requires size <= 64 * |bits|
  {
    var end := Wrapped(index + nr);
    if end > size then Answer(end)
    else if Next(bits, end, index, true) < end then Again(Next(bits, end, index, true) + 1)
    else Answer(index)
  }

  method AreaTurn(bits: array<u64>, size: u64, start: u64, nr: u64, mask: u64) returns (t: Turn)
    requires size <= 64 * bits.Length
    ensures t == TurnOf(bits[..], size, start, nr, mask)
  {
    var zero := FindNextZeroBit(bits, size, start);
    NextIsUnique(bits[..], size, start, false, zero, Next(bits[..], size, start, false));
    var index := AlignedUp(zero, mask);
    var end := Wrapped(index + nr);
    if end > size {
      return Answer(end);
    }
    var i := FindNextBit(bits, end, index);
    NextIsUnique(bits[..], end, index, true, i, Next(bits[..], end, index, true));
    t := if i < end then Again(i + 1) else Answer(index);
  }

  /** No sum of the search wraps. */
  predicate InRange(size: nat, nr: nat, mask: nat)
  {
    size + mask + nr < TWO64
  }

  /** With the mask of all ones, the search ends. */
  ghost predicate AllOnesEnds(bits: seq<u64>, size: nat, nr: nat, mask: nat)
    requires size <= 64 * |bits|
  {
    mask == ALL_ONES && (nr > size || NoneIn(bits, 0, nr, true))
  }

  /** bitmap_find_next_zero_area */
  method FindNextZeroArea(bits: array<u64>, size: u64, start0: u64, nr: u64, mask: u64) returns (r: nat)
    requires size <= 64 * bits.Length
    requires exists n: nat :: mask == Ones(n)
    requires InRange(size, nr, mask) || AllOnesEnds(bits[..], size, nr, mask)
    ensures InRange(size, nr, mask) && nr >= 1 ==>
      && (r <= size ==> IsArea(bits[..], size, start0, nr, mask, r))
      && (forall i: nat :: IsArea(bits[..], size, start0, nr, mask, i) ==> r <= i)
      && (r > size <==> forall i: nat :: !IsArea(bits[..], size, start0, nr, mask, i))
    ensures InRange(size, nr, mask) && nr == 0 ==>
      Aligned(r, mask) && exists z: nat :: IsNext(bits[..], size, start0, false, z) && z <= r <= z + mask
    ensures !InRange(size, nr, mask) ==> r == if nr > size then nr else 0
  {
    var start := start0;
    while true
      invariant start0 <= start && (start == start0 || start <= size)
      invariant nr == 0 || !InRange(size, nr, mask) ==> start == start0
      invariant InRange(size, nr, mask) && nr >= 1 ==> NoAreaBefore(bits[..], size, start0, nr, mask, start)
      decreases if start <= size then size - start else 0
    {
      var t := AreaTurn(bits, size, start, nr, mask);
      if !InRange(size, nr, mask) {
        AllOnesTurn(bits[..], size, start, nr, mask);
      } else if nr >= 1 {
        TurnFinds(bits[..], size, start0, start, nr, mask);
      } else {
        EmptyTurn(bits[..], size, start, mask);
      }
      match t
      case Answer(index) => return index;
      case Again(next) => start := next;
    }
  }

  ghost predicate NoAreaBefore(bits: seq<u64>, size: nat, start: nat, nr: nat, mask: nat, bound: nat)
    requires size <= 64 * |bits|
  {
    forall i: nat :: IsArea(bits, size, start, nr, mask, i) ==> bound <= i
  }

  /** Where no sum wraps, a turn of the search from `start` gives the first area or shows that there is
      none, or goes on past `start` with no area left out. */
  lemma TurnFinds(bits: seq<u64>, size: u64, start0: u64, start: u64, nr: u64, mask: u64)
    requires size <= 64 * |bits| && nr >= 1 && (exists n: nat :: mask == Ones(n)) && InRange(size, nr, mask)
    requires start0 <= start && NoAreaBefore(bits, size, start0, nr, mask, start)
    ensures match TurnOf(bits, size, start, nr, mask)
      case Answer(r) => NoAreaBefore(bits, size, start0, nr, mask, r)
        && (r > size || IsArea(bits, size, start0, nr, mask, r))
      case Again(next) => start < next <= size && NoAreaBefore(bits, size, start0, nr, mask, next)
  {
    var zero := Next(bits, size, start, false);
    var index := AlignedUp(zero, mask);
    AlignUp(zero, mask, index);
    AreaFrom(bits, size, start0, start, nr, mask, zero, index);
    if index + nr <= size {
      var i := Next(bits, index + nr, index, true);
      if i < index + nr { AreaAfter(bits, size, start0, nr, mask, index, i); }
    } else {
      assert forall i: nat :: IsArea(bits, size, start0, nr, mask, i) ==> index <= i && i + nr <= size;
    }
  }

  lemma EmptyTurn(bits: seq<u64>, size: u64, start: u64, mask: u64)
    requires size <= 64 * |bits| && (exists n: nat :: mask == Ones(n)) && size + mask < TWO64
    ensures var zero, t := Next(bits, size, start, false), TurnOf(bits, size, start, 0, mask);
      t.Answer? && Aligned(t.index, mask) && zero <= t.index <= zero + mask && IsNext(bits, size, start, false, zero)
  {
    var zero := Next(bits, size, start, false);
    AlignUp(zero, mask, AlignedUp(zero, mask));
  }

  /** With every mask but that of all ones, the sums of a bitmap of at most 2^63 bits do not wrap. */
  lemma OnlyAllOnesWraps(size: nat, nr: nat, mask: u64)
    requires (exists n: nat :: mask == Ones(n)) && mask != ALL_ONES && size + nr <= TWO64 / 2
    ensures InRange(size, nr, mask)
  {
    var n: nat :| mask == Ones(n);
    OnesIsPow2Minus1(n);
    Pow2Of64();
    if n <= 63 { Pow2Grows(n, 63); } else { Pow2Grows(64, n); }
    assert Pow2(64) == 2 * Pow2(63);
  }

  lemma AllOnesAlign(x: u64, mask: u64)
    requires mask == ALL_ONES
    ensures AlignedUp(x, mask) == 0
  {
    OnesIsPow2Minus1(64);
    Pow2Of64();
    assert mask == Ones(64);
    AlignUp(x, mask, AlignedUp(x, mask));
  }

  /** With the mask of all ones the candidate is always 0, wherever the search stands. */
  lemma AllOnesTurn(bits: seq<u64>, size: u64, start: u64, nr: u64, mask: u64)
    requires size <= 64 * |bits| && mask == ALL_ONES
    ensures TurnOf(bits, size, start, nr, mask)
      == if nr > size then Answer(nr)
         else if NoneIn(bits, 0, nr, true) then Answer(0)
         else Again(Next(bits, nr, 0, true) + 1)
  {
    AllOnesAlign(Next(bits, size, start, false), mask);
  }

  lemma AllOnesArea(bits: seq<u64>, size: u64, start0: u64, nr: u64, mask: u64, i: nat)
    requires 1 <= nr && size <= 64 * |bits| && mask == ALL_ONES
    ensures IsArea(bits, size, start0, nr, mask, i)
      <==> i == 0 && start0 == 0 && nr <= size && NoneIn(bits, 0, nr, true)
  {
    assert Aligned(i, mask) && i <= size ==> i == 0;
  }

  /** So with that mask the search ends exactly when `nr` is out of reach or the first `nr` bits are
      clear, and repeats the same turn for ever otherwise; an index within the bitmap is the area asked
      for exactly when the search started at 0, and lies before its start otherwise. */
  lemma AllOnesSearch(bits: seq<u64>, size: u64, start0: u64, nr: u64, mask: u64)
    requires 1 <= nr && size <= 64 * |bits| && mask == ALL_ONES
    ensures match TurnOf(bits, size, start0, nr, mask)
      case Answer(r) => if nr > size then r > size
        else r == 0 && (IsArea(bits, size, start0, nr, mask, r) <==> start0 == 0)
      case Again(start) => TurnOf(bits, size, start, nr, mask) == Again(start)
    ensures TurnOf(bits, size, start0, nr, mask).Answer? <==> AllOnesEnds(bits, size, nr, mask)
  {
    AllOnesTurn(bits, size, start0, nr, mask);
    AllOnesArea(bits, size, start0, nr, mask, 0);
    if nr <= size && !NoneIn(bits, 0, nr, true) {
      AllOnesTurn(bits, size, Next(bits, nr, 0, true) + 1, nr, mask);
    }
  }

  /** Two bits, the first one set: the search from 0 never ends.  Two clear bits: from 1 it gives 0. */
  lemma AllOnesFails()
    ensures TurnOf([1], 2, 0, 1, ALL_ONES) == TurnOf([1], 2, 1, 1, ALL_ONES) == Again(1)
    ensures TurnOf([0], 2, 1, 1, ALL_ONES) == Answer(0)
  {
    assert TestBit([1], 0) && !TestBit([0], 0);
    AllOnesTurn([1], 2, 0, 1, ALL_ONES);
    AllOnesTurn([1], 2, 1, 1, ALL_ONES);
    AllOnesTurn([0], 2, 1, 1, ALL_ONES);
  }

  /** Every area starts at or after the aligned next zero bit. */
  lemma AreaFrom(bits: seq<u64>, size: nat, start0: nat, start: nat, nr: nat, mask: nat, index: nat, aligned: nat)
    requires size <= 64 * |bits| && nr >= 1
    requires IsNext(bits, size, start, false, index)
    requires forall y: nat :: Aligned(y, mask) && index <= y ==> aligned <= y
    requires forall i: nat :: IsArea(bits, size, start0, nr, mask, i) ==> start <= i
    ensures forall i: nat :: IsArea(bits, size, start0, nr, mask, i) ==> aligned <= i
  {
    forall i: nat | IsArea(bits, size, start0, nr, mask, i) ensures aligned <= i {
      assert !TestBit(bits, i);
      assert index <= i;
    }
  }

  /** A set bit `i` inside the candidate rules out every area up to it. */
  lemma AreaAfter(bits: seq<u64>, size: nat, start0: nat, nr: nat, mask: nat, aligned: nat, i: nat)
    requires size <= 64 * |bits|
    requires aligned <= i < aligned + nr <= size && TestBit(bits, i)
    requires forall j: nat :: IsArea(bits, size, start0, nr, mask, j) ==> aligned <= j
    ensures forall j: nat :: IsArea(bits, size, start0, nr, mask, j) ==> i < j
  {
    forall j: nat | IsArea(bits, size, start0, nr, mask, j) ensures i < j {
      assert TestBit(bits, i);
      assert NoneIn(bits, j, j + nr, true);
    }
  }
}
