/**
  The 32-bit words of aes.c and their four bytes: the shifts, masks and exclusive ors of the C code
  act on `Word` as selection, masking and addition of bytes.
 */
module AesWords {
  import opened Bits
  import opened AesField

  type u32 = x: nat | x < 0x1_0000_0000

  /** GETU32 */
  function Pack(w: Word): nat
  {
    Xor(Xor(Xor(Shl(w.b0, 24), Shl(w.b1, 16)), Shl(w.b2, 8)), w.b3)
  }

  /** The byte of a word that `>> k` and `& 0xff` select. */
  function Selected(w: Word, k: nat): u8
  {
    if k == 24 then w.b0 else if k == 16 then w.b1 else if k == 8 then w.b2 else w.b3
  }

  predicate BytePosition(k: nat)
  {
    k == 0 || k == 8 || k == 16 || k == 24
  }

  /** Bit `i` of a packed word is a bit of one of its bytes. */
  predicate PackedBit(w: Word, i: nat)
  {
    if i < 8 then Bit(w.b3, i) else if i < 16 then Bit(w.b2, i - 8)
    else if i < 24 then Bit(w.b1, i - 16) else i < 32 && Bit(w.b0, i - 24)
  }

  lemma PackBit(w: Word, i: nat)
    ensures Bit(Pack(w), i) <==> PackedBit(w, i)
  {
    var a, b := Xor(Shl(w.b0, 24), Shl(w.b1, 16)), Xor(Xor(Shl(w.b0, 24), Shl(w.b1, 16)), Shl(w.b2, 8));
    Sum(Shl(w.b0, 24), Shl(w.b1, 16), i);
    Sum(a, Shl(w.b2, 8), i);
    Sum(b, w.b3, i);
    ShiftedByte(w.b0, 24, i);
    ShiftedByte(w.b1, 16, i);
    ShiftedByte(w.b2, 8, i);
    ShiftedByte(w.b3, 0, i);
  }

  lemma ShiftedByte(b: u8, k: nat, i: nat)
    ensures Bit(Shl(b, k), i) <==> k <= i < k + 8 && Bit(b, i - k)
  {
    Powers();
    BitOfShl(b, k, i);
    if i >= k + 8 { NoBitAbove(b, 8, i - k); }
  }

  lemma PackFits(w: Word)
    ensures Pack(w) < 0x1_0000_0000
  {
    forall i: nat | i >= 32 ensures !Bit(Pack(w), i) { PackBit(w, i); }
    BoundedByBits(Pack(w), 32);
    Powers();
  }

  lemma LowByteBit(v: nat, k: nat, i: nat)
    ensures Bit(And(Shr(v, k), 0xff), i) <==> i < 8 && Bit(v, i + k)
  {
    OnesIsPow2Minus1(8);
    Powers();
    BitOfAnd(Shr(v, k), 0xff, i);
    BitOfOnes(8, i);
    BitOfShr(v, k, i);
  }

  /** `(w >> k) & 0xff` selects a byte. */
  lemma ShiftSelects(w: Word, k: nat)
    requires BytePosition(k)
    ensures And(Shr(Pack(w), k), 0xff) == Selected(w, k)
  {
    var v := And(Shr(Pack(w), k), 0xff);
    Powers();
    forall i: nat ensures Bit(v, i) == Bit(Selected(w, k), i) {
      LowByteBit(Pack(w), k, i);
      PackBit(w, i + k);
      ShiftedByte(Selected(w, k), 0, i);
    }
    Extensional(v, Selected(w, k));
  }

  /** A word is determined by its bytes, and every 32-bit value is packed. */
  lemma EveryWordIsPacked(v: u32) returns (w: Word)
    ensures Pack(w) == v
  {
    ByteFits(v, 24); ByteFits(v, 16); ByteFits(v, 8); ByteFits(v, 0);
    w := Word(And(Shr(v, 24), 0xff), And(Shr(v, 16), 0xff), And(Shr(v, 8), 0xff), And(Shr(v, 0), 0xff));
    Powers();
    forall i: nat ensures Bit(Pack(w), i) == Bit(v, i) {
      PackBit(w, i);
      if i >= 32 { NoBitAbove(v, 32, i); }
      else if i >= 24 { LowByteBit(v, 24, i - 24); }
      else if i >= 16 { LowByteBit(v, 16, i - 16); }
      else if i >= 8 { LowByteBit(v, 8, i - 8); }
      else { LowByteBit(v, 0, i); }
    }
    Extensional(Pack(w), v);
  }

  lemma ByteFits(v: nat, k: nat)
    ensures And(Shr(v, k), 0xff) < 0x100
  {
    Powers();
    forall i: nat | i >= 8 ensures !Bit(And(Shr(v, k), 0xff), i) { LowByteBit(v, k, i); }
    BoundedByBits(And(Shr(v, k), 0xff), 8);
  }

  /** Exclusive or of 32-bit words is byte-wise. */
  lemma XorOfWords(v: Word, w: Word)
    ensures Xor(Pack(v), Pack(w)) == Pack(AddW(v, w))
  {
    forall i: nat ensures Bit(Xor(Pack(v), Pack(w)), i) == Bit(Pack(AddW(v, w)), i) {
      Sum(Pack(v), Pack(w), i);
      PackBit(v, i); PackBit(w, i); PackBit(AddW(v, w), i);
      if i >= 24 { Sum(v.b0, w.b0, i - 24); }
      else if i >= 16 { Sum(v.b1, w.b1, i - 16); }
      else if i >= 8 { Sum(v.b2, w.b2, i - 8); }
      else { Sum(v.b3, w.b3, i); }
    }
    Extensional(Xor(Pack(v), Pack(w)), Pack(AddW(v, w)));
  }

  /** The masks 0xff000000, 0x00ff0000, 0x0000ff00 and 0x000000ff. */
  function MaskAt(k: nat): nat
  {
    if k == 24 then 0xff000000 else if k == 16 then 0x00ff0000 else if k == 8 then 0x0000ff00 else 0x000000ff
  }

  /** What a mask leaves of a word. */
  function Keep(w: Word, k: nat): Word
  {
    if k == 24 then Word(w.b0, 0, 0, 0) else if k == 16 then Word(0, w.b1, 0, 0)
    else if k == 8 then Word(0, 0, w.b2, 0) else Word(0, 0, 0, w.b3)
  }

  lemma MaskAtBit(k: nat, i: nat)
    requires BytePosition(k)
    ensures Bit(MaskAt(k), i) <==> k <= i < k + 8
  {
    Powers();
    OnesIsPow2Minus1(8);
    ShlIsMul(Ones(8), k);
    assert Pow2(0) == 1;
    BitOfShl(Ones(8), k, i);
    if i >= k { BitOfOnes(8, i - k); }
  }

  /** `w & mask` keeps one byte. */
  lemma MaskKeeps(w: Word, k: nat)
    requires BytePosition(k)
    ensures And(Pack(w), MaskAt(k)) == Pack(Keep(w, k))
  {
    forall i: nat ensures Bit(And(Pack(w), MaskAt(k)), i) == Bit(Pack(Keep(w, k)), i) {
      BitOfAnd(Pack(w), MaskAt(k), i);
      MaskAtBit(k, i);
      PackBit(w, i);
      PackBit(Keep(w, k), i);
      if i >= 24 { BitOfZero(i - 24); }
      else if i >= 16 { BitOfZero(i - 16); }
      else if i >= 8 { BitOfZero(i - 8); }
      else { BitOfZero(i); }
    }
    Extensional(And(Pack(w), MaskAt(k)), Pack(Keep(w, k)));
  }
}
