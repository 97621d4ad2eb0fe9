/**
  The 32-bit arithmetic of aes.c: its column expressions over packed words are the columns of the model,
  packed.
 */
module AesPacked {
  import opened Bits
  import opened AesField
  import opened AesWords
  import opened AesCipher
  import opened AesTables

  /** `(v >> k) & 0xff` */
  function ByteAt(v: nat, k: nat): u8
  {
    ByteFits(v, k);
    And(Shr(v, k), 0xff)
  }

  /** `v >> 24`, which needs no mask. */
  function Top(v: u32): u8
  {
    TopIsByte(v);
    Shr(v, 24)
  }

  lemma TopIsByte(v: u32)
    ensures Shr(v, 24) == And(Shr(v, 24), 0xff) < 0x100
  {
    Powers();
    ByteFits(v, 24);
    forall i: nat ensures Bit(Shr(v, 24), i) == Bit(And(Shr(v, 24), 0xff), i) {
      LowByteBit(v, 24, i);
      BitOfShr(v, 24, i);
      if i >= 8 { NoBitAbove(v, 32, i + 24); }
    }
    Extensional(Shr(v, 24), And(Shr(v, 24), 0xff));
  }

  lemma BytesOf(w: Word)
    ensures Pack(w) < 0x1_0000_0000
    ensures Top(Pack(w)) == w.b0 && ByteAt(Pack(w), 16) == w.b1 && ByteAt(Pack(w), 8) == w.b2
    ensures ByteAt(Pack(w), 0) == w.b3
  {
    PackFits(w);
    TopIsByte(Pack(w));
    ShiftSelects(w, 24);
    ShiftSelects(w, 16);
    ShiftSelects(w, 8);
    ShiftSelects(w, 0);
  }

  /** A column of a full round: four lookups and a key word, combined by exclusive or. */
  function Column(t0: u8 -> Word, t1: u8 -> Word, t2: u8 -> Word, t3: u8 -> Word, a: u32, b: u32, c: u32, d: u32,
                  k: u32): nat
  {
    Xor(Xor(Xor(Xor(Pack(t0(Top(a))), Pack(t1(ByteAt(b, 16)))), Pack(t2(ByteAt(c, 8)))), Pack(t3(ByteAt(d, 0)))), k)
  }

  /** A column of the last round: lookups in one table, masked to a byte each. */
  function LastColumn(table: u8 -> Word, a: u32, b: u32, c: u32, d: u32, k: u32): nat
  {
    Xor(Xor(Xor(Xor(And(Pack(table(Top(a))), MaskAt(24)), And(Pack(table(ByteAt(b, 16))), MaskAt(16))),
                And(Pack(table(ByteAt(c, 8))), MaskAt(8))),
            And(Pack(table(ByteAt(d, 0))), MaskAt(0))),
        k)
  }

  lemma XorOfFive(v: Word, w: Word, x: Word, y: Word, k: Word)
    ensures Xor(Xor(Xor(Xor(Pack(v), Pack(w)), Pack(x)), Pack(y)), Pack(k)) == Pack(AddW(Sum4(v, w, x, y), k))
  {
    XorOfWords(v, w);
    XorOfWords(AddW(v, w), x);
    XorOfWords(AddW(AddW(v, w), x), y);
    XorOfWords(Sum4(v, w, x, y), k);
  }

  /** Packed words of a state. */
  datatype Quad = Quad(w0: u32, w1: u32, w2: u32, w3: u32)

  function PackState(s: State): Quad
  {
    PackFits(s.c0);
    PackFits(s.c1);
    PackFits(s.c2);
    PackFits(s.c3);
    Quad(Pack(s.c0), Pack(s.c1), Pack(s.c2), Pack(s.c3))
  }

  /** The column expressions of AES_encrypt and AES_decrypt, for any four tables. */
  lemma ColumnIs(t0: u8 -> Word, t1: u8 -> Word, t2: u8 -> Word, t3: u8 -> Word, a: Word, b: Word, c: Word, d: Word,
                 k: Word)
    ensures Pack(a) < 0x1_0000_0000 && Pack(b) < 0x1_0000_0000 && Pack(c) < 0x1_0000_0000 && Pack(d) < 0x1_0000_0000
    ensures Pack(k) < 0x1_0000_0000
    ensures Column(t0, t1, t2, t3, Pack(a), Pack(b), Pack(c), Pack(d), Pack(k))
         == Pack(AddW(Sum4(t0(a.b0), t1(b.b1), t2(c.b2), t3(d.b3)), k))
  {
    BytesOf(a);
    BytesOf(b);
    BytesOf(c);
    BytesOf(d);
    PackFits(k);
    XorOfFive(t0(a.b0), t1(b.b1), t2(c.b2), t3(d.b3), k);
  }

  lemma LastColumnIsMasked(table: u8 -> Word, a: Word, b: Word, c: Word, d: Word, k: Word)
    ensures Pack(a) < 0x1_0000_0000 && Pack(b) < 0x1_0000_0000 && Pack(c) < 0x1_0000_0000 && Pack(d) < 0x1_0000_0000
    ensures Pack(k) < 0x1_0000_0000
    ensures LastColumn(table, Pack(a), Pack(b), Pack(c), Pack(d), Pack(k)) == Pack(LastWord(table, a, b, c, d, k))
  {
    BytesOf(a);
    BytesOf(b);
    BytesOf(c);
    BytesOf(d);
    PackFits(k);
    MaskKeeps(table(a.b0), 24);
    MaskKeeps(table(b.b1), 16);
    MaskKeeps(table(c.b2), 8);
    MaskKeeps(table(d.b3), 0);
    XorOfFive(Keep(table(a.b0), 24), Keep(table(b.b1), 16), Keep(table(c.b2), 8), Keep(table(d.b3), 0), k);
  }

  /** A full round and the last round of AES_encrypt, on packed words. */
  lemma TeRoundPacked(t: Tables, s: State, k: State)
    ensures var q, r, p := PackState(s), PackState(k), PackState(TeRound(t, s, k));
      && Column(t.te0, t.te1, t.te2, t.te3, q.w0, q.w1, q.w2, q.w3, r.w0) == p.w0
      && Column(t.te0, t.te1, t.te2, t.te3, q.w1, q.w2, q.w3, q.w0, r.w1) == p.w1
      && Column(t.te0, t.te1, t.te2, t.te3, q.w2, q.w3, q.w0, q.w1, r.w2) == p.w2
      && Column(t.te0, t.te1, t.te2, t.te3, q.w3, q.w0, q.w1, q.w2, r.w3) == p.w3
  {
    ColumnIs(t.te0, t.te1, t.te2, t.te3, s.c0, s.c1, s.c2, s.c3, k.c0);
    ColumnIs(t.te0, t.te1, t.te2, t.te3, s.c1, s.c2, s.c3, s.c0, k.c1);
    ColumnIs(t.te0, t.te1, t.te2, t.te3, s.c2, s.c3, s.c0, s.c1, k.c2);
    ColumnIs(t.te0, t.te1, t.te2, t.te3, s.c3, s.c0, s.c1, s.c2, k.c3);
  }

  /** A full round of AES_decrypt, whose columns come in the other order. */
  lemma TdRoundPacked(t: Tables, s: State, k: State)
    ensures var q, r, p := PackState(s), PackState(k), PackState(TdRound(t, s, k));
      && Column(t.td0, t.td1, t.td2, t.td3, q.w0, q.w3, q.w2, q.w1, r.w0) == p.w0
      && Column(t.td0, t.td1, t.td2, t.td3, q.w1, q.w0, q.w3, q.w2, r.w1) == p.w1
      && Column(t.td0, t.td1, t.td2, t.td3, q.w2, q.w1, q.w0, q.w3, r.w2) == p.w2
      && Column(t.td0, t.td1, t.td2, t.td3, q.w3, q.w2, q.w1, q.w0, r.w3) == p.w3
  {
    ColumnIs(t.td0, t.td1, t.td2, t.td3, s.c0, s.c3, s.c2, s.c1, k.c0);
    ColumnIs(t.td0, t.td1, t.td2, t.td3, s.c1, s.c0, s.c3, s.c2, k.c1);
    ColumnIs(t.td0, t.td1, t.td2, t.td3, s.c2, s.c1, s.c0, s.c3, k.c2);
    ColumnIs(t.td0, t.td1, t.td2, t.td3, s.c3, s.c2, s.c1, s.c0, k.c3);
  }

  /** The last rounds of both directions, on packed words. */
  lemma TeLastPacked(t: Tables, s: State, k: State)
    ensures var q, r, p := PackState(s), PackState(k), PackState(TeLast(t, s, k));
      && LastColumn(t.te4, q.w0, q.w1, q.w2, q.w3, r.w0) == p.w0
      && LastColumn(t.te4, q.w1, q.w2, q.w3, q.w0, r.w1) == p.w1
      && LastColumn(t.te4, q.w2, q.w3, q.w0, q.w1, r.w2) == p.w2
      && LastColumn(t.te4, q.w3, q.w0, q.w1, q.w2, r.w3) == p.w3
  {
    LastColumnIsMasked(t.te4, s.c0, s.c1, s.c2, s.c3, k.c0);
    LastColumnIsMasked(t.te4, s.c1, s.c2, s.c3, s.c0, k.c1);
    LastColumnIsMasked(t.te4, s.c2, s.c3, s.c0, s.c1, k.c2);
    LastColumnIsMasked(t.te4, s.c3, s.c0, s.c1, s.c2, k.c3);
  }

  lemma TdLastPacked(t: Tables, s: State, k: State)
    ensures var q, r, p := PackState(s), PackState(k), PackState(TdLast(t, s, k));
      && LastColumn(t.td4, q.w0, q.w3, q.w2, q.w1, r.w0) == p.w0
      && LastColumn(t.td4, q.w1, q.w0, q.w3, q.w2, r.w1) == p.w1
      && LastColumn(t.td4, q.w2, q.w1, q.w0, q.w3, r.w2) == p.w2
      && LastColumn(t.td4, q.w3, q.w2, q.w1, q.w0, r.w3) == p.w3
  {
    LastColumnIsMasked(t.td4, s.c0, s.c3, s.c2, s.c1, k.c0);
    LastColumnIsMasked(t.td4, s.c1, s.c0, s.c3, s.c2, k.c1);
    LastColumnIsMasked(t.td4, s.c2, s.c1, s.c0, s.c3, k.c2);
    LastColumnIsMasked(t.td4, s.c3, s.c2, s.c1, s.c0, k.c3);
  }

  /** The masked lookups of the rotated previous word, as the key expansion combines them. */
  function Rotated(table: u8 -> Word, v: u32): nat
  {
    Xor(Xor(Xor(And(Pack(table(ByteAt(v, 16))), MaskAt(24)), And(Pack(table(ByteAt(v, 8))), MaskAt(16))),
            And(Pack(table(ByteAt(v, 0))), MaskAt(8))),
        And(Pack(table(Top(v))), MaskAt(0)))
  }

  lemma RotatedIs(table: u8 -> Word, w: Word)
    ensures Pack(w) < 0x1_0000_0000 && Rotated(table, Pack(w)) == Pack(Masked(table, w.b1, w.b2, w.b3, w.b0))
  {
    BytesOf(w);
    MaskKeeps(table(w.b1), 24);
    MaskKeeps(table(w.b2), 16);
    MaskKeeps(table(w.b3), 8);
    MaskKeeps(table(w.b0), 0);
    var x, y, z := Keep(table(w.b1), 24), Keep(table(w.b2), 16), Keep(table(w.b3), 8);
    XorOfWords(x, y);
    XorOfWords(AddW(x, y), z);
    XorOfWords(AddW(AddW(x, y), z), Keep(table(w.b0), 0));
  }

  /** Whatever the four words of the state and the key word are, the column the C code computes from
      them is a 32-bit word, and packs the model's column of their bytes. */
  lemma EveryColumn(t0: u8 -> Word, t1: u8 -> Word, t2: u8 -> Word, t3: u8 -> Word, a: u32, b: u32, c: u32, d: u32,
                    k: u32)
    ensures exists w: Word, y: Word ::
      && Pack(y) == k && Pack(w) == Column(t0, t1, t2, t3, a, b, c, d, k) < 0x1_0000_0000
      && w == AddW(Sum4(t0(Top(a)), t1(ByteAt(b, 16)), t2(ByteAt(c, 8)), t3(ByteAt(d, 0))), y)
  {
    var y := EveryWordIsPacked(k);
    var w := AddW(Sum4(t0(Top(a)), t1(ByteAt(b, 16)), t2(ByteAt(c, 8)), t3(ByteAt(d, 0))), y);
    XorOfFive(t0(Top(a)), t1(ByteAt(b, 16)), t2(ByteAt(c, 8)), t3(ByteAt(d, 0)), y);
    PackFits(w);
  }
}
