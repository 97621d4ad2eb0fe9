/**
  What the table lookups of aes.c compute, column by column.
 */
module AesTables {
  import opened Bits
  import opened AesField
  import opened AesWords
  import opened AesCipher
  import opened RoundCipher

  lemma LawOf(t: Tables, b: u8)
    requires Lawful(t)
    ensures LawAt(t, b)
  {
  }

  // ---------- a column of a full round ----------

  /** `T0[p] ^ T1[q] ^ T2[r] ^ T3[s]` */
  function Sum4(t0: Word, t1: Word, t2: Word, t3: Word): Word
  {
    AddW(AddW(AddW(t0, t1), t2), t3)
  }

  /** `Te0[a >> 24] ^ Te1[(b >> 16) & 0xff] ^ Te2[(c >> 8) & 0xff] ^ Te3[d & 0xff]` */
  function TeSum(t: Tables, a: Word, b: Word, c: Word, d: Word): Word
  {
    Sum4(t.te0(a.b0), t.te1(b.b1), t.te2(c.b2), t.te3(d.b3))
  }

  /** `Td0[a >> 24] ^ Td1[(b >> 16) & 0xff] ^ Td2[(c >> 8) & 0xff] ^ Td3[d & 0xff]` */
  function TdSum(t: Tables, a: Word, b: Word, c: Word, d: Word): Word
  {
    Sum4(t.td0(a.b0), t.td1(b.b1), t.td2(c.b2), t.td3(d.b3))
  }

  /** Four lookups with the rows of MixColumns. */
  lemma MixRows(x: u8 -> u8, a: u8, b: u8, c: u8, d: u8)
    ensures Sum4(Word(Mul2(x, a), a, a, Mul3(x, a)), Word(Mul3(x, b), Mul2(x, b), b, b),
                 Word(c, Mul3(x, c), Mul2(x, c), c), Word(d, d, Mul3(x, d), Mul2(x, d)))
         == MixColumn(x, Word(a, b, c, d))
  {
    Rotate4(a, Mul2(x, b), Mul3(x, c), d);
    Rotate4(a, b, Mul2(x, c), Mul3(x, d));
    Rotate4(b, Mul2(x, c), Mul3(x, d), a);
    Rotate4(Mul2(x, d), Mul3(x, a), b, c);
  }

  lemma InvMixRows(x: u8 -> u8, a: u8, b: u8, c: u8, d: u8)
    ensures Sum4(Word(MulE(x, a), Mul9(x, a), MulD(x, a), MulB(x, a)),
                 Word(MulB(x, b), MulE(x, b), Mul9(x, b), MulD(x, b)),
                 Word(MulD(x, c), MulB(x, c), MulE(x, c), Mul9(x, c)),
                 Word(Mul9(x, d), MulD(x, d), MulB(x, d), MulE(x, d)))
         == InvMixColumn(x, Word(a, b, c, d))
  {
    Rotate4(Mul9(x, a), MulE(x, b), MulB(x, c), MulD(x, d));
    Rotate4(MulD(x, a), Mul9(x, b), MulE(x, c), MulB(x, d));
    Rotate4(Mul9(x, b), MulE(x, c), MulB(x, d), MulD(x, a));
    Rotate4(MulE(x, d), MulB(x, a), MulD(x, b), Mul9(x, c));
  }

  /** Four lookups are SubBytes, ShiftRows and MixColumns of a column. */
  lemma TeSumIs(t: Tables, a: Word, b: Word, c: Word, d: Word)
    requires Lawful(t)
    ensures TeSum(t, a, b, c, d) == MixColumn(t.x, SubShiftColumn(t, a, b, c, d))
  {
    LawOf(t, a.b0); LawOf(t, b.b1); LawOf(t, c.b2); LawOf(t, d.b3);
    MixRows(t.x, S(t, a.b0), S(t, b.b1), S(t, c.b2), S(t, d.b3));
  }

  lemma TdSumIs(t: Tables, a: Word, b: Word, c: Word, d: Word)
    requires Lawful(t)
    ensures TdSum(t, a, b, c, d) == InvMixColumn(t.x, InvSubShiftColumn(t, a, b, c, d))
  {
    LawOf(t, a.b0); LawOf(t, b.b1); LawOf(t, c.b2); LawOf(t, d.b3);
    InvMixRows(t.x, Si(t, a.b0), Si(t, b.b1), Si(t, c.b2), Si(t, d.b3));
  }

  // ---------- a column of the last round ----------

  /** `(T[p] & 0xff000000) ^ (T[q] & 0x00ff0000) ^ (T[r] & 0x0000ff00) ^ (T[s] & 0x000000ff)` */
  function Masked(table: u8 -> Word, p: u8, q: u8, r: u8, s: u8): Word
  {
    Sum4(Keep(table(p), 24), Keep(table(q), 16), Keep(table(r), 8), Keep(table(s), 0))
  }

  lemma MaskedIs(table: u8 -> Word, p: u8, q: u8, r: u8, s: u8)
    ensures Masked(table, p, q, r, s) == Word(table(p).b0, table(q).b1, table(r).b2, table(s).b3)
  {
    AddLaws(table(p).b0, 0, 0); AddLaws(table(q).b1, 0, 0); AddLaws(table(r).b2, 0, 0); AddLaws(table(s).b3, 0, 0);
    AddLaws(0, 0, 0);
  }

  /** The last round's lookups are SubBytes and ShiftRows of a column. */
  lemma LastColumnIs(t: Tables, a: Word, b: Word, c: Word, d: Word)
    requires Lawful(t)
    ensures Masked(t.te4, a.b0, b.b1, c.b2, d.b3) == SubShiftColumn(t, a, b, c, d)
    ensures Masked(t.td4, a.b0, b.b1, c.b2, d.b3) == InvSubShiftColumn(t, a, b, c, d)
  {
    LawOf(t, a.b0); LawOf(t, b.b1); LawOf(t, c.b2); LawOf(t, d.b3);
    MaskedIs(t.te4, a.b0, b.b1, c.b2, d.b3);
    MaskedIs(t.td4, a.b0, b.b1, c.b2, d.b3);
  }

  // ---------- rounds ----------

  /** A full round of AES_encrypt. */
  function TeRound(t: Tables, s: State, k: State): State
  {
    State(AddW(TeSum(t, s.c0, s.c1, s.c2, s.c3), k.c0), AddW(TeSum(t, s.c1, s.c2, s.c3, s.c0), k.c1),
          AddW(TeSum(t, s.c2, s.c3, s.c0, s.c1), k.c2), AddW(TeSum(t, s.c3, s.c0, s.c1, s.c2), k.c3))
  }

  /** A full round of AES_decrypt. */
  function TdRound(t: Tables, s: State, k: State): State
  {
    State(AddW(TdSum(t, s.c0, s.c3, s.c2, s.c1), k.c0), AddW(TdSum(t, s.c1, s.c0, s.c3, s.c2), k.c1),
          AddW(TdSum(t, s.c2, s.c1, s.c0, s.c3), k.c2), AddW(TdSum(t, s.c3, s.c2, s.c1, s.c0), k.c3))
  }

  /** One column of the last round. */
  function LastWord(table: u8 -> Word, a: Word, b: Word, c: Word, d: Word, k: Word): Word
  {
    AddW(Masked(table, a.b0, b.b1, c.b2, d.b3), k)
  }

  function TeLast(t: Tables, s: State, k: State): State
  {
    State(LastWord(t.te4, s.c0, s.c1, s.c2, s.c3, k.c0), LastWord(t.te4, s.c1, s.c2, s.c3, s.c0, k.c1),
          LastWord(t.te4, s.c2, s.c3, s.c0, s.c1, k.c2), LastWord(t.te4, s.c3, s.c0, s.c1, s.c2, k.c3))
  }

  function TdLast(t: Tables, s: State, k: State): State
  {
    State(LastWord(t.td4, s.c0, s.c3, s.c2, s.c1, k.c0), LastWord(t.td4, s.c1, s.c0, s.c3, s.c2, k.c1),
          LastWord(t.td4, s.c2, s.c1, s.c0, s.c3, k.c2), LastWord(t.td4, s.c3, s.c2, s.c1, s.c0, k.c3))
  }

  lemma TeRoundIs(t: Tables, s: State, k: State)
    requires Lawful(t)
    ensures TeRound(t, s, k) == AddKey(Mix(t.x, SubShift(t, s)), k)
  {
    TeSumIs(t, s.c0, s.c1, s.c2, s.c3);
    TeSumIs(t, s.c1, s.c2, s.c3, s.c0);
    TeSumIs(t, s.c2, s.c3, s.c0, s.c1);
    TeSumIs(t, s.c3, s.c0, s.c1, s.c2);
  }

  lemma TdRoundIs(t: Tables, s: State, k: State)
    requires Lawful(t)
    ensures TdRound(t, s, k) == AddKey(InvMix(t.x, InvSubShift(t, s)), k)
  {
    TdSumIs(t, s.c0, s.c3, s.c2, s.c1);
    TdSumIs(t, s.c1, s.c0, s.c3, s.c2);
    TdSumIs(t, s.c2, s.c1, s.c0, s.c3);
    TdSumIs(t, s.c3, s.c2, s.c1, s.c0);
  }

  lemma LastRoundsAre(t: Tables, s: State, k: State)
    requires Lawful(t)
    ensures TeLast(t, s, k) == AddKey(SubShift(t, s), k)
    ensures TdLast(t, s, k) == AddKey(InvSubShift(t, s), k)
  {
    LastColumnIs(t, s.c0, s.c1, s.c2, s.c3); LastColumnIs(t, s.c1, s.c2, s.c3, s.c0);
    LastColumnIs(t, s.c2, s.c3, s.c0, s.c1); LastColumnIs(t, s.c3, s.c0, s.c1, s.c2);
    LastColumnIs(t, s.c0, s.c3, s.c2, s.c1); LastColumnIs(t, s.c1, s.c0, s.c3, s.c2);
    LastColumnIs(t, s.c2, s.c1, s.c0, s.c3); LastColumnIs(t, s.c3, s.c2, s.c1, s.c0);
  }

  /** The lookups of AES_encrypt and of AES_decrypt. */
  function TeLookups(t: Tables): Lookups<State>
  {
    Lookups(AddKey, (s, k) => TeRound(t, s, k), (s, k) => TeLast(t, s, k))
  }

  function TdLookups(t: Tables): Lookups<State>
  {
    Lookups(AddKey, (s, k) => TdRound(t, s, k), (s, k) => TdLast(t, s, k))
  }

  /** Under the table laws the lookups compute the steps of FIPS 197 and of their inverse. */
  lemma TablesComputeAes(t: Tables)
    requires Lawful(t)
    ensures Computes(TeLookups(t), AesSteps(t)) && Computes(TdLookups(t), Inverted(AesSteps(t)))
  {
    var f, te, td := AesSteps(t), TeLookups(t), TdLookups(t);
    forall s, k ensures te.round(s, k) == f.add(f.mix(f.sub(s)), k) { TeRoundIs(t, s, k); }
    forall s, k ensures td.round(s, k) == f.add(f.invMix(f.invSub(s)), k) { TdRoundIs(t, s, k); }
    forall s, k ensures te.last(s, k) == f.add(f.sub(s), k) { LastRoundsAre(t, s, k); }
    forall s, k ensures td.last(s, k) == f.add(f.invSub(s), k) { LastRoundsAre(t, s, k); }
  }
}
