/**
  The cipher of FIPS 197 on four-word states, the tables of aes.c described by their laws, and the
  proof that its steps have the inverses that the equivalent inverse cipher (section 5.3.5) uses.
 */
module AesCipher {
  import opened Bits
  import opened AesField
  import opened RoundCipher

  /** The lookup tables of aes.c, and the multiplication by x they are built from. */
  datatype Tables = Tables(
    x: u8 -> u8,
    te0: u8 -> Word, te1: u8 -> Word, te2: u8 -> Word, te3: u8 -> Word, te4: u8 -> Word,
    td0: u8 -> Word, td1: u8 -> Word, td2: u8 -> Word, td3: u8 -> Word, td4: u8 -> Word)

  /** The S-box, read off the table of the last round. */
  function S(t: Tables, b: u8): u8 { t.te4(b).b3 }

  /** The inverse S-box. */
  function Si(t: Tables, b: u8): u8 { t.td4(b).b3 }

  /** The laws that the comment at the head of aes.c gives for entry `b` of every table. */
  ghost predicate LawAt(t: Tables, b: u8)
  {
    var s, i := S(t, b), Si(t, b);
    && t.te0(b) == Word(Mul2(t.x, s), s, s, Mul3(t.x, s))
    && t.te1(b) == Word(Mul3(t.x, s), Mul2(t.x, s), s, s)
    && t.te2(b) == Word(s, Mul3(t.x, s), Mul2(t.x, s), s)
    && t.te3(b) == Word(s, s, Mul3(t.x, s), Mul2(t.x, s))
    && t.te4(b) == Word(s, s, s, s)
    && t.td0(b) == Word(MulE(t.x, i), Mul9(t.x, i), MulD(t.x, i), MulB(t.x, i))
    && t.td1(b) == Word(MulB(t.x, i), MulE(t.x, i), Mul9(t.x, i), MulD(t.x, i))
    && t.td2(b) == Word(MulD(t.x, i), MulB(t.x, i), MulE(t.x, i), Mul9(t.x, i))
    && t.td3(b) == Word(Mul9(t.x, i), MulD(t.x, i), MulB(t.x, i), MulE(t.x, i))
    && t.td4(b) == Word(i, i, i, i)
    && Si(t, s) == b
  }

  ghost predicate Lawful(t: Tables)
  {
    Additive(t.x) && forall b: u8 :: LawAt(t, b)
  }

  /** Tables built as the comment says from any multiplication and any pair of S-boxes. */
  function TablesOf(x: u8 -> u8, s: u8 -> u8, i: u8 -> u8): Tables
  {
    Tables(x,
           (b: u8) => Word(Mul2(x, s(b)), s(b), s(b), Mul3(x, s(b))),
           (b: u8) => Word(Mul3(x, s(b)), Mul2(x, s(b)), s(b), s(b)),
           (b: u8) => Word(s(b), Mul3(x, s(b)), Mul2(x, s(b)), s(b)),
           (b: u8) => Word(s(b), s(b), Mul3(x, s(b)), Mul2(x, s(b))),
           (b: u8) => Word(s(b), s(b), s(b), s(b)),
           (b: u8) => Word(MulE(x, i(b)), Mul9(x, i(b)), MulD(x, i(b)), MulB(x, i(b))),
           (b: u8) => Word(MulB(x, i(b)), MulE(x, i(b)), Mul9(x, i(b)), MulD(x, i(b))),
           (b: u8) => Word(MulD(x, i(b)), MulB(x, i(b)), MulE(x, i(b)), Mul9(x, i(b))),
           (b: u8) => Word(Mul9(x, i(b)), MulD(x, i(b)), MulB(x, i(b)), MulE(x, i(b))),
           (b: u8) => Word(i(b), i(b), i(b), i(b)))
  }

  /** The entries that these tables have for `b`. */
  ghost predicate Encrypts(t: Tables, s: u8 -> u8, b: u8)
  {
    && t.te0(b) == Word(Mul2(t.x, s(b)), s(b), s(b), Mul3(t.x, s(b)))
    && t.te1(b) == Word(Mul3(t.x, s(b)), Mul2(t.x, s(b)), s(b), s(b))
    && t.te2(b) == Word(s(b), Mul3(t.x, s(b)), Mul2(t.x, s(b)), s(b))
    && t.te3(b) == Word(s(b), s(b), Mul3(t.x, s(b)), Mul2(t.x, s(b)))
    && t.te4(b) == Word(s(b), s(b), s(b), s(b))
  }

  ghost predicate Decrypts(t: Tables, i: u8 -> u8, b: u8)
  {
    && t.td0(b) == Word(MulE(t.x, i(b)), Mul9(t.x, i(b)), MulD(t.x, i(b)), MulB(t.x, i(b)))
    && t.td1(b) == Word(MulB(t.x, i(b)), MulE(t.x, i(b)), Mul9(t.x, i(b)), MulD(t.x, i(b)))
    && t.td2(b) == Word(MulD(t.x, i(b)), MulB(t.x, i(b)), MulE(t.x, i(b)), Mul9(t.x, i(b)))
    && t.td3(b) == Word(Mul9(t.x, i(b)), MulD(t.x, i(b)), MulB(t.x, i(b)), MulE(t.x, i(b)))
    && t.td4(b) == Word(i(b), i(b), i(b), i(b))
  }

  lemma TablesEncrypt(x: u8 -> u8, s: u8 -> u8, i: u8 -> u8, b: u8)
    ensures Encrypts(TablesOf(x, s, i), s, b)
  {
  }

  lemma TablesDecrypt(x: u8 -> u8, s: u8 -> u8, i: u8 -> u8, b: u8)
    ensures Decrypts(TablesOf(x, s, i), i, b)
  {
  }

  lemma EntryIsLawful(t: Tables, s: u8 -> u8, i: u8 -> u8, b: u8)
    requires Encrypts(t, s, b) && Decrypts(t, i, b) && Decrypts(t, i, s(b))
    ensures LawAt(t, b) <==> i(s(b)) == b
  {
  }

  /** With multiplication by x in the field of FIPS 197 the tables are lawful exactly when the inverse
      S-box undoes the S-box. */
  lemma TablesAreLawful(s: u8 -> u8, i: u8 -> u8)
    ensures Lawful(TablesOf(XTime, s, i)) <==> forall b: u8 :: i(s(b)) == b
  {
    XTimeAdditive();
    var t := TablesOf(XTime, s, i);
    forall b: u8 ensures LawAt(t, b) <==> i(s(b)) == b {
      TablesEncrypt(XTime, s, i, b);
      TablesDecrypt(XTime, s, i, b);
      TablesDecrypt(XTime, s, i, s(b));
      EntryIsLawful(t, s, i, b);
    }
    if Lawful(t) {
      forall b: u8 ensures i(s(b)) == b { assert LawAt(t, b); }
    }
  }

  lemma SomeTablesAreLawful() returns (t: Tables)
    ensures Lawful(t)
  {
    TablesAreLawful((b: u8) => b, (b: u8) => b);
    t := TablesOf(XTime, (b: u8) => b, (b: u8) => b);
  }

  // ---------- the cipher on states ----------

  /** Four columns of four bytes. */
  datatype State = State(c0: Word, c1: Word, c2: Word, c3: Word)

  function AddKey(s: State, k: State): State
  {
    State(AddW(s.c0, k.c0), AddW(s.c1, k.c1), AddW(s.c2, k.c2), AddW(s.c3, k.c3))
  }

  /** One column of SubBytes and ShiftRows: byte `r` comes from the column `r` places on. */
  function SubShiftColumn(t: Tables, a: Word, b: Word, c: Word, d: Word): Word
  {
    Word(S(t, a.b0), S(t, b.b1), S(t, c.b2), S(t, d.b3))
  }

  function SubShift(t: Tables, s: State): State
  {
    State(SubShiftColumn(t, s.c0, s.c1, s.c2, s.c3), SubShiftColumn(t, s.c1, s.c2, s.c3, s.c0),
          SubShiftColumn(t, s.c2, s.c3, s.c0, s.c1), SubShiftColumn(t, s.c3, s.c0, s.c1, s.c2))
  }

  function InvSubShiftColumn(t: Tables, a: Word, b: Word, c: Word, d: Word): Word
  {
    Word(Si(t, a.b0), Si(t, b.b1), Si(t, c.b2), Si(t, d.b3))
  }

  function InvSubShift(t: Tables, s: State): State
  {
    State(InvSubShiftColumn(t, s.c0, s.c3, s.c2, s.c1), InvSubShiftColumn(t, s.c1, s.c0, s.c3, s.c2),
          InvSubShiftColumn(t, s.c2, s.c1, s.c0, s.c3), InvSubShiftColumn(t, s.c3, s.c2, s.c1, s.c0))
  }

  function Mix(x: u8 -> u8, s: State): State
  {
    State(MixColumn(x, s.c0), MixColumn(x, s.c1), MixColumn(x, s.c2), MixColumn(x, s.c3))
  }

  function InvMix(x: u8 -> u8, s: State): State
  {
    State(InvMixColumn(x, s.c0), InvMixColumn(x, s.c1), InvMixColumn(x, s.c2), InvMixColumn(x, s.c3))
  }

  /** The steps of AES on states. */
  function AesSteps(t: Tables): Steps<State>
  {
    Steps(AddKey, s => SubShift(t, s), s => Mix(t.x, s), s => InvSubShift(t, s), s => InvMix(t.x, s))
  }

  // ---------- the steps undo each other ----------

  lemma AddKeyTwice(s: State, k: State)
    ensures AddKey(AddKey(s, k), k) == s
  {
    AddWLaws(s.c0, k.c0, k.c0);
    AddWLaws(s.c1, k.c1, k.c1);
    AddWLaws(s.c2, k.c2, k.c2);
    AddWLaws(s.c3, k.c3, k.c3);
  }

  lemma SBoxUndone(t: Tables, w: Word)
    requires Lawful(t)
    ensures Word(Si(t, S(t, w.b0)), Si(t, S(t, w.b1)), Si(t, S(t, w.b2)), Si(t, S(t, w.b3))) == w
  {
    assert LawAt(t, w.b0) && LawAt(t, w.b1) && LawAt(t, w.b2) && LawAt(t, w.b3);
  }

  /** InvSubBytes and InvShiftRows bring every byte back to its column. */
  lemma SubShiftUndone(t: Tables, s: State)
    requires Lawful(t)
    ensures InvSubShift(t, SubShift(t, s)) == s
  {
    SBoxUndone(t, s.c0);
    SBoxUndone(t, s.c1);
    SBoxUndone(t, s.c2);
    SBoxUndone(t, s.c3);
  }

  /** InvMixColumns of a mixed state with a key added, the key passed through InvMixColumns too. */
  lemma MixUndone(x: u8 -> u8, s: State, k: State)
    requires Additive(x)
    ensures AddKey(InvMix(x, AddKey(Mix(x, s), k)), InvMix(x, k)) == s
  {
    var m := Mix(x, s);
    InvMixLinear(x, m.c0, k.c0); InvMixUndoesMix(x, s.c0);
    InvMixLinear(x, m.c1, k.c1); InvMixUndoesMix(x, s.c1);
    InvMixLinear(x, m.c2, k.c2); InvMixUndoesMix(x, s.c2);
    InvMixLinear(x, m.c3, k.c3); InvMixUndoesMix(x, s.c3);
    AddKeyTwice(s, InvMix(x, k));
  }

  /** Under the table laws, the steps of AES satisfy what the inverse cipher rests on. */
  lemma AesUndone(t: Tables)
    requires Lawful(t)
    ensures Undone(AesSteps(t))
  {
    var f := AesSteps(t);
    forall a, k ensures AddUndone(f, a, k) { AddKeyTwice(a, k); }
    forall a ensures f.invSub(f.sub(a)) == a { SubShiftUndone(t, a); }
    forall a, k ensures RoundCipher.MixUndone(f, a, k) { MixUndone(t.x, a, k); }
  }
}
