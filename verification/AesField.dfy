/**
  The arithmetic under the AES tables: exclusive or as addition, multiplication by constants in
  GF(2^8), and the column transforms of FIPS 197 on words of four bytes.
 */
module AesField {
  import opened Bits

  // ---------- addition ----------

  lemma XorFits(a: nat, b: nat, width: nat)
    requires a < Pow2(width) && b < Pow2(width)
    ensures Xor(a, b) < Pow2(width)
  {
    forall i: nat | i >= width ensures !Bit(Xor(a, b), i) {
      BitOfXor(a, b, i);
      NoBitAbove(a, width, i);
      NoBitAbove(b, width, i);
    }
    BoundedByBits(Xor(a, b), width);
  }

  lemma Powers()
    ensures Pow2(8) == 0x100 && Pow2(16) == 0x1_0000 && Pow2(24) == 0x100_0000 && Pow2(32) == 0x1_0000_0000
  {
    assert Pow2(4) == 16;
    Pow2Adds(4, 4);
    Pow2Adds(8, 8);
    Pow2Adds(16, 8);
    Pow2Adds(16, 16);
  }

  /** The sum of two bytes. */
  function Add(a: u8, b: u8): u8
  {
    Powers();
    XorFits(a, b, 8);
    Xor(a, b)
  }

  function Add4(a: u8, b: u8, c: u8, d: u8): u8
  {
    Add(Add(Add(a, b), c), d)
  }

  lemma XorLaws(a: nat, b: nat, c: nat)
    ensures Xor(a, b) == Xor(b, a)
    ensures Xor(Xor(a, b), c) == Xor(a, Xor(b, c))
    ensures Xor(a, a) == 0 && Xor(a, 0) == a
  {
    forall i: nat ensures Bit(Xor(a, b), i) == Bit(Xor(b, a), i) {
      BitOfXor(a, b, i); BitOfXor(b, a, i);
    }
    Extensional(Xor(a, b), Xor(b, a));
    forall i: nat ensures Bit(Xor(Xor(a, b), c), i) == Bit(Xor(a, Xor(b, c)), i) {
      BitOfXor(a, b, i); BitOfXor(Xor(a, b), c, i); BitOfXor(b, c, i); BitOfXor(a, Xor(b, c), i);
    }
    Extensional(Xor(Xor(a, b), c), Xor(a, Xor(b, c)));
    forall i: nat ensures Bit(Xor(a, a), i) == Bit(0, i) && Bit(Xor(a, 0), i) == Bit(a, i) {
      BitOfXor(a, a, i); BitOfXor(a, 0, i); BitOfZero(i);
    }
    Extensional(Xor(a, a), 0);
    Extensional(Xor(a, 0), a);
  }

  /** Sums of sums may be regrouped. */
  lemma Swap(a: nat, b: nat, c: nat, d: nat)
    ensures Xor(Xor(a, b), Xor(c, d)) == Xor(Xor(a, c), Xor(b, d))
  {
    XorLaws(a, b, Xor(c, d));
    XorLaws(b, c, d);
    XorLaws(c, b, d);
    XorLaws(a, c, Xor(b, d));
  }

  lemma AddLaws(a: u8, b: u8, c: u8)
    ensures Add(a, b) == Add(b, a) && Add(Add(a, b), c) == Add(a, Add(b, c))
    ensures Add(a, a) == 0 && Add(a, 0) == a && Add(0, a) == a
  {
    XorLaws(a, b, c);
    XorLaws(0, a, c);
  }

  lemma Sum4OfSums(a: u8, b: u8, c: u8, d: u8, a': u8, b': u8, c': u8, d': u8)
    ensures Add(Add4(a, b, c, d), Add4(a', b', c', d')) == Add4(Add(a, a'), Add(b, b'), Add(c, c'), Add(d, d'))
  {
    Swap(Add(Add(a, b), c), d, Add(Add(a', b'), c'), d');
    Swap(Add(a, b), c, Add(a', b'), c');
    Swap(a, b, a', b');
  }

  lemma Rotate4(a: u8, b: u8, c: u8, d: u8)
    ensures Add4(a, b, c, d) == Add4(b, c, d, a)
  {
    AddLaws(a, b, c);
    AddLaws(a, Add(b, c), d);
    AddLaws(a, Add(Add(b, c), d), 0);
  }

  // ---------- multiplication by constants ----------

  /** All that the cipher needs of the multiplication by x: it distributes over addition. */
  ghost predicate Additive(x: u8 -> u8)
  {
    forall a: u8, b: u8 :: Distributes(x, a, b)
  }

  ghost predicate Distributes(x: u8 -> u8, a: u8, b: u8)
  {
    x(Add(a, b)) == Add(x(a), x(b))
  }

  function Mul2(x: u8 -> u8, b: u8): u8 { x(b) }
  function Mul3(x: u8 -> u8, b: u8): u8 { Add(x(b), b) }
  function Mul9(x: u8 -> u8, b: u8): u8 { Add(x(x(x(b))), b) }
  function MulB(x: u8 -> u8, b: u8): u8 { Add(x(x(x(b))), Add(x(b), b)) }
  function MulD(x: u8 -> u8, b: u8): u8 { Add(x(x(x(b))), Add(x(x(b)), b)) }
  function MulE(x: u8 -> u8, b: u8): u8 { Add(x(x(x(b))), Add(x(x(b)), x(b))) }

  lemma PowersLinear(x: u8 -> u8, a: u8, b: u8)
    requires Additive(x)
    ensures x(Add(a, b)) == Add(x(a), x(b))
    ensures x(x(Add(a, b))) == Add(x(x(a)), x(x(b)))
    ensures x(x(x(Add(a, b)))) == Add(x(x(x(a))), x(x(x(b))))
  {
    assert Distributes(x, a, b);
    assert Distributes(x, x(a), x(b));
    assert Distributes(x, x(x(a)), x(x(b)));
  }

  /** The sum of three pairwise sums. */
  lemma Swap3(a3: u8, b3: u8, a2: u8, b2: u8, a1: u8, b1: u8)
    ensures Add(Add(a3, b3), Add(Add(a2, b2), Add(a1, b1))) == Add(Add(a3, Add(a2, a1)), Add(b3, Add(b2, b1)))
  {
    Swap(a2, b2, a1, b1);
    Swap(a3, b3, Add(a2, a1), Add(b2, b1));
  }

  lemma Mul9Linear(x: u8 -> u8, a: u8, b: u8)
    requires Additive(x)
    ensures Mul9(x, Add(a, b)) == Add(Mul9(x, a), Mul9(x, b))
  {
    PowersLinear(x, a, b);
    Swap(x(x(x(a))), x(x(x(b))), a, b);
  }

  lemma MulBLinear(x: u8 -> u8, a: u8, b: u8)
    requires Additive(x)
    ensures MulB(x, Add(a, b)) == Add(MulB(x, a), MulB(x, b))
  {
    PowersLinear(x, a, b);
    Swap3(x(x(x(a))), x(x(x(b))), x(a), x(b), a, b);
  }

  lemma MulDLinear(x: u8 -> u8, a: u8, b: u8)
    requires Additive(x)
    ensures MulD(x, Add(a, b)) == Add(MulD(x, a), MulD(x, b))
  {
    PowersLinear(x, a, b);
    Swap3(x(x(x(a))), x(x(x(b))), x(x(a)), x(x(b)), a, b);
  }

  lemma MulELinear(x: u8 -> u8, a: u8, b: u8)
    requires Additive(x)
    ensures MulE(x, Add(a, b)) == Add(MulE(x, a), MulE(x, b))
  {
    PowersLinear(x, a, b);
    Swap3(x(x(x(a))), x(x(x(b))), x(x(a)), x(x(b)), x(a), x(b));
  }

  /** An additive map of a sum of four. */
  lemma MapOfFour(f: u8 -> u8, a: u8, b: u8, c: u8, d: u8)
    requires Additive(f)
    ensures f(Add4(a, b, c, d)) == Add4(f(a), f(b), f(c), f(d))
  {
    assert Distributes(f, Add(Add(a, b), c), d);
    assert Distributes(f, Add(a, b), c);
    assert Distributes(f, a, b);
  }

  lemma MulsAdditive(x: u8 -> u8, m9: u8 -> u8, mB: u8 -> u8, mD: u8 -> u8, mE: u8 -> u8)
    requires Additive(x)
    requires forall v: u8 :: m9(v) == Mul9(x, v) && mB(v) == MulB(x, v) && mD(v) == MulD(x, v) && mE(v) == MulE(x, v)
    ensures Additive(m9) && Additive(mB) && Additive(mD) && Additive(mE)
  {
    forall a: u8, b: u8 ensures Distributes(m9, a, b) { Mul9Linear(x, a, b); }
    forall a: u8, b: u8 ensures Distributes(mB, a, b) { MulBLinear(x, a, b); }
    forall a: u8, b: u8 ensures Distributes(mD, a, b) { MulDLinear(x, a, b); }
    forall a: u8, b: u8 ensures Distributes(mE, a, b) { MulELinear(x, a, b); }
  }

  lemma Sum(a: nat, b: nat, i: nat)
    ensures Bit(Xor(a, b), i) <==> Bit(a, i) != Bit(b, i)
  {
    BitOfXor(a, b, i);
  }

  /** Cancellation among a byte and its multiples by x, x^2, x^3 and x^4. */
  lemma Cancel(a0: u8, a1: u8, a2: u8, a3: u8, a4: u8)
    ensures Add4(Add(a4, Add(a3, a2)), Add(a3, Add(a1, a0)), Add(a3, Add(a2, a0)), Add(Add(a4, a1), Add(a3, a0))) == a0
  {
    var e, b, d, n1, n2 := Add(a4, Add(a3, a2)), Add(a3, Add(a1, a0)), Add(a3, Add(a2, a0)), Add(a4, a1), Add(a3, a0);
    forall i: nat ensures Bit(Add4(e, b, d, Add(n1, n2)), i) == Bit(a0, i) {
      Sum(a3, a2, i); Sum(a4, Add(a3, a2), i); Sum(a1, a0, i); Sum(a3, Add(a1, a0), i);
      Sum(a2, a0, i); Sum(a3, Add(a2, a0), i); Sum(a4, a1, i); Sum(a3, a0, i); Sum(n1, n2, i);
      Sum(e, b, i); Sum(Add(e, b), d, i); Sum(Add(Add(e, b), d), Add(n1, n2), i);
    }
    Extensional(Add4(e, b, d, Add(n1, n2)), a0);
  }

  lemma CancelB(a0: u8, a1: u8, a2: u8, a3: u8, a4: u8)
    ensures Add4(Add(Add(a4, Add(a3, a2)), Add(a3, Add(a2, a1))), Add(a4, Add(a2, a1)), Add(a3, Add(a2, a0)),
      Add(a3, a0)) == 0
  {
    var e1, e2, b := Add(a4, Add(a3, a2)), Add(a3, Add(a2, a1)), Add(a4, Add(a2, a1));
    var d, n := Add(a3, Add(a2, a0)), Add(a3, a0);
    var e := Add(e1, e2);
    forall i: nat ensures Bit(Add4(e, b, d, n), i) == Bit(0, i) {
      Sum(a3, a2, i); Sum(a4, Add(a3, a2), i); Sum(a2, a1, i); Sum(a3, Add(a2, a1), i); Sum(e1, e2, i);
      Sum(a4, Add(a2, a1), i); Sum(a2, a0, i); Sum(a3, Add(a2, a0), i); Sum(a3, a0, i);
      Sum(e, b, i); Sum(Add(e, b), d, i); Sum(Add(Add(e, b), d), n, i); BitOfZero(i);
    }
    Extensional(Add4(e, b, d, n), 0);
  }

  lemma CancelC(a0: u8, a1: u8, a2: u8, a3: u8, a4: u8)
    ensures Add4(Add(a3, Add(a2, a1)), Add(Add(a4, Add(a2, a1)), Add(a3, Add(a1, a0))), Add(a4, Add(a3, a1)),
      Add(a3, a0)) == 0
  {
    var e, b1, b2 := Add(a3, Add(a2, a1)), Add(a4, Add(a2, a1)), Add(a3, Add(a1, a0));
    var d, n := Add(a4, Add(a3, a1)), Add(a3, a0);
    var b := Add(b1, b2);
    forall i: nat ensures Bit(Add4(e, b, d, n), i) == Bit(0, i) {
      Sum(a2, a1, i); Sum(a3, Add(a2, a1), i); Sum(a4, Add(a2, a1), i); Sum(a1, a0, i); Sum(a3, Add(a1, a0), i);
      Sum(b1, b2, i); Sum(a3, a1, i); Sum(a4, Add(a3, a1), i); Sum(a3, a0, i);
      Sum(e, b, i); Sum(Add(e, b), d, i); Sum(Add(Add(e, b), d), n, i); BitOfZero(i);
    }
    Extensional(Add4(e, b, d, n), 0);
  }

  lemma CancelD(a0: u8, a1: u8, a2: u8, a3: u8, a4: u8)
    ensures Add4(Add(a3, Add(a2, a1)), Add(a3, Add(a1, a0)), Add(Add(a4, Add(a3, a1)), Add(a3, Add(a2, a0))),
      Add(a4, a1)) == 0
  {
    var e, b, d1 := Add(a3, Add(a2, a1)), Add(a3, Add(a1, a0)), Add(a4, Add(a3, a1));
    var d2, n := Add(a3, Add(a2, a0)), Add(a4, a1);
    var d := Add(d1, d2);
    forall i: nat ensures Bit(Add4(e, b, d, n), i) == Bit(0, i) {
      Sum(a2, a1, i); Sum(a3, Add(a2, a1), i); Sum(a1, a0, i); Sum(a3, Add(a1, a0), i); Sum(a3, a1, i);
      Sum(a4, Add(a3, a1), i); Sum(a2, a0, i); Sum(a3, Add(a2, a0), i); Sum(d1, d2, i); Sum(a4, a1, i);
      Sum(e, b, i); Sum(Add(e, b), d, i); Sum(Add(Add(e, b), d), n, i); BitOfZero(i);
    }
    Extensional(Add4(e, b, d, n), 0);
  }

  // ---------- the column transforms ----------

  /** One byte of MixColumns (section 5.1.3 of FIPS 197); the other rows rotate the column. */
  function MixByte(x: u8 -> u8, a: u8, b: u8, c: u8, d: u8): u8
  {
    Add4(Mul2(x, a), Mul3(x, b), c, d)
  }

  /** One byte of InvMixColumns (section 5.3.3 of FIPS 197). */
  function InvMixByte(x: u8 -> u8, a: u8, b: u8, c: u8, d: u8): u8
  {
    Add4(MulE(x, a), MulB(x, b), MulD(x, c), Mul9(x, d))
  }

  /** The coefficients of one byte in the product of the two matrices: 1 on the diagonal, 0 elsewhere. */
  lemma Diagonal(x: u8 -> u8, a: u8)
    requires Additive(x)
    ensures Add4(MulE(x, Mul2(x, a)), MulB(x, a), MulD(x, a), Mul9(x, Mul3(x, a))) == a
  {
    Mul9Linear(x, x(a), a);
    Cancel(a, x(a), x(x(a)), x(x(x(a))), x(x(x(x(a)))));
  }

  lemma OffDiagonalB(x: u8 -> u8, a: u8)
    requires Additive(x)
    ensures Add4(MulE(x, Mul3(x, a)), MulB(x, Mul2(x, a)), MulD(x, a), Mul9(x, a)) == 0
  {
    MulELinear(x, x(a), a);
    CancelB(a, x(a), x(x(a)), x(x(x(a))), x(x(x(x(a)))));
  }

  lemma OffDiagonalC(x: u8 -> u8, a: u8)
    requires Additive(x)
    ensures Add4(MulE(x, a), MulB(x, Mul3(x, a)), MulD(x, Mul2(x, a)), Mul9(x, a)) == 0
  {
    MulBLinear(x, x(a), a);
    CancelC(a, x(a), x(x(a)), x(x(x(a))), x(x(x(x(a)))));
  }

  lemma OffDiagonalD(x: u8 -> u8, a: u8)
    requires Additive(x)
    ensures Add4(MulE(x, a), MulB(x, a), MulD(x, Mul3(x, a)), Mul9(x, Mul2(x, a))) == 0
  {
    MulDLinear(x, x(a), a);
    CancelD(a, x(a), x(x(a)), x(x(x(a))), x(x(x(x(a)))));
  }

  /** The sum of a four by four table, by rows and by columns. */
  lemma Transpose(ea: u8, eb: u8, ec: u8, ed: u8, ba: u8, bb: u8, bc: u8, bd: u8,
                  da: u8, db: u8, dc: u8, dd: u8, na: u8, nb: u8, nc: u8, nd: u8)
    ensures Add4(Add4(ea, eb, ec, ed), Add4(ba, bb, bc, bd), Add4(da, db, dc, dd), Add4(na, nb, nc, nd))
         == Add4(Add4(ea, ba, da, na), Add4(eb, bb, db, nb), Add4(ec, bc, dc, nc), Add4(ed, bd, dd, nd))
  {
    Sum4OfSums(ea, eb, ec, ed, ba, bb, bc, bd);
    Sum4OfSums(Add(ea, ba), Add(eb, bb), Add(ec, bc), Add(ed, bd), da, db, dc, dd);
    Sum4OfSums(Add(Add(ea, ba), da), Add(Add(eb, bb), db), Add(Add(ec, bc), dc), Add(Add(ed, bd), dd), na, nb, nc, nd);
  }

  lemma Rows(x: u8 -> u8, a: u8, b: u8, c: u8, d: u8)
    requires Additive(x)
    ensures MulE(x, MixByte(x, a, b, c, d)) == Add4(MulE(x, Mul2(x, a)), MulE(x, Mul3(x, b)), MulE(x, c), MulE(x, d))
    ensures MulB(x, MixByte(x, a, b, c, d)) == Add4(MulB(x, Mul2(x, a)), MulB(x, Mul3(x, b)), MulB(x, c), MulB(x, d))
    ensures MulD(x, MixByte(x, a, b, c, d)) == Add4(MulD(x, Mul2(x, a)), MulD(x, Mul3(x, b)), MulD(x, c), MulD(x, d))
    ensures Mul9(x, MixByte(x, a, b, c, d)) == Add4(Mul9(x, Mul2(x, a)), Mul9(x, Mul3(x, b)), Mul9(x, c), Mul9(x, d))
  {
    var m9, mB, mD, mE := (v: u8) => Mul9(x, v), (v: u8) => MulB(x, v), (v: u8) => MulD(x, v), (v: u8) => MulE(x, v);
    MulsAdditive(x, m9, mB, mD, mE);
    var p, q := Mul2(x, a), Mul3(x, b);
    MapOfFour(mE, p, q, c, d);
    MapOfFour(mB, p, q, c, d);
    MapOfFour(mD, p, q, c, d);
    MapOfFour(m9, p, q, c, d);
  }

  /** One row of InvMixColumns after MixColumns gives back the first byte of the column. */
  lemma RowUndone(x: u8 -> u8, a: u8, b: u8, c: u8, d: u8)
    requires Additive(x)
    ensures InvMixByte(x, MixByte(x, a, b, c, d), MixByte(x, b, c, d, a), MixByte(x, c, d, a, b),
      MixByte(x, d, a, b, c)) == a
  {
    var ea, eb, ec, ed := MulE(x, Mul2(x, a)), MulE(x, Mul3(x, b)), MulE(x, c), MulE(x, d);
    var bb, bc, bd, ba := MulB(x, Mul2(x, b)), MulB(x, Mul3(x, c)), MulB(x, d), MulB(x, a);
    var dc, dd, da, db := MulD(x, Mul2(x, c)), MulD(x, Mul3(x, d)), MulD(x, a), MulD(x, b);
    var nd, na, nb, nc := Mul9(x, Mul2(x, d)), Mul9(x, Mul3(x, a)), Mul9(x, b), Mul9(x, c);
    assert MulE(x, MixByte(x, a, b, c, d)) == Add4(ea, eb, ec, ed) by { Rows(x, a, b, c, d); }
    assert MulB(x, MixByte(x, b, c, d, a)) == Add4(ba, bb, bc, bd) by { Rows(x, b, c, d, a); Rotate4(ba, bb, bc, bd); }
    assert MulD(x, MixByte(x, c, d, a, b)) == Add4(da, db, dc, dd) by {
      Rows(x, c, d, a, b);
      Rotate4(da, db, dc, dd);
      Rotate4(db, dc, dd, da);
    }
    assert Mul9(x, MixByte(x, d, a, b, c)) == Add4(na, nb, nc, nd) by { Rows(x, d, a, b, c); Rotate4(nd, na, nb, nc); }
    Transpose(ea, eb, ec, ed, ba, bb, bc, bd, da, db, dc, dd, na, nb, nc, nd);
    Diagonal(x, a);
    OffDiagonalB(x, b);
    OffDiagonalC(x, c);
    OffDiagonalD(x, d);
    AddLaws(a, 0, 0);
  }

  /** InvMixColumns is linear. */
  lemma InvMixByteLinear(x: u8 -> u8, a: u8, b: u8, c: u8, d: u8, a': u8, b': u8, c': u8, d': u8)
    requires Additive(x)
    ensures InvMixByte(x, Add(a, a'), Add(b, b'), Add(c, c'), Add(d, d'))
         == Add(InvMixByte(x, a, b, c, d), InvMixByte(x, a', b', c', d'))
  {
    MulELinear(x, a, a');
    MulBLinear(x, b, b');
    MulDLinear(x, c, c');
    Mul9Linear(x, d, d');
    Sum4OfSums(MulE(x, a), MulB(x, b), MulD(x, c), Mul9(x, d), MulE(x, a'), MulB(x, b'), MulD(x, c'), Mul9(x, d'));
  }

  /** Multiplication by x modulo x^8 + x^4 + x^3 + x + 1 (section 4.2.1 of FIPS 197). */
  function XTime(b: u8): u8
  {
    Powers();
    LowFits(8, Shl(b, 1));
    Add(Low(8, Shl(b, 1)), if Bit(b, 7) then 0x1b else 0)
  }

  lemma LowFits(width: nat, a: nat)
    ensures Low(width, a) < Pow2(width)
  {
    forall i: nat | i >= width ensures !Bit(Low(width, a), i) { BitOfLow(width, a, i); }
    BoundedByBits(Low(width, a), width);
  }

  /** The field's own multiplication by x is additive. */
  lemma XTimeAdditive()
    ensures Additive(XTime)
  {
    forall a: u8, b: u8 ensures Distributes(XTime, a, b) {
      var c := Add(a, b);
      Powers();
      LowFits(8, Shl(a, 1)); LowFits(8, Shl(b, 1)); LowFits(8, Shl(c, 1));
      var la, lb, lc: u8 := Low(8, Shl(a, 1)), Low(8, Shl(b, 1)), Low(8, Shl(c, 1));
      forall i: nat ensures Bit(lc, i) == Bit(Add(la, lb), i) {
        BitOfLow(8, Shl(a, 1), i); BitOfLow(8, Shl(b, 1), i); BitOfLow(8, Shl(c, 1), i);
        BitOfShl(a, 1, i); BitOfShl(b, 1, i); BitOfShl(c, 1, i);
        if i >= 1 { Sum(a, b, i - 1); }
        Sum(la, lb, i);
      }
      Extensional(lc, Add(la, lb));
      Sum(a, b, 7);
      var ra, rb: u8 := if Bit(a, 7) then 0x1b else 0, if Bit(b, 7) then 0x1b else 0;
      AddLaws(0x1b, 0, 0);
      assert (if Bit(c, 7) then 0x1b else 0) == Add(ra, rb);
      Swap(la, lb, ra, rb);
    }
  }

  // ---------- words as columns ----------

  /** A 32-bit word of aes.c, most significant byte first (module AesWords relates the two). */
  datatype Word = Word(b0: u8, b1: u8, b2: u8, b3: u8)

  const ZERO: Word := Word(0, 0, 0, 0)

  /** Exclusive or of words. */
  function AddW(v: Word, w: Word): Word
  {
    Word(Add(v.b0, w.b0), Add(v.b1, w.b1), Add(v.b2, w.b2), Add(v.b3, w.b3))
  }

  lemma AddWLaws(u: Word, v: Word, w: Word)
    ensures AddW(AddW(u, v), w) == AddW(u, AddW(v, w))
    ensures AddW(AddW(u, v), v) == u
  {
    AddLaws(u.b0, v.b0, w.b0); AddLaws(u.b1, v.b1, w.b1); AddLaws(u.b2, v.b2, w.b2); AddLaws(u.b3, v.b3, w.b3);
    AddTwice(u.b0, v.b0); AddTwice(u.b1, v.b1); AddTwice(u.b2, v.b2); AddTwice(u.b3, v.b3);
  }

  lemma AddTwice(a: u8, k: u8)
    ensures Add(Add(a, k), k) == a
  {
    AddLaws(a, k, k);
    AddLaws(k, k, k);
  }

  function MixColumn(x: u8 -> u8, w: Word): Word
  {
    Word(MixByte(x, w.b0, w.b1, w.b2, w.b3), MixByte(x, w.b1, w.b2, w.b3, w.b0),
         MixByte(x, w.b2, w.b3, w.b0, w.b1), MixByte(x, w.b3, w.b0, w.b1, w.b2))
  }

  function InvMixColumn(x: u8 -> u8, w: Word): Word
  {
    Word(InvMixByte(x, w.b0, w.b1, w.b2, w.b3), InvMixByte(x, w.b1, w.b2, w.b3, w.b0),
         InvMixByte(x, w.b2, w.b3, w.b0, w.b1), InvMixByte(x, w.b3, w.b0, w.b1, w.b2))
  }

  lemma InvMixUndoesMix(x: u8 -> u8, w: Word)
    requires Additive(x)
    ensures InvMixColumn(x, MixColumn(x, w)) == w
  {
    RowUndone(x, w.b0, w.b1, w.b2, w.b3);
    RowUndone(x, w.b1, w.b2, w.b3, w.b0);
    RowUndone(x, w.b2, w.b3, w.b0, w.b1);
    RowUndone(x, w.b3, w.b0, w.b1, w.b2);
  }

  lemma InvMixLinear(x: u8 -> u8, v: Word, w: Word)
    requires Additive(x)
    ensures InvMixColumn(x, AddW(v, w)) == AddW(InvMixColumn(x, v), InvMixColumn(x, w))
  {
    InvMixByteLinear(x, v.b0, v.b1, v.b2, v.b3, w.b0, w.b1, w.b2, w.b3);
    InvMixByteLinear(x, v.b1, v.b2, v.b3, v.b0, w.b1, w.b2, w.b3, w.b0);
    InvMixByteLinear(x, v.b2, v.b3, v.b0, v.b1, w.b2, w.b3, w.b0, w.b1);
    InvMixByteLinear(x, v.b3, v.b0, v.b1, v.b2, w.b3, w.b0, w.b1, w.b2);
  }
}
