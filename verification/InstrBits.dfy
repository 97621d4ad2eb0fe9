/**
  Bit fields of instruction words: writing a field, reading it back, and building a random instruction
  without disturbing the bits that make it the instruction it is.
 */
module InstrBits {
  import opened Bits

  const ALL32: nat := 0xffff_ffff

  type u32 = x: nat | x <= ALL32

  // ---------- fields ----------

  /** Ones at positions `low` to `high`. */
  function Field(low: nat, high: nat): nat
  {
    Xor(Pow2(high + 1) - 1, Pow2(low) - 1)
  }

  /** get_bits_value */
  function GetBits(data: nat, low: nat, high: nat): nat
  {
    Shr(And(data, Field(low, high)), low)
  }

  /** get_bit_value */
  function GetBit(data: nat, bit: nat): nat
  {
    if And(data, Pow2(bit)) == Pow2(bit) then 1 else 0
  }

  /** set_instr */
  function SetInstr(instr: nat, low: nat, high: nat, value: nat): nat
    requires low <= high
  {
    Or(And(instr, Xor(Field(low, high), ALL32)), Shl(And(value, Pow2(high - low + 1) - 1), low))
  }

  lemma Power32()
    ensures Pow2(32) == ALL32 + 1
  {
    assert Pow2(8) == 0x100;
    Pow2Adds(8, 8);
    Pow2Adds(16, 16);
  }

  lemma AllBits(i: nat)
    ensures Bit(ALL32, i) <==> i < 32
  {
    Power32();
    OnesBits(32, i);
  }

  lemma OnesBits(n: nat, i: nat)
    ensures Bit(Pow2(n) - 1, i) <==> i < n
  {
    OnesIsPow2Minus1(n);
    BitOfOnes(n, i);
  }

  lemma FieldBits(low: nat, high: nat, i: nat)
    requires low <= high
    ensures Bit(Field(low, high), i) <==> low <= i <= high
  {
    BitOfXor(Pow2(high + 1) - 1, Pow2(low) - 1, i);
    OnesBits(high + 1, i);
    OnesBits(low, i);
  }

  lemma {:induction false} PowerBits(n: nat, i: nat)
    ensures Bit(Pow2(n), i) <==> i == n
    decreases n
  {
    ShlIsMul(1, n);
    BitOfShl(1, n, i);
    if i > n { BitOfZero(i - n - 1); }
  }

  lemma GetBitIs(data: nat, bit: nat)
    ensures GetBit(data, bit) == if Bit(data, bit) then 1 else 0
  {
    BitOfAnd(data, Pow2(bit), bit);
    PowerBits(bit, bit);
    if Bit(data, bit) {
      forall i: nat ensures Bit(And(data, Pow2(bit)), i) == Bit(Pow2(bit), i) {
        BitOfAnd(data, Pow2(bit), i);
        PowerBits(bit, i);
      }
      Extensional(And(data, Pow2(bit)), Pow2(bit));
    }
  }

  /** set_instr puts the value at its place and leaves every other bit of the word alone. */
  lemma SetInstrBits(instr: nat, low: nat, high: nat, value: nat, i: nat)
    requires low <= high && i < 32
    ensures Bit(SetInstr(instr, low, high, value), i)
      <==> if low <= i <= high then Bit(value, i - low) else Bit(instr, i)
  {
    var mask, v := Xor(Field(low, high), ALL32), And(value, Pow2(high - low + 1) - 1);
    BitOfOr(And(instr, mask), Shl(v, low), i);
    BitOfAnd(instr, mask, i);
    BitOfXor(Field(low, high), ALL32, i);
    FieldBits(low, high, i);
    AllBits(i);
    BitOfShl(v, low, i);
    if i >= low {
      BitOfAnd(value, Pow2(high - low + 1) - 1, i - low);
      OnesBits(high - low + 1, i - low);
    }
  }

  lemma SetInstrFits(instr: nat, low: nat, high: nat, value: nat)
    requires low <= high < 32
    ensures SetInstr(instr, low, high, value) <= ALL32
  {
    var mask, v := Xor(Field(low, high), ALL32), And(value, Pow2(high - low + 1) - 1);
    var r := SetInstr(instr, low, high, value);
    forall i: nat | i >= 32 ensures !Bit(r, i) {
      BitOfOr(And(instr, mask), Shl(v, low), i);
      BitOfAnd(instr, mask, i);
      BitOfXor(Field(low, high), ALL32, i);
      FieldBits(low, high, i);
      AllBits(i);
      BitOfShl(v, low, i);
      BitOfAnd(value, Pow2(high - low + 1) - 1, i - low);
      OnesBits(high - low + 1, i - low);
    }
    BoundedByBits(r, 32);
    Power32();
  }

  /** What is written in a field is what is read from it: the value, as far as it fits. */
  lemma FieldRoundTrip(instr: nat, low: nat, high: nat, value: nat)
    requires low <= high < 32
    ensures GetBits(SetInstr(instr, low, high, value), low, high) == Low(high - low + 1, value)
  {
    var r := SetInstr(instr, low, high, value);
    forall i: nat ensures Bit(GetBits(r, low, high), i) == Bit(Low(high - low + 1, value), i) {
      BitOfShr(And(r, Field(low, high)), low, i);
      BitOfAnd(r, Field(low, high), i + low);
      FieldBits(low, high, i + low);
      BitOfLow(high - low + 1, value, i);
      if i + low <= high { SetInstrBits(instr, low, high, value, i + low); }
    }
    Extensional(GetBits(r, low, high), Low(high - low + 1, value));
  }

  /** Words that agree on the bits of a field agree on the field. */
  lemma SameField(a: nat, b: nat, low: nat, high: nat)
    requires low <= high && forall i: nat :: low <= i <= high ==> Bit(a, i) == Bit(b, i)
    ensures GetBits(a, low, high) == GetBits(b, low, high)
  {
    forall i: nat ensures Bit(GetBits(a, low, high), i) == Bit(GetBits(b, low, high), i) {
      BitOfShr(And(a, Field(low, high)), low, i);
      BitOfShr(And(b, Field(low, high)), low, i);
      BitOfAnd(a, Field(low, high), i + low);
      BitOfAnd(b, Field(low, high), i + low);
      FieldBits(low, high, i + low);
    }
    Extensional(GetBits(a, low, high), GetBits(b, low, high));
  }

  /** A field that is not written reads as before. */
  lemma FieldKept(instr: nat, low: nat, high: nat, value: nat, low': nat, high': nat)
    requires low <= high < 32 && low' <= high' < 32 && (high < low' || high' < low)
    ensures GetBits(SetInstr(instr, low, high, value), low', high') == GetBits(instr, low', high')
  {
    var r := SetInstr(instr, low, high, value);
    forall i: nat | low' <= i <= high' ensures Bit(r, i) == Bit(instr, i) { SetInstrBits(instr, low, high, value, i); }
    SameField(r, instr, low', high');
  }

  /** A value in two parts, low part first, is put together again from its two fields. */
  lemma SplitRoundTrip(instr: nat, low: nat, high: nat, low': nat, high': nat, value: nat)
    requires low <= high < 32 && low' <= high' < 32 && (high < low' || high' < low)
    ensures var n, n' := high - low + 1, high' - low' + 1;
      var r := SetInstr(SetInstr(instr, low, high, value), low', high', Shr(value, n));
      GetBits(r, low, high) + Pow2(n) * GetBits(r, low', high') == Low(n + n', value)
  {
    var n, n' := high - low + 1, high' - low' + 1;
    var first := SetInstr(instr, low, high, value);
    FieldKept(first, low', high', Shr(value, n), low, high);
    FieldRoundTrip(instr, low, high, value);
    FieldRoundTrip(first, low', high', Shr(value, n));
    LowOfSum(value, n, n');
  }

  lemma {:induction false} LowOfSum(value: nat, n: nat, n': nat)
    ensures Low(n + n', value) == Low(n, value) + Pow2(n) * Low(n', Shr(value, n))
    decreases n
  {
    if n == 0 {
    } else {
      LowOfSum(value / 2, n - 1, n');
      var q := Low(n', Shr(value, n));
      assert Shr(value, n) == Shr(value / 2, n - 1);
      assert Low(n + n', value) == 2 * (Low(n - 1, value / 2) + Pow2(n - 1) * q) + value % 2;
      assert Pow2(n) * q == 2 * (Pow2(n - 1) * q);
    }
  }

  // ---------- the opcode bits ----------

  /** The two words agree where the mask has ones. */
  ghost predicate SameUnder(mask: nat, a: nat, b: nat)
  {
    forall i: nat :: Bit(mask, i) ==> Bit(a, i) == Bit(b, i)
  }

  lemma SameUnderMask(mask: nat, a: nat, b: nat)
    requires SameUnder(mask, a, b)
    ensures And(a, mask) == And(b, mask)
  {
    forall i: nat ensures Bit(And(a, mask), i) == Bit(And(b, mask), i) {
      BitOfAnd(a, mask, i);
      BitOfAnd(b, mask, i);
    }
    Extensional(And(a, mask), And(b, mask));
  }

  predicate IsFree(mask: nat, low: nat, high: nat)
  {
    forall i: nat :: low <= i <= high ==> !Bit(mask, i)
  }

  /** is_fixed_oprand: whether a bit of the field belongs to the opcode. */
  method IsFixed(mask: u32, low: nat, high: nat) returns (fixed: bool)
    ensures fixed <==> !IsFree(mask, low, high)
  {
    var idx := low;
    while idx <= high
      invariant low <= idx && (low <= high ==> idx <= high + 1)
      invariant forall i: nat :: low <= i < idx ==> !Bit(mask, i)
    {
      GetBitIs(mask, idx);
      if GetBit(mask, idx) == 1 { return true; }
      idx := idx + 1;
    }
    return false;
  }

  /** Writing a field free of opcode bits leaves the opcode alone. */
  lemma FreeFieldKeeps(mask: u32, instr: u32, low: nat, high: nat, value: nat)
    requires low <= high < 32 && IsFree(mask, low, high)
    ensures SetInstr(instr, low, high, value) <= ALL32 && SameUnder(mask, SetInstr(instr, low, high, value), instr)
  {
    SetInstrFits(instr, low, high, value);
    forall i: nat | Bit(mask, i) ensures Bit(SetInstr(instr, low, high, value), i) == Bit(instr, i) {
      if i >= 32 {
        Power32();
        NoBitAbove(mask, 32, i);
      } else {
        SetInstrBits(instr, low, high, value, i);
      }
    }
  }
}
