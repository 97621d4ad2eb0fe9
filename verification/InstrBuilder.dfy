/**
  Building a random instruction: the opcode first, then the S bit and the operand fields from the
  options.  Whatever the options are, the result is an instance of the instruction asked for.
 */
module InstrBuilder {
  import opened Bits
  import opened InstrBits

  datatype OpndType =
    | Gpr | GprSet | GprRw | Fpsr | Fpdr | Fpqr | Fpdsr | Fpqdr | ShiftReg | RotateReg | GprList | GprListT | GprMerge
    | Imm | ImmArmExp | ImmSignExtend | ImmZeroExtend | ImmMerge | ImmVfpExpand | ShiftImm | ShiftImmT
    | ImmThumbExp | ImmSimdExp | Cond | GprConst | Other

  datatype Opnd = Opnd(start: nat, end: nat, bit1: nat, bit2: nat, kind: OpndType)

  /** An entry of the instruction table: two output operands and four input operands. */
  datatype Desc = Desc(val: u32, mask: u32, opnds: seq<Opnd>)

  /** The options that set_opnd_bits reads; registers come in two lists of four. */
  datatype Options = Options(srcRegs: seq<u32>, dstRegs: seq<u32>, srcExt: seq<u32>, dstExt: seq<u32>, szQ: u32,
                             shiftReg: u32, shiftType: u32, regsList: u32, imm: u32, shiftImm: u32, cond: u32)

  const MAX_REG_NUM: nat := 4

  /** A field that lies in a word, below its top bit. */
  predicate IsField(low: nat, high: nat)
  {
    low <= high <= 30
  }

  /** The fields that an operand of this type is written to. */
  predicate GoodOpnd(o: Opnd)
  {
    match o.kind
    case GprConst => true
    case Other => true
    case Fpsr => IsField(o.start, o.end) && o.bit1 <= 30
    case Fpdr => IsField(o.start, o.end) && o.bit1 <= 30
    case Fpqr => IsField(o.start, o.end) && o.bit1 <= 30
    case GprMerge => IsField(o.start, o.end) && o.bit1 <= 30
    case Fpdsr => IsField(o.start, o.end) && o.bit1 <= 30 && o.bit2 <= 30
    case Fpqdr => IsField(o.start, o.end) && o.bit1 <= 30 && o.bit2 <= 30
    case ShiftReg => IsField(o.start, o.end) && IsField(o.bit1, o.bit2)
    case RotateReg => IsField(o.start, o.end) && IsField(o.bit1, o.bit2)
    case ImmMerge => IsField(o.start, o.end) && IsField(o.bit1, o.bit2)
    case ImmVfpExpand => IsField(o.start, o.end) && IsField(o.bit1, o.bit2)
    case ShiftImm => IsField(o.start, o.end) && IsField(o.bit1, o.bit2)
    case ShiftImmT => IsField(o.start, o.end) && 2 * o.end <= 30 && o.bit1 <= 30 && o.bit2 <= 30
    case _ => IsField(o.start, o.end)
  }

  predicate GoodDesc(d: Desc)
  {
    And(d.val, d.mask) == d.val && |d.opnds| == 6 && forall i :: 0 <= i < 6 ==> GoodOpnd(d.opnds[i])
  }

  predicate GoodOptions(o: Options)
  {
    |o.srcRegs| == |o.dstRegs| == |o.srcExt| == |o.dstExt| == MAX_REG_NUM
  }

  /** The word after init_raw_instr_bin has put the opcode bits in. */
  function WithOpcode(raw: nat, d: Desc): nat
  {
    Or(And(raw, Xor(d.mask, ALL32)), d.val)
  }

  lemma OpcodePutIn(raw: nat, d: Desc)
    requires And(d.val, d.mask) == d.val
    ensures var r := WithOpcode(raw, d); r <= ALL32 && And(r, d.mask) == d.val
    ensures forall i: nat :: i < 32 ==>
      Bit(WithOpcode(raw, d), i) == if Bit(d.mask, i) then Bit(d.val, i) else Bit(raw, i)
  {
    var r := WithOpcode(raw, d);
    forall i: nat
      ensures i >= 32 ==> !Bit(r, i)
      ensures i < 32 ==> Bit(r, i) == if Bit(d.mask, i) then Bit(d.val, i) else Bit(raw, i)
      ensures Bit(And(r, d.mask), i) == Bit(d.val, i)
    {
      BitOfOr(And(raw, Xor(d.mask, ALL32)), d.val, i);
      BitOfAnd(raw, Xor(d.mask, ALL32), i);
      BitOfXor(d.mask, ALL32, i);
      AllBits(i);
      BitOfAnd(r, d.mask, i);
      BitOfAnd(d.val, d.mask, i);
      Power32();
      if i >= 32 { NoBitAbove(d.val, 32, i); NoBitAbove(d.mask, 32, i); }
    }
    BoundedByBits(r, 32);
    Power32();
    Extensional(And(r, d.mask), d.val);
  }

  // ---------- what is written ----------

  /** A field written unless it holds an opcode bit. */
  function Put1(mask: nat, raw: nat, low: nat, high: nat, value: nat): nat
    requires low <= high
  {
    if IsFree(mask, low, high) then SetInstr(raw, low, high, value) else raw
  }

  /** A value in two fields, written unless one of them holds an opcode bit. */
  function Put2(mask: nat, raw: nat, low: nat, high: nat, low': nat, high': nat, value: nat): nat
    requires low <= high && low' <= high'
  {
    if IsFree(mask, low, high) && IsFree(mask, low', high')
    then SetInstr(SetInstr(raw, low, high, value), low', high', Shr(value, high - low + 1)) else raw
  }

  /** Where the upper parts of an expanded immediate go: three bits, and one bit. */
  datatype Spots = Spots(bit: nat, low: nat, high: nat)

  function SpotsOf(kind: OpndType, thumb: bool): (r: Spots)
    ensures IsField(r.low, r.high) && r.bit <= 30
  {
    if kind == ImmThumbExp then Spots(26, 12, 14) else Spots(if thumb then 28 else 24, 16, 18)
  }

  /** An immediate in three fields. */
  function Put3(mask: nat, raw: nat, o: Opnd, spots: Spots, value: nat): nat
    requires o.start <= o.end && spots.low <= spots.high
  {
    var Spots(bit, low, high) := spots;
    var rest := Shr(value, o.end - o.start + 1);
    if IsFree(mask, bit, bit) && IsFree(mask, low, high) && IsFree(mask, o.start, o.end)
    then
      var two := SetInstr(SetInstr(raw, o.start, o.end, value), low, high, rest);
      SetInstr(two, bit, bit, Shr(rest, high - low + 1))
    else raw
  }

  /** A zero-extended immediate is one of two other types. */
  function Refined(o: Opnd): OpndType
  {
    if o.kind == ImmZeroExtend then (if o.bit2 != 0 then ImmThumbExp else Imm) else o.kind
  }

  predicate IsRegister(kind: OpndType)
  {
    kind in {Gpr, GprSet, GprRw, Fpsr, Fpdr, Fpqr, Fpdsr, Fpqdr}
  }

  function RegisterPut(mask: nat, raw: nat, o: Opnd, reg: nat, ext: nat, szQ: nat): nat
    requires o.start <= o.end
  {
    var r := SetInstr(raw, o.start, o.end, reg);
    var r' := if o.kind in {Fpsr, Fpdr, Fpqr, Fpdsr, Fpqdr} then Put1(mask, r, o.bit1, o.bit1, ext) else r;
    if o.kind in {Fpdsr, Fpqdr} then Put1(mask, r', o.bit2, o.bit2, szQ) else r'
  }

  /** A Thumb shift: its amount in two fields, its type in two bits. */
  function ShiftPut(mask: nat, raw: nat, o: Opnd, amount: nat, kind: nat): nat
    requires o.start <= o.end
  {
    var r := Put2(mask, raw, o.start, o.end, 2 * o.start, 2 * o.end, amount);
    Put1(mask, Put1(mask, r, o.bit1, o.bit1, kind), o.bit2, o.bit2, Shr(kind, 1))
  }

  predicate InOneField(kind: OpndType)
  {
    kind in {GprList, GprListT, Imm, ImmArmExp, ImmSignExtend, Cond}
  }

  function FieldValue(kind: OpndType, v: Options): u32
  {
    if kind in {GprList, GprListT} then v.regsList else if kind == Cond then v.cond else v.imm
  }

  /** The word after an operand that is not a register. */
  function ValuePut(mask: nat, raw: nat, o: Opnd, kind: OpndType, thumb: bool, v: Options): nat
    requires GoodOpnd(o) && (kind == o.kind || (o.kind == ImmZeroExtend && kind in {Imm, ImmThumbExp}))
  {
    if InOneField(kind) then Put1(mask, raw, o.start, o.end, FieldValue(kind, v))
    else if kind in {ShiftReg, RotateReg, ShiftImm} then
      var first := Put1(mask, raw, o.start, o.end, if kind == ShiftImm then v.shiftImm else v.shiftReg);
      Put1(mask, first, o.bit1, o.bit2, v.shiftType)
    else if kind in {ImmMerge, ImmVfpExpand} then Put2(mask, raw, o.bit1, o.bit2, o.start, o.end, v.imm)
    else if kind == ShiftImmT then ShiftPut(mask, raw, o, v.shiftImm, v.shiftType)
    else if kind in {ImmThumbExp, ImmSimdExp} then Put3(mask, raw, o, SpotsOf(kind, thumb), v.imm)
    else raw
  }

  // ---------- one pass over the operands ----------

  /** What one pass of set_opnd_bits goes by. */
  datatype Pass = Pass(mask: nat, regs: seq<u32>, ext: seq<u32>, thumb: bool, v: Options)

  predicate GoodPass(p: Pass)
  {
    |p.regs| == |p.ext| == MAX_REG_NUM
  }

  /** The word, and the number of registers used so far. */
  datatype Written = Written(raw: nat, used: nat)

  /** Whether an operand is given the next register. */
  predicate TakesRegister(mask: nat, o: Opnd)
  {
    (IsRegister(o.kind) || (o.kind == GprMerge && IsFree(mask, o.bit1, o.bit1))) && IsFree(mask, o.start, o.end)
  }

  function OpndPut(p: Pass, w: Written, o: Opnd): Written
    requires GoodPass(p) && GoodOpnd(o)
  {
    if IsRegister(o.kind) || o.kind == GprMerge then
      if w.used >= MAX_REG_NUM || !TakesRegister(p.mask, o) then w
      else if o.kind == GprMerge then
        Written(Put2(p.mask, w.raw, o.start, o.end, o.bit1, o.bit1, p.regs[w.used]), w.used + 1)
      else Written(RegisterPut(p.mask, w.raw, o, p.regs[w.used], p.ext[w.used], p.v.szQ), w.used + 1)
    else Written(ValuePut(p.mask, w.raw, o, Refined(o), p.thumb, p.v), w.used)
  }

  predicate GoodOpnds(opnds: seq<Opnd>)
  {
    forall i :: 0 <= i < |opnds| ==> GoodOpnd(opnds[i])
  }

  function PassOver(p: Pass, w: Written, opnds: seq<Opnd>): Written
    requires GoodPass(p) && GoodOpnds(opnds)
  {
    if opnds == [] then w else OpndPut(p, PassOver(p, w, opnds[..|opnds| - 1]), opnds[|opnds| - 1])
  }

  /** The operand takes the word from `w` to `w'`.  The quantifier, here and in the predicates like this one
      below, keeps the arithmetic of words from being unfolded wherever this is known. */
  ghost predicate Puts(p: Pass, w: Written, o: Opnd, w': Written)
    requires GoodPass(p) && GoodOpnd(o)
  {
    forall q :: q == p ==> OpndPut(q, w, o) == w'
  }

  /** The operands take the word from `w` to `w'`. */
  ghost predicate PassPuts(p: Pass, w: Written, opnds: seq<Opnd>, w': Written)
    requires GoodPass(p) && GoodOpnds(opnds)
  {
    forall q :: q == p ==> PassOver(q, w, opnds) == w'
  }

  lemma OneMorePut(p: Pass, w: Written, opnds: seq<Opnd>, k: nat, w1: Written, w2: Written)
    requires GoodPass(p) && GoodOpnds(opnds) && k < |opnds| && PassPuts(p, w, opnds[..k], w1)
    requires Puts(p, w1, opnds[k], w2)
    ensures PassPuts(p, w, opnds[..k + 1], w2)
  {
    assert PassOver(p, w, opnds[..k]) == w1 && OpndPut(p, w1, opnds[k]) == w2;
    assert opnds[..k + 1][..k] == opnds[..k];
  }

  /** Position `i` lies in a field that the operand is written to. */
  predicate Writes(o: Opnd, thumb: bool, i: nat)
  {
    var field := o.start <= i <= o.end;
    match Refined(o)
    case GprConst => false
    case Other => false
    case Fpsr => field || i == o.bit1
    case Fpdr => field || i == o.bit1
    case Fpqr => field || i == o.bit1
    case GprMerge => field || i == o.bit1
    case Fpdsr => field || i == o.bit1 || i == o.bit2
    case Fpqdr => field || i == o.bit1 || i == o.bit2
    case ShiftReg => field || o.bit1 <= i <= o.bit2
    case RotateReg => field || o.bit1 <= i <= o.bit2
    case ImmMerge => field || o.bit1 <= i <= o.bit2
    case ImmVfpExpand => field || o.bit1 <= i <= o.bit2
    case ShiftImm => field || o.bit1 <= i <= o.bit2
    case ShiftImmT => field || 2 * o.start <= i <= 2 * o.end || i == o.bit1 || i == o.bit2
    case ImmThumbExp => var s := SpotsOf(Refined(o), thumb); field || i == s.bit || s.low <= i <= s.high
    case ImmSimdExp => var s := SpotsOf(Refined(o), thumb); field || i == s.bit || s.low <= i <= s.high
    case _ => field
  }

  lemma Put1Keeps(mask: nat, raw: nat, low: nat, high: nat, value: nat, i: nat)
    requires low <= high && i < 32 && !(low <= i <= high)
    ensures Bit(Put1(mask, raw, low, high, value), i) == Bit(raw, i)
  {
    SetInstrBits(raw, low, high, value, i);
  }

  lemma Put2Keeps(mask: nat, raw: nat, low: nat, high: nat, low': nat, high': nat, value: nat, i: nat)
    requires low <= high && low' <= high' && i < 32 && !(low <= i <= high) && !(low' <= i <= high')
    ensures Bit(Put2(mask, raw, low, high, low', high', value), i) == Bit(raw, i)
  {
    SetInstrBits(raw, low, high, value, i);
    SetInstrBits(SetInstr(raw, low, high, value), low', high', Shr(value, high - low + 1), i);
  }

  lemma Put3Keeps(mask: nat, raw: nat, o: Opnd, spots: Spots, value: nat, i: nat)
    requires o.start <= o.end && spots.low <= spots.high && i < 32
    requires !(o.start <= i <= o.end) && !(spots.low <= i <= spots.high) && i != spots.bit
    ensures Bit(Put3(mask, raw, o, spots, value), i) == Bit(raw, i)
  {
    var Spots(bit, low, high) := spots;
    var rest := Shr(value, o.end - o.start + 1);
    var one := SetInstr(raw, o.start, o.end, value);
    SetInstrBits(raw, o.start, o.end, value, i);
    SetInstrBits(one, low, high, rest, i);
    SetInstrBits(SetInstr(one, low, high, rest), bit, bit, Shr(rest, high - low + 1), i);
  }

  lemma RegisterKeeps(mask: nat, raw: nat, o: Opnd, reg: nat, ext: nat, szQ: nat, i: nat)
    requires GoodOpnd(o) && IsRegister(o.kind) && i < 32 && !(o.kind in {Fpsr, Fpdr, Fpqr, Fpdsr, Fpqdr} && i == o.bit1)
    requires !(o.kind in {Fpdsr, Fpqdr} && i == o.bit2)
    ensures Bit(RegisterPut(mask, raw, o, reg, ext, szQ), i) == Bit(SetInstr(raw, o.start, o.end, reg), i)
  {
    var r := SetInstr(raw, o.start, o.end, reg);
    if i != o.bit1 { Put1Keeps(mask, r, o.bit1, o.bit1, ext, i); }
    if o.kind in {Fpdsr, Fpqdr} { Put1Keeps(mask, Put1(mask, r, o.bit1, o.bit1, ext), o.bit2, o.bit2, szQ, i); }
  }

  lemma TwoFieldsKeep(mask: nat, raw: nat, o: Opnd, x: nat, y: nat, i: nat)
    requires IsField(o.start, o.end) && IsField(o.bit1, o.bit2) && i < 32
    requires !(o.start <= i <= o.end) && !(o.bit1 <= i <= o.bit2)
    ensures Bit(Put1(mask, Put1(mask, raw, o.start, o.end, x), o.bit1, o.bit2, y), i) == Bit(raw, i)
  {
    Put1Keeps(mask, raw, o.start, o.end, x, i);
    Put1Keeps(mask, Put1(mask, raw, o.start, o.end, x), o.bit1, o.bit2, y, i);
  }

  lemma ShiftKeeps(mask: nat, raw: nat, o: Opnd, amount: nat, kind: nat, i: nat)
    requires o.start <= o.end && i < 32 && i != o.bit1 && i != o.bit2
    requires !(o.start <= i <= o.end) && !(2 * o.start <= i <= 2 * o.end)
    ensures Bit(ShiftPut(mask, raw, o, amount, kind), i) == Bit(raw, i)
  {
    var r := Put2(mask, raw, o.start, o.end, 2 * o.start, 2 * o.end, amount);
    Put2Keeps(mask, raw, o.start, o.end, 2 * o.start, 2 * o.end, amount, i);
    Put1Keeps(mask, r, o.bit1, o.bit1, kind, i);
    Put1Keeps(mask, Put1(mask, r, o.bit1, o.bit1, kind), o.bit2, o.bit2, Shr(kind, 1), i);
  }

  lemma ValueKeeps(mask: nat, raw: nat, o: Opnd, thumb: bool, v: Options, i: nat)
    requires GoodOpnd(o) && i < 32 && !Writes(o, thumb, i)
    ensures Bit(ValuePut(mask, raw, o, Refined(o), thumb, v), i) == Bit(raw, i)
  {
    var kind := Refined(o);
    if InOneField(kind) {
      Put1Keeps(mask, raw, o.start, o.end, FieldValue(kind, v), i);
    } else if kind in {ShiftReg, RotateReg, ShiftImm} {
      TwoFieldsKeep(mask, raw, o, if kind == ShiftImm then v.shiftImm else v.shiftReg, v.shiftType, i);
    } else if kind in {ImmMerge, ImmVfpExpand} {
      Put2Keeps(mask, raw, o.bit1, o.bit2, o.start, o.end, v.imm, i);
    } else if kind == ShiftImmT {
      ShiftKeeps(mask, raw, o, v.shiftImm, v.shiftType, i);
    } else if kind in {ImmThumbExp, ImmSimdExp} {
      Put3Keeps(mask, raw, o, SpotsOf(kind, thumb), v.imm, i);
    }
  }

  /** An operand changes bits of its own fields only. */
  lemma OnlyItsBits(p: Pass, w: Written, o: Opnd, i: nat)
    requires GoodPass(p) && GoodOpnd(o) && i < 32 && !Writes(o, p.thumb, i)
    ensures Bit(OpndPut(p, w, o).raw, i) == Bit(w.raw, i)
  {
    if IsRegister(o.kind) {
      if w.used < MAX_REG_NUM {
        RegisterKeeps(p.mask, w.raw, o, p.regs[w.used], p.ext[w.used], p.v.szQ, i);
        SetInstrBits(w.raw, o.start, o.end, p.regs[w.used], i);
      }
    } else if o.kind == GprMerge {
      if w.used < MAX_REG_NUM { Put2Keeps(p.mask, w.raw, o.start, o.end, o.bit1, o.bit1, p.regs[w.used], i); }
    } else {
      ValueKeeps(p.mask, w.raw, o, p.thumb, p.v, i);
    }
  }

  /** A bit that no operand from the `j`th on writes is as it was before the `j`th. */
  lemma {:induction false} PassKeeps(p: Pass, w: Written, opnds: seq<Opnd>, j: nat, i: nat)
    requires GoodPass(p) && GoodOpnds(opnds) && j <= |opnds| && i < 32
    requires forall l :: j <= l < |opnds| ==> !Writes(opnds[l], p.thumb, i)
    ensures Bit(PassOver(p, w, opnds).raw, i) == Bit(PassOver(p, w, opnds[..j]).raw, i)
    decreases |opnds|
  {
    if j == |opnds| {
      assert opnds[..j] == opnds;
    } else {
      var front := opnds[..|opnds| - 1];
      PassKeeps(p, w, front, j, i);
      assert front[..j] == opnds[..j];
      OnlyItsBits(p, PassOver(p, w, front), opnds[|opnds| - 1], i);
    }
  }

  /** How many of these operands are given a register. */
  function Taken(mask: nat, opnds: seq<Opnd>): (n: nat)
    ensures n <= |opnds|
  {
    if opnds == [] then 0
    else Taken(mask, opnds[..|opnds| - 1]) + if TakesRegister(mask, opnds[|opnds| - 1]) then 1 else 0
  }

  lemma {:induction false} UsedIsTaken(p: Pass, raw: nat, opnds: seq<Opnd>)
    requires GoodPass(p) && GoodOpnds(opnds) && |opnds| <= MAX_REG_NUM
    ensures PassOver(p, Written(raw, 0), opnds).used == Taken(p.mask, opnds)
    decreases |opnds|
  {
    if opnds == [] {
    } else {
      UsedIsTaken(p, raw, opnds[..|opnds| - 1]);
    }
  }

  /** The extra bits of a floating-point register lie outside its field. */
  predicate BitsApart(o: Opnd)
  {
    && (o.kind in {Fpsr, Fpdr, Fpqr, Fpdsr, Fpqdr} ==> !(o.start <= o.bit1 <= o.end))
    && (o.kind in {Fpdsr, Fpqdr} ==> !(o.start <= o.bit2 <= o.end))
  }

  /** The field reads as `value`, as far as that fits. */
  ghost predicate ReadsAs(raw: nat, low: nat, high: nat, value: nat)
  {
    forall k :: k == low && k <= high ==> GetBits(raw, k, high) == Low(high - k + 1, value)
  }

  lemma RegisterGoesIn(p: Pass, w: Written, o: Opnd)
    requires GoodPass(p) && GoodOpnd(o) && w.used < MAX_REG_NUM && IsRegister(o.kind) && TakesRegister(p.mask, o)
    requires BitsApart(o)
    ensures ReadsAs(OpndPut(p, w, o).raw, o.start, o.end, p.regs[w.used])
  {
    var reg := p.regs[w.used];
    var r := SetInstr(w.raw, o.start, o.end, reg);
    forall i: nat | o.start <= i <= o.end ensures Bit(OpndPut(p, w, o).raw, i) == Bit(r, i) {
      RegisterKeeps(p.mask, w.raw, o, reg, p.ext[w.used], p.v.szQ, i);
    }
    SameField(OpndPut(p, w, o).raw, r, o.start, o.end);
    FieldRoundTrip(w.raw, o.start, o.end, reg);
  }

  /** The next operand that takes a register gets the next register. */
  lemma NextRegister(p: Pass, w: Written, opnds: seq<Opnd>, j: nat)
    requires GoodPass(p) && GoodOpnds(opnds) && j < |opnds| && PassOver(p, w, opnds[..j]).used < MAX_REG_NUM
    requires IsRegister(opnds[j].kind) && TakesRegister(p.mask, opnds[j]) && BitsApart(opnds[j])
    ensures ReadsAs(PassOver(p, w, opnds[..j + 1]).raw, opnds[j].start, opnds[j].end,
      p.regs[PassOver(p, w, opnds[..j]).used])
  {
    assert opnds[..j + 1][..j] == opnds[..j];
    RegisterGoesIn(p, PassOver(p, w, opnds[..j]), opnds[j]);
  }

  /** The operand writes no bit of the field. */
  predicate Spares(o: Opnd, thumb: bool, low: nat, high: nat)
  {
    forall i: nat :: low <= i <= high ==> !Writes(o, thumb, i)
  }

  lemma ReadsSame(a: nat, b: nat, low: nat, high: nat, value: nat)
    requires low <= high && ReadsAs(b, low, high, value) && forall i: nat :: low <= i <= high ==> Bit(a, i) == Bit(b, i)
    ensures ReadsAs(a, low, high, value)
  {
    SameField(a, b, low, high);
  }

  /** A field that no operand from the `j`th on writes to reads as it did before the `j`th. */
  lemma FieldStays(p: Pass, w: Written, opnds: seq<Opnd>, j: nat, low: nat, high: nat, value: nat)
    requires GoodPass(p) && GoodOpnds(opnds) && j <= |opnds| && low <= high < 32
    requires forall l :: j <= l < |opnds| ==> Spares(opnds[l], p.thumb, low, high)
    requires ReadsAs(PassOver(p, w, opnds[..j]).raw, low, high, value)
    ensures ReadsAs(PassOver(p, w, opnds).raw, low, high, value)
  {
    forall i: nat | low <= i <= high
      ensures Bit(PassOver(p, w, opnds).raw, i) == Bit(PassOver(p, w, opnds[..j]).raw, i)
    {
      forall l | j <= l < |opnds| ensures !Writes(opnds[l], p.thumb, i) { assert Spares(opnds[l], p.thumb, low, high); }
      PassKeeps(p, w, opnds, j, i);
    }
    ReadsSame(PassOver(p, w, opnds).raw, PassOver(p, w, opnds[..j]).raw, low, high, value);
  }

  /** The field of a register operand holds the register it was given: the first operand that takes a
      register gets the first of the list, the next the second, and so on. */
  lemma RegisterStays(p: Pass, raw: nat, opnds: seq<Opnd>, j: nat)
    requires GoodPass(p) && GoodOpnds(opnds) && j < |opnds| <= MAX_REG_NUM
    requires IsRegister(opnds[j].kind) && TakesRegister(p.mask, opnds[j]) && BitsApart(opnds[j])
    requires forall l :: j < l < |opnds| ==> Spares(opnds[l], p.thumb, opnds[j].start, opnds[j].end)
    ensures ReadsAs(PassOver(p, Written(raw, 0), opnds).raw, opnds[j].start, opnds[j].end,
      p.regs[Taken(p.mask, opnds[..j])])
  {
    UsedIsTaken(p, raw, opnds[..j]);
    NextRegister(p, Written(raw, 0), opnds, j);
    FieldStays(p, Written(raw, 0), opnds, j + 1, opnds[j].start, opnds[j].end, p.regs[Taken(p.mask, opnds[..j])]);
  }

  class Builder {
    const desc: Desc
    const options: Options
    /** raw_instr */
    var raw: u32

    /** The word is an instance of the instruction. */
    ghost predicate Matches()
      reads this
    {
      forall m :: m == desc.mask ==> And(raw, m) == desc.val
    }

    /** init_raw_instr_bin, with `random` for rand() or for the word given with the options; the word of
        a 16-bit instruction is cut to its half. */
    constructor (desc: Desc, options: Options, random: u32, short: bool)
      requires GoodDesc(desc) && GoodOptions(options)
      ensures this.desc == desc && this.options == options && Matches() && raw == WithOpcode(Start(random, short), desc)
    {
      this.desc, this.options := desc, options;
      OpcodePutIn(Start(random, short), desc);
      raw := Or(And(Start(random, short), Xor(desc.mask, ALL32)), desc.val);
    }

    /** Writes a field that holds no opcode bit. */
    method Put(low: nat, high: nat, value: nat)
      requires Matches() && low <= high <= 30 && IsFree(desc.mask, low, high)
      modifies this
      ensures raw == SetInstr(old(raw), low, high, value) && Matches()
    {
      FreeFieldKeeps(desc.mask, raw, low, high, value);
      SameUnderMask(desc.mask, SetInstr(raw, low, high, value), raw);
      raw := SetInstr(raw, low, high, value);
    }

    /** Writes a field unless it holds an opcode bit. */
    method PutIfFree(low: nat, high: nat, value: nat)
      requires Matches() && low <= high <= 30
      modifies this
      ensures Matches() && raw == Put1(desc.mask, old(raw), low, high, value)
    {
      var fixed := IsFixed(desc.mask, low, high);
      if !fixed { Put(low, high, value); }
    }

    /** set_sbit: bit 20 is set or cleared if the option is given and the opcode leaves it open. */
    method SetSbit(given: bool, on: bool)
      requires Matches()
      modifies this
      ensures Matches() && raw == WithSbit(old(raw), desc.mask, Sbit(20, given, on))
    {
      if given { PutIfFree(20, 20, if on then 1 else 0); }
    }

    /** A register operand, with the extra bits of a floating-point register. */
    method PutRegister(o: Opnd, kind: OpndType, reg: u32, ext: u32)
      requires Matches() && o.kind == kind && GoodOpnd(o) && IsFree(desc.mask, o.start, o.end)
      requires IsRegister(kind)
      modifies this
      ensures Matches() && raw == RegisterPut(desc.mask, old(raw), o, reg, ext, options.szQ)
    {
      Put(o.start, o.end, reg);
      if kind in {Fpsr, Fpdr, Fpqr, Fpdsr, Fpqdr} { PutIfFree(o.bit1, o.bit1, ext); }
      if kind in {Fpdsr, Fpqdr} { PutIfFree(o.bit2, o.bit2, options.szQ); }
    }

    /** A register number split over a field and a single bit. */
    method PutMerged(o: Opnd, reg: u32)
      requires Matches() && o.kind == GprMerge && GoodOpnd(o) && IsFree(desc.mask, o.start, o.end)
      requires IsFree(desc.mask, o.bit1, o.bit1)
      modifies this
      ensures Matches()
      ensures raw == SetInstr(SetInstr(old(raw), o.start, o.end, reg), o.bit1, o.bit1, Shr(reg, o.end - o.start + 1))
    {
      Put(o.start, o.end, reg);
      Put(o.bit1, o.bit1, Shr(reg, o.end - o.start + 1));
    }

    /** An immediate in two parts, low part at `low`. */
    method PutSplit(low: nat, high: nat, low': nat, high': nat, value: u32)
      requires Matches() && IsField(low, high) && IsField(low', high')
      modifies this
      ensures Matches() && raw == Put2(desc.mask, old(raw), low, high, low', high', value)
    {
      var fixed := IsFixed(desc.mask, low', high');
      var fixed' := IsFixed(desc.mask, low, high);
      if !fixed && !fixed' {
        Put(low, high, value);
        Put(low', high', Shr(value, high - low + 1));
      }
    }

    /** An immediate in three parts: the field, three bits and one bit whose places depend on the type. */
    method PutExpanded(o: Opnd, spots: Spots)
      requires Matches() && IsField(o.start, o.end) && spots.bit <= 30 && IsField(spots.low, spots.high)
      modifies this
      ensures Matches() && raw == Put3(desc.mask, old(raw), o, spots, options.imm)
    {
      var Spots(bit, low, high) := spots;
      var f1 := IsFixed(desc.mask, bit, bit);
      var f2 := IsFixed(desc.mask, low, high);
      var f3 := IsFixed(desc.mask, o.start, o.end);
      if !f1 && !f2 && !f3 {
        Put(o.start, o.end, options.imm);
        var rest := Shr(options.imm, o.end - o.start + 1);
        Put(low, high, rest);
        Put(bit, bit, Shr(rest, high - low + 1));
      }
    }

    /** A Thumb shift: its amount in two parts, its type in two bits. */
    method PutShift(o: Opnd)
      requires Matches() && o.kind == ShiftImmT && GoodOpnd(o)
      modifies this
      ensures Matches() && raw == ShiftPut(desc.mask, old(raw), o, options.shiftImm, options.shiftType)
    {
      PutSplit(o.start, o.end, 2 * o.start, 2 * o.end, options.shiftImm);
      PutIfFree(o.bit1, o.bit1, options.shiftType);
      PutIfFree(o.bit2, o.bit2, Shr(options.shiftType, 1));
    }

    /** One turn of the loop of set_opnd_bits: the operand, and the number of registers used so far. */
    method SetOpnd(o: Opnd, regIdx: nat, regs: seq<u32>, ext: seq<u32>, thumb: bool) returns (regIdx': nat)
      requires Matches() && GoodOpnd(o) && |regs| == |ext| == MAX_REG_NUM
      modifies this
      ensures Matches()
      ensures Puts(Pass(desc.mask, regs, ext, thumb, options), Written(old(raw), regIdx), o, Written(raw, regIdx'))
    {
      regIdx' := regIdx;
      var kind := if o.kind == ImmZeroExtend then (if o.bit2 != 0 then ImmThumbExp else Imm) else o.kind;
      if IsRegister(kind) {
        var fixed := IsFixed(desc.mask, o.start, o.end);
        if regIdx < MAX_REG_NUM && !fixed {
          PutRegister(o, kind, regs[regIdx], ext[regIdx]);
          regIdx' := regIdx + 1;
        }
      } else if kind == GprMerge {
        var fixed := IsFixed(desc.mask, o.bit1, o.bit1);
        var fixed' := IsFixed(desc.mask, o.start, o.end);
        if regIdx < MAX_REG_NUM && !fixed && !fixed' {
          PutMerged(o, regs[regIdx]);
          regIdx' := regIdx + 1;
        }
      } else {
        SetValue(o, kind, thumb);
      }
    }

    /** The operand types that are not registers. */
    method SetValue(o: Opnd, kind: OpndType, thumb: bool)
      requires Matches() && GoodOpnd(o)
      requires kind == o.kind || (o.kind == ImmZeroExtend && kind in {Imm, ImmThumbExp})
      modifies this
      ensures Matches() && raw == ValuePut(desc.mask, old(raw), o, kind, thumb, options)
    {
      if InOneField(kind) {
        PutIfFree(o.start, o.end, FieldValue(kind, options));
      } else if kind in {ShiftReg, RotateReg, ShiftImm} {
        PutIfFree(o.start, o.end, if kind == ShiftImm then options.shiftImm else options.shiftReg);
        PutIfFree(o.bit1, o.bit2, options.shiftType);
      } else if kind in {ImmMerge, ImmVfpExpand} {
        PutSplit(o.bit1, o.bit2, o.start, o.end, options.imm);
      } else if kind == ShiftImmT {
        PutShift(o);
      } else if kind in {ImmThumbExp, ImmSimdExp} {
        PutExpanded(o, SpotsOf(kind, thumb));
      }
    }

    /** set_opnd_bits for the input operands or the output operands. */
    method SetOpndBits(inputs: bool, thumb: bool)
      requires Matches() && GoodDesc(desc) && GoodOptions(options)
      modifies this
      ensures Matches()
      ensures raw == PassOver(PassOf(desc, options, inputs, thumb), Written(old(raw), 0), Part(desc, inputs)).raw
    {
      var regs := if inputs then options.srcRegs else options.dstRegs;
      var ext := if inputs then options.srcExt else options.dstExt;
      var first, last := if inputs then 2 else 0, if inputs then 5 else 1;
      var idx, regIdx := first, 0;
      ghost var p, part := PassOf(desc, options, inputs, thumb), Part(desc, inputs);
      while idx <= last
        invariant first <= idx <= last + 1 == first + |part| <= 6 && Matches()
        invariant PassPuts(p, Written(old(raw), 0), part[..idx - first], Written(raw, regIdx))
      {
        ghost var w := Written(raw, regIdx);
        assert part[idx - first] == desc.opnds[idx];
        regIdx := SetOpnd(desc.opnds[idx], regIdx, regs, ext, thumb);
        OneMorePut(p, Written(old(raw), 0), part, idx - first, w, Written(raw, regIdx));
        idx := idx + 1;
      }
      assert part[..|part|] == part;
      assert PassOver(p, Written(old(raw), 0), part) == Written(raw, regIdx);
    }
  }

  /** What rand() gave, or the word given with the options, cut to its half for a 16-bit instruction. */
  function Start(random: u32, short: bool): nat
  {
    if short then And(random, 0xffff) else random
  }

  /** The operands of one pass. */
  function Part(d: Desc, inputs: bool): (r: seq<Opnd>)
    requires GoodDesc(d)
    ensures GoodOpnds(r)
  {
    if inputs then d.opnds[2..] else d.opnds[..2]
  }

  function PassOf(d: Desc, v: Options, inputs: bool, thumb: bool): Pass
  {
    Pass(d.mask, if inputs then v.srcRegs else v.dstRegs, if inputs then v.srcExt else v.dstExt, thumb, v)
  }

  /** Operand `l` is written after operand `j`: inputs come first. */
  predicate Later(j: nat, l: nat)
  {
    if j >= 2 then l > j || l < 2 else j < l < 2
  }

  /** The field of register operand `j` is written, and nothing is written over it. */
  predicate Lasting(d: Desc, thumb: bool, j: nat)
    requires j < |d.opnds|
  {
    var o := d.opnds[j];
    && IsRegister(o.kind) && TakesRegister(d.mask, o) && BitsApart(o)
    && forall l :: 0 <= l < |d.opnds| && Later(j, l) ==> Spares(d.opnds[l], thumb, o.start, o.end)
  }

  /** The register that the options give for operand `j`. */
  function Given(d: Desc, v: Options, j: nat): u32
    requires GoodDesc(d) && GoodOptions(v) && j < 6
  {
    if j >= 2 then v.srcRegs[Taken(d.mask, d.opnds[2..j])] else v.dstRegs[Taken(d.mask, d.opnds[..j])]
  }

  /** Every register operand that lasts reads as the register given for it. */
  ghost predicate RegistersIn(raw: nat, d: Desc, v: Options, thumb: bool)
    requires GoodDesc(d) && GoodOptions(v)
  {
    forall j :: 0 <= j < 6 && Lasting(d, thumb, j) ==>
      ReadsAs(raw, d.opnds[j].start, d.opnds[j].end, Given(d, v, j))
  }

  /** The S bit: where it is, whether it is asked for, and as what. */
  datatype Sbit = Sbit(at: nat, given: bool, on: bool)

  /** The word with the S bit, if it is asked for and the opcode leaves it open. */
  function WithSbit(raw: nat, mask: nat, s: Sbit): nat
  {
    if s.given && IsFree(mask, s.at, s.at) then SetInstr(raw, s.at, s.at, if s.on then 1 else 0) else raw
  }

  lemma SbitGoesIn(raw: nat, mask: nat, s: Sbit, i: nat)
    requires i < 32
    ensures Bit(WithSbit(raw, mask, s), i) == if s.given && i == s.at && !Bit(mask, i) then s.on else Bit(raw, i)
  {
    SetInstrBits(raw, s.at, s.at, if s.on then 1 else 0, i);
    assert Bit(1, 0) && !Bit(0, 0);
  }

  /** Bits that no operand is written to hold the opcode, the S bit, or what they held at first. */
  ghost predicate RestIs(raw: nat, d: Desc, thumb: bool, start: nat, s: Sbit)
  {
    forall i :: 0 <= i < 32 && (forall l :: 0 <= l < |d.opnds| ==> !Writes(d.opnds[l], thumb, i)) ==>
      Bit(raw, i) == if Bit(d.mask, i) then Bit(d.val, i) else if s.given && i == s.at then s.on else Bit(start, i)
  }

  lemma BothPasses(d: Desc, v: Options, thumb: bool, start: nat, s: Sbit, r: nat, r1: nat, r2: nat)
    requires GoodDesc(d) && GoodOptions(v)
    requires r == WithSbit(WithOpcode(start, d), d.mask, s)
    requires r1 == PassOver(PassOf(d, v, true, thumb), Written(r, 0), Part(d, true)).raw
    requires r2 == PassOver(PassOf(d, v, false, thumb), Written(r1, 0), Part(d, false)).raw
    ensures RegistersIn(r2, d, v, thumb) && RestIs(r2, d, thumb, start, s)
  {
    forall j | 0 <= j < 6 && Lasting(d, thumb, j)
      ensures ReadsAs(r2, d.opnds[j].start, d.opnds[j].end, Given(d, v, j))
    {
      if j >= 2 { InputStays(d, v, thumb, r, r1, r2, j); } else { OutputStays(d, v, thumb, r1, r2, j); }
    }
    RestStays(d, v, thumb, start, s, r, r1, r2);
  }

  lemma InputStays(d: Desc, v: Options, thumb: bool, r: nat, r1: nat, r2: nat, j: nat)
    requires GoodDesc(d) && GoodOptions(v) && 2 <= j < 6 && Lasting(d, thumb, j)
    requires r1 == PassOver(PassOf(d, v, true, thumb), Written(r, 0), Part(d, true)).raw
    requires r2 == PassOver(PassOf(d, v, false, thumb), Written(r1, 0), Part(d, false)).raw
    ensures ReadsAs(r2, d.opnds[j].start, d.opnds[j].end, Given(d, v, j))
  {
    var o, part, part' := d.opnds[j], Part(d, true), Part(d, false);
    assert part[j - 2] == o && part[..j - 2] == d.opnds[2..j];
    forall l | j - 2 < l < |part| ensures Spares(part[l], thumb, o.start, o.end) {
      assert part[l] == d.opnds[l + 2] && Later(j, l + 2);
    }
    RegisterStays(PassOf(d, v, true, thumb), r, part, j - 2);
    forall l | 0 <= l < |part'| ensures Spares(part'[l], thumb, o.start, o.end) {
      assert part'[l] == d.opnds[l] && Later(j, l);
    }
    assert part'[..0] == [];
    FieldStays(PassOf(d, v, false, thumb), Written(r1, 0), part', 0, o.start, o.end, Given(d, v, j));
  }

  lemma OutputStays(d: Desc, v: Options, thumb: bool, r1: nat, r2: nat, j: nat)
    requires GoodDesc(d) && GoodOptions(v) && j < 2 && Lasting(d, thumb, j)
    requires r2 == PassOver(PassOf(d, v, false, thumb), Written(r1, 0), Part(d, false)).raw
    ensures ReadsAs(r2, d.opnds[j].start, d.opnds[j].end, Given(d, v, j))
  {
    var o, part := d.opnds[j], Part(d, false);
    assert part[j] == o && part[..j] == d.opnds[..j];
    forall l | j < l < |part| ensures Spares(part[l], thumb, o.start, o.end) {
      assert part[l] == d.opnds[l] && Later(j, l);
    }
    RegisterStays(PassOf(d, v, false, thumb), r1, part, j);
  }

  lemma RestStays(d: Desc, v: Options, thumb: bool, start: nat, s: Sbit, r: nat, r1: nat, r2: nat)
    requires GoodDesc(d) && GoodOptions(v)
    requires r == WithSbit(WithOpcode(start, d), d.mask, s)
    requires r1 == PassOver(PassOf(d, v, true, thumb), Written(r, 0), Part(d, true)).raw
    requires r2 == PassOver(PassOf(d, v, false, thumb), Written(r1, 0), Part(d, false)).raw
    ensures RestIs(r2, d, thumb, start, s)
  {
    OpcodePutIn(start, d);
    forall i | 0 <= i < 32 && forall l :: 0 <= l < |d.opnds| ==> !Writes(d.opnds[l], thumb, i)
      ensures Bit(r2, i) == if Bit(d.mask, i) then Bit(d.val, i) else if s.given && i == s.at then s.on
        else Bit(start, i)
    {
      forall l | 0 <= l < 4 ensures !Writes(Part(d, true)[l], thumb, i) { assert Part(d, true)[l] == d.opnds[l + 2]; }
      PassKeeps(PassOf(d, v, true, thumb), Written(r, 0), Part(d, true), 0, i);
      PassKeeps(PassOf(d, v, false, thumb), Written(r1, 0), Part(d, false), 0, i);
      SbitGoesIn(WithOpcode(start, d), d.mask, s, i);
    }
  }

  /** The part of gen_instr that this model covers, for every description, all options and any random
      word: the word built matches the opcode asked for, holds the registers asked for in the operand
      fields that nothing is written over, and is random elsewhere. */
  method Build(desc: Desc, options: Options, random: u32, short: bool, thumb: bool, sbit: bool, on: bool)
    returns (raw: u32)
    requires GoodDesc(desc) && GoodOptions(options)
    ensures And(raw, desc.mask) == desc.val
    ensures RegistersIn(raw, desc, options, thumb) && RestIs(raw, desc, thumb, Start(random, short), Sbit(20, sbit, on))
  {
    var b := new Builder(desc, options, random, short);
    b.SetSbit(sbit, on);
    ghost var r := b.raw;
    b.SetOpndBits(true, thumb);
    ghost var r1 := b.raw;
    b.SetOpndBits(false, thumb);
    raw := b.raw;
    BothPasses(desc, options, thumb, Start(random, short), Sbit(20, sbit, on), r, r1, raw);
  }

  /** get_regnum of an operand that is a register field, or a field and a bit. */
  function RegNum(instr: nat, o: Opnd): nat
  {
    if o.kind in {Gpr, GprRw, GprSet, ShiftReg, RotateReg} then GetBits(instr, o.start, o.end)
    else if o.kind == GprConst then o.bit1
    else if o.kind == GprMerge then GetBits(instr, o.start, o.end) + (if GetBit(instr, o.bit1) == 1 then 8 else 0)
    else 0xff
  }

  /** A register number written to a three-bit field and a single bit is read back. */
  lemma MergedRoundTrip(instr: nat, o: Opnd, reg: nat)
    requires o.kind == GprMerge && GoodOpnd(o) && o.end == o.start + 2 && (o.bit1 < o.start || o.bit1 > o.end)
    requires reg < 16
    ensures RegNum(SetInstr(SetInstr(instr, o.start, o.end, reg), o.bit1, o.bit1, Shr(reg, o.end - o.start + 1)),
      o) == reg
  {
    var n := o.end - o.start + 1;
    var first := SetInstr(instr, o.start, o.end, reg);
    var r := SetInstr(first, o.bit1, o.bit1, Shr(reg, n));
    FieldKept(first, o.bit1, o.bit1, Shr(reg, n), o.start, o.end);
    FieldRoundTrip(instr, o.start, o.end, reg);
    SetInstrBits(first, o.bit1, o.bit1, Shr(reg, n), o.bit1);
    GetBitIs(r, o.bit1);
    FourBits(reg, n);
  }

  lemma FourBits(reg: nat, n: nat)
    requires reg < 16 && n == 3
    ensures Low(n, reg) + (if Bit(Shr(reg, n), 0) then 8 else 0) == reg
  {
    ShrIsDiv(reg, 3);
    assert Pow2(3) == 8;
    assert Bit(Shr(reg, 3), 0) <==> Shr(reg, 3) % 2 == 1;
  }
}
