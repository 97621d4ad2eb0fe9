/**
  The control-flow trees that the generator draws, the code it lays out for them, and a machine that
  runs such code with every conditional decided freely.
 */
module FlowTree {

  /** A block of one of the kinds of randomblock.py, with what was drawn for it.  `Basic` stands for so
      many straight-line instructions. */
  datatype Block =
    | Basic(n: nat)
    | ByPass(b1: Block, b2: Block, b3: Block)
    | Hammock(h1: Block, h2: Block, h3: Block, h4: Block)
    | Loop(l1: Block, inc: int, limit: int)
    | IrLoop(ir1: Block, ir2: Block, ir3: Block, inc: int, limit: int)
    | Interwork(iw1: Block, iw2: Block, iw3: Block, cond: bool, followed: bool)
    | CallRet(c1: Block, c2: Block, c3: Block, cond: bool, followed: bool, begin: bool)
    | Exclusive(e1: Block, e2: Block)
    | AluPc(p1: Block, p2: Block)

  /** A block that can be drawn at nesting level `nest`: below level 1 there are only basic blocks. */
  predicate Fits(b: Block, nest: nat)
  {
    match b
    case Basic(_) => true
    case ByPass(x, y, z) => nest > 0 && Fits(x, nest - 1) && Fits(y, nest - 1) && Fits(z, nest - 1)
    case Hammock(w, x, y, z) =>
      nest > 0 && Fits(w, nest - 1) && Fits(x, nest - 1) && Fits(y, nest - 1) && Fits(z, nest - 1)
    case Loop(x, inc, _) => nest > 0 && Fits(x, nest - 1) && 1 <= inc
    case IrLoop(x, y, z, inc, _) => nest > 0 && Fits(x, nest - 1) && Fits(y, nest - 1) && Fits(z, nest - 1) && 1 <= inc
    case Interwork(x, y, z, _, _) => nest > 0 && Fits(x, nest - 1) && Fits(y, nest - 1) && Fits(z, nest - 1)
    case CallRet(x, y, z, _, _, _) => nest > 0 && Fits(x, nest - 1) && Fits(y, nest - 1) && Fits(z, nest - 1)
    case Exclusive(x, y) => nest > 0 && Fits(x, nest - 1) && Fits(y, nest - 1)
    case AluPc(x, y) => nest > 0 && Fits(x, nest - 1) && Fits(y, nest - 1)
  }

  // ---------- code ----------

  /** Instructions, as far as they move control or touch the words of `cfgdata`.  Offsets are in bytes. */
  datatype Instr =
    | Op                                              // anything that goes on to the next instruction
    | Br(target: int)
    | CondBr(target: int)
    | LoopBr(offset: int, inc: int, limit: int, target: int)  // genLoop
    | Call(target: int, cond: bool)                   // genCall
    | Save(sp: int)                                   // getPreCalleeInsts: push lr below sp
    | Ret(sp: int)                                    // getPostCalleeInsts: pop pc at sp

  /** The words of cfgdata that genLoop, getPreCalleeInsts and getPostCalleeInsts address when ctx['nest']
      is `nest`. */
  function LoopOffset(nest: int): int { 32 + 4 * nest }
  function SaveSp(nest: int): int { 4 * nest + 4 }
  function RetSp(nest: int): int { 4 * nest }

  function Size(b: Block): nat
  {
    match b
    case Basic(n) => n
    case ByPass(x, y, z) => Size(x) + 1 + Size(y) + Size(z)
    case Hammock(w, x, y, z) => Size(w) + 1 + Size(x) + 1 + Size(y) + Size(z)
    case Loop(x, _, _) => Size(x) + 1
    case IrLoop(x, y, z, _, _) => Size(x) + 1 + Size(y) + Size(z) + 1
    case Interwork(x, y, z, _, _) => 4 + Size(x) + Size(y) + Size(z)
    case CallRet(x, y, z, _, _, _) => 4 + Size(x) + Size(y) + Size(z)
    case Exclusive(x, y) => Size(x) + 2 + Size(y)
    case AluPc(x, y) => Size(x) + 1 + Size(y)
  }

  function Ops(n: nat): seq<Instr>
  {
    seq(n, _ => Op)
  }

  function Bx(target: int, cond: bool): Instr
  {
    if cond then CondBr(target) else Br(target)
  }

  /** Where the three parts of a block are placed. */
  datatype Layout = Layout(a1: int, a2: int, a3: int)

  function InterworkLayout(at: int, followed: bool, n1: nat, n2: nat): Layout
  {
    if followed then Layout(at + 2 + n2 + 2, at + 2, at + 2 + n2 + 2 + n1)
    else Layout(at + 1, at + 1 + n1 + 1, at + 1 + n1 + 1 + n2 + 2)
  }

  function InterworkCode(l: Layout, cond: bool, followed: bool, x: seq<Instr>, y: seq<Instr>,
                         z: seq<Instr>): (code: seq<Instr>)
    ensures |code| == 4 + |x| + |y| + |z|
  {
    if followed then [Bx(l.a2, cond), Br(l.a3)] + y + [Bx(l.a1, cond), Br(l.a3)] + x + z
    else [Bx(l.a2, cond)] + x + [Br(l.a3)] + y + [Bx(l.a1, cond), Br(l.a3)] + z
  }

  /** `n2` is the size of the called block, to which saving and restoring the return address add two. */
  function CallRetLayout(at: int, followed: bool, begin: bool, n1: nat, n2: nat): Layout
  {
    if followed && begin then Layout(at + 2 + n2 + 2, at + 2, at + 2 + n2 + 2 + n1)
    else if followed then Layout(at + 1 + n2 + 2, at + 1, at + 1 + n2 + 2 + n1 + 1)
    else if begin then Layout(at + 1, at + 1 + n1 + 1, at + 1 + n1 + 1 + n2 + 2)
    else Layout(at, at + n1 + 2, at + n1 + 2 + n2 + 2)
  }

  /** The called block, between saving and restoring the return address. */
  function Callee(nest: int, y: seq<Instr>): seq<Instr>
  {
    [Save(SaveSp(nest))] + y + [Ret(RetSp(nest))]
  }

  function CallRetCode(l: Layout, cond: bool, followed: bool, begin: bool, x: seq<Instr>, y: seq<Instr>,
                       z: seq<Instr>): (code: seq<Instr>)
    ensures |code| == 2 + |x| + |y| + |z|
  {
    if followed && begin then [Call(l.a2, cond), Br(l.a1)] + y + x + z
    else if followed then [Br(l.a1)] + y + x + [Call(l.a2, cond)] + z
    else if begin then [Call(l.a2, cond)] + x + [Br(l.a3)] + y + z
    else x + [Call(l.a2, cond), Br(l.a3)] + y + z
  }

  function Cat(a: seq<Instr>, b: seq<Instr>, c: seq<Instr>, d: seq<Instr>): (code: seq<Instr>)
    ensures |code| == |a| + |b| + |c| + |d|
  {
    a + b + c + d
  }

  /** The code of a block that begins at address `at` and is made at nesting level `nest`.  A label is
      the address of the block it belongs to. */
  function Emit(b: Block, at: int, nest: int): (code: seq<Instr>)
    ensures |code| == Size(b)
  {
    match b
    case Basic(n) => Ops(n)
    case ByPass(x, y, z) =>
      var a2 := at + Size(x) + 1; var a3 := a2 + Size(y);
      Cat(Emit(x, at, nest - 1), [CondBr(a3)], Emit(y, a2, nest - 1), Emit(z, a3, nest - 1))
    case Hammock(w, x, y, z) =>
      var a2 := at + Size(w) + 1; var a3 := a2 + Size(x) + 1; var a4 := a3 + Size(y);
      Cat(Emit(w, at, nest - 1), [CondBr(a3)], Emit(x, a2, nest - 1), [Br(a4)]) + Emit(y, a3, nest - 1)
        + Emit(z, a4, nest - 1)
    case Loop(x, inc, limit) =>
      Emit(x, at, nest - 1) + [LoopBr(LoopOffset(nest - 1), inc, limit, at)]
    case IrLoop(x, y, z, inc, limit) =>
      var a2 := at + Size(x) + 1; var a3 := a2 + Size(y);
      Cat(Emit(x, at, nest - 1), [CondBr(a3)], Emit(y, a2, nest - 1), Emit(z, a3, nest - 1))
      + [LoopBr(LoopOffset(nest - 1), inc, limit, a2)]
    case Interwork(x, y, z, cond, followed) =>
      var l := InterworkLayout(at, followed, Size(x), Size(y));
      InterworkCode(l, cond, followed, Emit(x, l.a1, nest - 1), Emit(y, l.a2, nest - 1), Emit(z, l.a3, nest - 1))
    case CallRet(x, y, z, cond, followed, begin) =>
      var l := CallRetLayout(at, followed, begin, Size(x), Size(y));
      CallRetCode(l, cond, followed, begin, Emit(x, l.a1, nest - 1), Callee(nest - 1, Emit(y, l.a2 + 1, nest - 1)),
        Emit(z, l.a3, nest - 1))
    case Exclusive(x, y) => Emit(x, at, nest - 1) + Ops(2) + Emit(y, at + Size(x) + 2, nest - 1)
    case AluPc(x, y) => Emit(x, at, nest - 1) + Ops(1) + Emit(y, at + Size(x) + 1, nest - 1)
  }

  // ---------- running code ----------

  /** The machine: the link register, the sixteen words of cfgdata, and the time. */
  datatype State = State(pc: int, lr: int, mem: seq<int>, time: nat)

  /** What chance decides at a moment: whether a conditional instruction is executed, and what is in the
      link register after an instruction that may have used it. */
  datatype Chance = Chance(taken: bool, lr: int)

  /** A program, the decisions of chance, and whether the back edges of counted loops are erased. */
  datatype Machine = Machine(prog: seq<Instr>, chance: nat -> Chance, erased: bool)

  function Step(m: Machine, s: State): State
    requires |s.mem| == 16
  {
    var c := m.chance(s.time);
    var s' := s.(time := s.time + 1, lr := c.lr);
    if !(0 <= s.pc < |m.prog|) then s'
    else match m.prog[s.pc]
      case Op => s'.(pc := s.pc + 1)
      case Br(t) => s'.(pc := t)
      case CondBr(t) => s'.(pc := if c.taken then t else s.pc + 1)
      case LoopBr(offset, inc, limit, t) =>
        if offset < 0 || offset + 4 > 64 then s'
        else
          var v := s.mem[offset / 4] + inc;
          s'.(mem := s.mem[offset / 4 := v], pc := if v <= limit && !m.erased then t else s.pc + 1)
      case Call(t, cond) => if cond && !c.taken then s'.(pc := s.pc + 1) else s'.(pc := t, lr := s.pc + 1)
      case Save(sp) => if sp < 4 || sp > 64 then s' else s'.(mem := s.mem[(sp - 4) / 4 := s.lr], pc := s.pc + 1)
      case Ret(sp) => if sp < 0 || sp + 4 > 64 then s' else s'.(pc := s.mem[sp / 4])
  }

  function Run(m: Machine, s: State, n: nat): (t: State)
    requires |s.mem| == 16
    ensures |t.mem| == 16
    decreases n
  {
    if n == 0 then s else Run(m, Step(m, s), n - 1)
  }

  /** `code` is what the program holds from address `at` on. */
  predicate Placed(prog: seq<Instr>, at: int, code: seq<Instr>)
  {
    0 <= at && at + |code| <= |prog| && prog[at..at + |code|] == code
  }
}
