/**
  Every run of the code of a tree, whatever chance decides, stays within the block and comes to its end
  after finitely many steps; with the back edges of counted loops erased, it executes no instruction
  twice.
 */
module FlowRuns {
  import opened FlowTree

  /** Only the words of cfgdata that belong to levels below `nest` may differ. */
  predicate Frame(a: seq<int>, b: seq<int>, nest: nat)
  {
    |a| == |b| == 16 && forall i :: 0 <= i < 16 && i >= nest && !(8 <= i < 8 + nest) ==> a[i] == b[i]
  }

  /** Part of a run: so many steps, and the state after them. */
  datatype Leg = Leg(n: nat, end: State)

  /** From `s` the leg leads to address `pc`, leaves the words of level `nest` and above alone, and
      executes instructions at the addresses in `seen` only, with back edges erased each at most once.
      The quantifiers keep `Run`, `Path` and `Frame` from being unfolded wherever this is known;
      `assert RunIs(...)` brings the run back. */
  ghost predicate IsLeg(m: Machine, s: State, leg: Leg, pc: int, nest: nat, seen: iset<int>)
  {
    && |s.mem| == |leg.end.mem| == 16 && leg.end.pc == pc
    && (forall n :: n == leg.n ==> RunIs(m, s, n, leg.end))
    && (forall n :: n == leg.n ==> Path(m, s, n, seen))
    && (forall k :: k == nest ==> Frame(s.mem, leg.end.mem, k))
  }

  ghost predicate RunIs(m: Machine, s: State, n: nat, t: State)
  {
    |s.mem| == 16 && Run(m, s, n) == t
  }

  /** The instructions of the first `n` steps are at addresses in `seen`; with back edges erased, no two
      steps are at the same one. */
  ghost predicate Path(m: Machine, s: State, n: nat, seen: iset<int>)
  {
    && |s.mem| == 16
    && (forall i :: 0 <= i < n ==> PcAt(m, s, i) in seen)
    && (m.erased ==> forall i, j :: 0 <= i < j < n ==> PcAt(m, s, i) != PcAt(m, s, j))
  }

  /** The address of the instruction that step `i` executes. */
  function PcAt(m: Machine, s: State, i: nat): int
    requires |s.mem| == 16
  {
    Run(m, s, i).pc
  }

  predicate InSpan(at: int, n: nat, x: int)
  {
    at <= x < at + n
  }

  /** The `n` addresses from `at` on. */
  ghost function Span(at: int, n: nat): iset<int>
  {
    iset x | InSpan(at, n, x)
  }

  lemma {:induction false} RunAdds(m: Machine, s: State, a: nat, b: nat)
    requires |s.mem| == 16
    ensures Run(m, s, a + b) == Run(m, Run(m, s, a), b)
    decreases a
  {
    if a == 0 {
    } else {
      RunAdds(m, Step(m, s), a - 1, b);
    }
  }

  lemma PathAdds(m: Machine, s: State, a: nat, t: State, b: nat, seen: iset<int>, seen': iset<int>)
    requires RunIs(m, s, a, t) && Path(m, s, a, seen) && Path(m, t, b, seen') && (m.erased ==> seen !! seen')
    ensures Path(m, s, a + b, seen + seen')
  {
    forall i | a <= i < a + b ensures PcAt(m, s, i) == PcAt(m, t, i - a) { RunAdds(m, s, a, i - a); }
  }

  /** A path that repeats no instruction is no longer than its instructions are many. */
  lemma {:induction false} PathFits(m: Machine, s: State, n: nat, addresses: set<int>)
    requires m.erased && Path(m, s, n, iset x | x in addresses)
    ensures n <= |addresses|
    decreases n
  {
    if n == 0 {
    } else {
      var last := PcAt(m, s, n - 1);
      assert Path(m, s, n - 1, iset x | x in addresses - {last});
      PathFits(m, s, n - 1, addresses - {last});
    }
  }

  function Addresses(at: int, n: nat): (r: set<int>)
    ensures |r| == n && forall x :: InSpan(at, n, x) <==> x in r
  {
    if n == 0 then {} else Addresses(at, n - 1) + {at + n - 1}
  }

  lemma Join(m: Machine, s: State, a: Leg, p: int, seen: iset<int>, b: Leg, q: int, seen': iset<int>, nest: nat)
    returns (leg: Leg)
    requires IsLeg(m, s, a, p, nest, seen) && IsLeg(m, a.end, b, q, nest, seen') && (m.erased ==> seen !! seen')
    ensures IsLeg(m, s, leg, q, nest, seen + seen') && leg.end == b.end
  {
    assert RunIs(m, s, a.n, a.end) && RunIs(m, a.end, b.n, b.end);
    RunAdds(m, s, a.n, b.n);
    assert Path(m, s, a.n, seen) && Path(m, a.end, b.n, seen');
    PathAdds(m, s, a.n, a.end, b.n, seen, seen');
    leg := Leg(a.n + b.n, b.end);
    assert RunIs(m, s, leg.n, leg.end);
    assert Frame(s.mem, a.end.mem, nest) && Frame(a.end.mem, b.end.mem, nest);
  }

  lemma Widen(m: Machine, s: State, leg: Leg, pc: int, nest: nat, seen: iset<int>, nest': nat, seen': iset<int>)
    requires IsLeg(m, s, leg, pc, nest, seen) && nest <= nest' && seen <= seen'
    ensures IsLeg(m, s, leg, pc, nest', seen')
  {
    assert Frame(s.mem, leg.end.mem, nest);
    assert Path(m, s, leg.n, seen);
  }

  // ---------- single instructions ----------

  lemma OneStep(m: Machine, s: State) returns (leg: Leg)
    requires |s.mem| == 16
    ensures leg == Leg(1, Step(m, s)) && RunIs(m, s, 1, leg.end) && Path(m, s, 1, Span(s.pc, 1))
  {
    leg := Leg(1, Step(m, s));
    assert Run(m, Step(m, s), 0) == Step(m, s);
    assert PcAt(m, s, 0) == s.pc;
  }

  /** The instruction at `at`. */
  predicate IsAt(prog: seq<Instr>, at: int, i: Instr)
  {
    0 <= at < |prog| && prog[at] == i
  }

  lemma BrLeg(m: Machine, s: State, t: int, nest: nat) returns (leg: Leg)
    requires |s.mem| == 16 && IsAt(m.prog, s.pc, Br(t))
    ensures IsLeg(m, s, leg, t, nest, Span(s.pc, 1))
  {
    leg := OneStep(m, s);
  }

  lemma BxLeg(m: Machine, s: State, t: int, cond: bool, nest: nat) returns (leg: Leg)
    requires |s.mem| == 16 && IsAt(m.prog, s.pc, Bx(t, cond))
    ensures IsLeg(m, s, leg, t, nest, Span(s.pc, 1)) || (cond && IsLeg(m, s, leg, s.pc + 1, nest, Span(s.pc, 1)))
  {
    leg := OneStep(m, s);
  }

  lemma {:induction false} OpsLeg(m: Machine, s: State, n: nat, nest: nat) returns (leg: Leg)
    requires |s.mem| == 16 && Placed(m.prog, s.pc, Ops(n))
    ensures IsLeg(m, s, leg, s.pc + n, nest, Span(s.pc, n))
    decreases n
  {
    if n == 0 {
      leg := Leg(0, s);
    } else {
      var code := m.prog[s.pc..s.pc + n];
      assert m.prog[s.pc] == code[0] == Op;
      assert m.prog[s.pc + 1..s.pc + n] == code[1..] == Ops(n - 1);
      var a := OneStep(m, s);
      var b := OpsLeg(m, a.end, n - 1, nest);
      leg := Join(m, s, a, s.pc + 1, Span(s.pc, 1), b, s.pc + n, Span(s.pc + 1, n - 1), nest);
      assert Span(s.pc, 1) + Span(s.pc + 1, n - 1) == Span(s.pc, n);
    }
  }

  /** The loop instruction of level `nest` counts, and goes back only while the count is within the
      limit. */
  lemma LoopLeg(m: Machine, s: State, nest: nat, inc: int, limit: int, t: int) returns (leg: Leg, again: bool)
    requires |s.mem| == 16 && 1 <= nest <= 8 && IsAt(m.prog, s.pc, LoopBr(LoopOffset(nest - 1), inc, limit, t))
    ensures IsLeg(m, s, leg, if again then t else s.pc + 1, nest, Span(s.pc, 1))
    ensures leg.end.mem[7 + nest] == s.mem[7 + nest] + inc && (again ==> !m.erased && leg.end.mem[7 + nest] <= limit)
  {
    leg := OneStep(m, s);
    assert LoopOffset(nest - 1) / 4 == 7 + nest;
    again := leg.end.mem[7 + nest] <= limit && !m.erased;
  }

  /** A call that is executed leaves the address after it in the link register, from where it is
      saved. */
  lemma CallLeg(m: Machine, s: State, nest: nat, t: int, cond: bool) returns (leg: Leg, called: bool)
    requires |s.mem| == 16 && 1 <= nest <= 8
    requires IsAt(m.prog, s.pc, Call(t, cond)) && IsAt(m.prog, t, Save(SaveSp(nest - 1))) && s.pc != t
    ensures called ==> IsLeg(m, s, leg, t + 1, nest, Span(s.pc, 1) + Span(t, 1)) && leg.end.mem[nest - 1] == s.pc + 1
    ensures !called ==> IsLeg(m, s, leg, s.pc + 1, nest, Span(s.pc, 1))
  {
    leg := OneStep(m, s);
    called := !cond || m.chance(s.time).taken;
    if called {
      assert (SaveSp(nest - 1) - 4) / 4 == nest - 1;
      var save := OneStep(m, leg.end);
      assert IsLeg(m, leg.end, save, t + 1, nest, Span(t, 1));
      leg := Join(m, s, leg, t, Span(s.pc, 1), save, t + 1, Span(t, 1), nest);
    }
  }

  lemma RetLeg(m: Machine, s: State, nest: nat) returns (leg: Leg)
    requires |s.mem| == 16 && 1 <= nest <= 8 && IsAt(m.prog, s.pc, Ret(RetSp(nest - 1)))
    ensures IsLeg(m, s, leg, s.mem[nest - 1], nest, Span(s.pc, 1))
  {
    assert RetSp(nest - 1) / 4 == nest - 1;
    leg := OneStep(m, s);
  }

  // ---------- code in its place ----------

  lemma Split(prog: seq<Instr>, at: int, x: seq<Instr>, y: seq<Instr>)
    requires Placed(prog, at, x + y)
    ensures Placed(prog, at, x) && Placed(prog, at + |x|, y)
  {
    var code := prog[at..at + |x + y|];
    assert prog[at..at + |x|] == code[..|x|] == x;
    assert prog[at + |x|..at + |x| + |y|] == code[|x|..] == y;
  }

  lemma One(prog: seq<Instr>, at: int, i: Instr)
    requires Placed(prog, at, [i])
    ensures IsAt(prog, at, i)
  {
    assert prog[at..at + 1][0] == i;
  }

  lemma Two(prog: seq<Instr>, at: int, i: Instr, j: Instr)
    requires Placed(prog, at, [i, j])
    ensures IsAt(prog, at, i) && IsAt(prog, at + 1, j)
  {
    assert prog[at..at + 2][0] == i && prog[at..at + 2][1] == j;
  }

  lemma SplitCat(prog: seq<Instr>, at: int, a: seq<Instr>, b: seq<Instr>, c: seq<Instr>, d: seq<Instr>)
    requires Placed(prog, at, Cat(a, b, c, d))
    ensures Placed(prog, at, a) && Placed(prog, at + |a|, b)
    ensures Placed(prog, at + |a| + |b|, c) && Placed(prog, at + |a| + |b| + |c|, d)
  {
    Split(prog, at, a + b + c, d);
    Split(prog, at, a + b, c);
    Split(prog, at, a, b);
  }

  predicate HasCode(prog: seq<Instr>, b: Block, at: int, nest: nat)
  {
    Placed(prog, at, Emit(b, at, nest))
  }

  /** A block of level `nest` is at address `at`.  The quantifier, here and in `IsCode`, keeps `Emit` from
      being unfolded wherever this is known; `assert HasCode(...)` or `assert EmitIs(...)` brings it back. */
  ghost predicate InPlace(prog: seq<Instr>, b: Block, at: int, nest: nat)
  {
    Fits(b, nest) && nest <= 8 && forall a :: a == at ==> HasCode(prog, b, a, nest)
  }

  predicate EmitIs(b: Block, at: int, nest: nat, code: seq<Instr>)
  {
    Emit(b, at, nest) == code
  }

  /** `code` is the code of a block of level `nest` for address `at`. */
  ghost predicate IsCode(code: seq<Instr>, b: Block, at: int, nest: nat)
  {
    |code| == Size(b) && Fits(b, nest) && nest <= 8 && forall a :: a == at ==> EmitIs(b, a, nest, code)
  }

  lemma CodeOf(b: Block, at: int, nest: nat) returns (code: seq<Instr>)
    requires Fits(b, nest) && nest <= 8
    ensures code == Emit(b, at, nest) && IsCode(code, b, at, nest)
  {
    code := Emit(b, at, nest);
    assert EmitIs(b, at, nest, code);
  }

  lemma SomeCode(b: Block, at: int, nest: nat) returns (code: seq<Instr>)
    requires Fits(b, nest) && nest <= 8
    ensures IsCode(code, b, at, nest)
  {
    code := CodeOf(b, at, nest);
  }

  /** A block in place has its code there. */
  lemma PlacedAs(prog: seq<Instr>, b: Block, at: int, nest: nat, code: seq<Instr>)
    requires InPlace(prog, b, at, nest) && IsCode(code, b, at, nest)
    ensures Placed(prog, at, code)
  {
    assert HasCode(prog, b, at, nest) && EmitIs(b, at, nest, code);
  }

  lemma PutInPlace(prog: seq<Instr>, b: Block, at: int, nest: nat, code: seq<Instr>)
    requires IsCode(code, b, at, nest) && Placed(prog, at, code)
    ensures InPlace(prog, b, at, nest)
  {
    assert EmitIs(b, at, nest, code);
    assert HasCode(prog, b, at, nest);
  }

  // ---------- going on ----------

  lemma Begin(m: Machine, s: State, nest: nat) returns (leg: Leg)
    requires |s.mem| == 16
    ensures IsLeg(m, s, leg, s.pc, nest, iset{}) && leg.end == s
  {
    leg := Leg(0, s);
    assert RunIs(m, s, 0, s);
  }

  /** An inner block is run through, and the words of this level stay. */
  lemma Start(m: Machine, s: State, b: Block, nest: nat) returns (leg: Leg)
    requires 1 <= nest <= 8 && |s.mem| == 16 && InPlace(m.prog, b, s.pc, nest - 1)
    ensures IsLeg(m, s, leg, s.pc + Size(b), nest, Span(s.pc, Size(b)))
    ensures leg.end.mem[nest - 1] == s.mem[nest - 1] && leg.end.mem[7 + nest] == s.mem[7 + nest]
    decreases nest, 0
  {
    leg := RunBlock(m, b, s.pc, nest - 1, s);
    assert Frame(s.mem, leg.end.mem, nest - 1);
    Widen(m, s, leg, s.pc + Size(b), nest - 1, Span(s.pc, Size(b)), nest, Span(s.pc, Size(b)));
  }

  /** A leg that has come to an inner block goes through it. */
  lemma Enter(m: Machine, s: State, leg: Leg, p: int, seen: iset<int>, b: Block, nest: nat) returns (next: Leg)
    requires 1 <= nest <= 8 && IsLeg(m, s, leg, p, nest, seen) && InPlace(m.prog, b, p, nest - 1)
    requires m.erased ==> seen !! Span(p, Size(b))
    ensures IsLeg(m, s, next, p + Size(b), nest, seen + Span(p, Size(b)))
    ensures next.end.mem[nest - 1] == leg.end.mem[nest - 1] && next.end.mem[7 + nest] == leg.end.mem[7 + nest]
    decreases nest, 1
  {
    var run := Start(m, leg.end, b, nest);
    next := Join(m, s, leg, p, seen, run, p + Size(b), Span(p, Size(b)), nest);
  }

  lemma Jump(m: Machine, s: State, leg: Leg, p: int, seen: iset<int>, t: int, nest: nat) returns (next: Leg)
    requires IsLeg(m, s, leg, p, nest, seen) && IsAt(m.prog, p, Br(t)) && (m.erased ==> p !in seen)
    ensures IsLeg(m, s, next, t, nest, seen + Span(p, 1))
  {
    var jump := BrLeg(m, leg.end, t, nest);
    next := Join(m, s, leg, p, seen, jump, t, Span(p, 1), nest);
  }

  lemma MayJump(m: Machine, s: State, leg: Leg, p: int, seen: iset<int>, t: int, cond: bool, nest: nat)
    returns (next: Leg, jumped: bool)
    requires IsLeg(m, s, leg, p, nest, seen) && IsAt(m.prog, p, Bx(t, cond)) && (m.erased ==> p !in seen)
    ensures IsLeg(m, s, next, if jumped then t else p + 1, nest, seen + Span(p, 1)) && (!cond ==> jumped)
  {
    var jump := BxLeg(m, leg.end, t, cond, nest);
    jumped := IsLeg(m, leg.end, jump, t, nest, Span(p, 1));
    next := Join(m, s, leg, p, seen, jump, if jumped then t else p + 1, Span(p, 1), nest);
  }

  /** A block, then a branch that may skip the block after it. */
  lemma Skip(m: Machine, s: State, x: Block, y: Block, at: int, nest: nat) returns (leg: Leg)
    requires 1 <= nest <= 8 && |s.mem| == 16 && s.pc == at
    requires InPlace(m.prog, x, at, nest - 1) && InPlace(m.prog, y, at + Size(x) + 1, nest - 1)
    requires IsAt(m.prog, at + Size(x), Bx(at + Size(x) + 1 + Size(y), true))
    ensures IsLeg(m, s, leg, at + Size(x) + 1 + Size(y), nest, Span(at, Size(x) + 1 + Size(y)))
    decreases nest, 2
  {
    var n1, n2 := Size(x), Size(y);
    leg := Start(m, s, x, nest);
    var jumped, seen;
    leg, jumped := MayJump(m, s, leg, at + n1, Span(at, n1), at + n1 + 1 + n2, true, nest);
    seen := Span(at, n1) + Span(at + n1, 1);
    if !jumped {
      leg := Enter(m, s, leg, at + n1 + 1, seen, y, nest);
      seen := seen + Span(at + n1 + 1, n2);
    }
    Widen(m, s, leg, at + n1 + 1 + n2, nest, seen, nest, Span(at, n1 + 1 + n2));
  }

  // ---------- by-passes and hammocks ----------

  lemma ByPassEmits(b: Block, at: int, nest: nat, x: seq<Instr>, y: seq<Instr>, z: seq<Instr>)
    requires b.ByPass? && Fits(b, nest) && nest <= 8
    requires IsCode(x, b.b1, at, nest - 1) && IsCode(y, b.b2, at + Size(b.b1) + 1, nest - 1)
    requires IsCode(z, b.b3, at + Size(b.b1) + 1 + Size(b.b2), nest - 1)
    ensures IsCode(Cat(x, [CondBr(at + Size(b.b1) + 1 + Size(b.b2))], y, z), b, at, nest)
  {
    var a2 := at + Size(b.b1) + 1;
    assert EmitIs(b.b1, at, nest - 1, x) && EmitIs(b.b2, a2, nest - 1, y) && EmitIs(b.b3, a2 + Size(b.b2), nest - 1, z);
  }

  lemma ByPassCode(prog: seq<Instr>, b: Block, at: int, nest: nat) returns (x: seq<Instr>, y: seq<Instr>, z: seq<Instr>)
    requires b.ByPass? && InPlace(prog, b, at, nest)
    ensures var a2 := at + Size(b.b1) + 1; var a3 := a2 + Size(b.b2);
      && IsCode(x, b.b1, at, nest - 1) && IsCode(y, b.b2, a2, nest - 1) && IsCode(z, b.b3, a3, nest - 1)
      && Placed(prog, at, Cat(x, [CondBr(a3)], y, z))
  {
    x := SomeCode(b.b1, at, nest - 1);
    y := SomeCode(b.b2, at + Size(b.b1) + 1, nest - 1);
    z := SomeCode(b.b3, at + Size(b.b1) + 1 + Size(b.b2), nest - 1);
    ByPassEmits(b, at, nest, x, y, z);
    PlacedAs(prog, b, at, nest, Cat(x, [CondBr(at + Size(b.b1) + 1 + Size(b.b2))], y, z));
  }

  lemma ByPassParts(prog: seq<Instr>, b: Block, at: int, nest: nat)
    requires b.ByPass? && InPlace(prog, b, at, nest)
    ensures var a2 := at + Size(b.b1) + 1; var a3 := a2 + Size(b.b2);
      && InPlace(prog, b.b1, at, nest - 1) && IsAt(prog, at + Size(b.b1), Bx(a3, true))
      && InPlace(prog, b.b2, a2, nest - 1) && InPlace(prog, b.b3, a3, nest - 1)
  {
    var a2 := at + Size(b.b1) + 1;
    var a3 := a2 + Size(b.b2);
    var x, y, z := ByPassCode(prog, b, at, nest);
    SplitCat(prog, at, x, [CondBr(a3)], y, z);
    One(prog, at + |x|, CondBr(a3));
    PutInPlace(prog, b.b1, at, nest - 1, x);
    PutInPlace(prog, b.b2, a2, nest - 1, y);
    PutInPlace(prog, b.b3, a3, nest - 1, z);
  }

  lemma RunByPass(m: Machine, b: Block, at: int, nest: nat, s: State) returns (leg: Leg)
    requires b.ByPass? && InPlace(m.prog, b, at, nest) && |s.mem| == 16 && s.pc == at
    ensures IsLeg(m, s, leg, at + Size(b), nest, Span(at, Size(b)))
    decreases nest, 4
  {
    ByPassParts(m.prog, b, at, nest);
    leg := Skip(m, s, b.b1, b.b2, at, nest);
    var n := Size(b.b1) + 1 + Size(b.b2);
    leg := Enter(m, s, leg, at + n, Span(at, n), b.b3, nest);
    assert Span(at, n) + Span(at + n, Size(b.b3)) == Span(at, Size(b));
  }

  /** The code of a hammock, from the code of its parts. */
  lemma HammockEmits(b: Block, at: int, nest: nat, w: seq<Instr>, x: seq<Instr>, y: seq<Instr>, z: seq<Instr>)
    requires b.Hammock? && Fits(b, nest) && nest <= 8
    requires var a2 := at + Size(b.h1) + 1; var a3 := a2 + Size(b.h2) + 1; var a4 := a3 + Size(b.h3);
      && IsCode(w, b.h1, at, nest - 1) && IsCode(x, b.h2, a2, nest - 1)
      && IsCode(y, b.h3, a3, nest - 1) && IsCode(z, b.h4, a4, nest - 1)
    ensures var a3 := at + Size(b.h1) + 1 + Size(b.h2) + 1;
      IsCode(Cat(w, [CondBr(a3)], x, [Br(a3 + Size(b.h3))]) + y + z, b, at, nest)
  {
    var a2 := at + Size(b.h1) + 1;
    var a3 := a2 + Size(b.h2) + 1;
    assert EmitIs(b.h1, at, nest - 1, w) && EmitIs(b.h2, a2, nest - 1, x);
    assert EmitIs(b.h3, a3, nest - 1, y) && EmitIs(b.h4, a3 + Size(b.h3), nest - 1, z);
  }

  lemma HammockCode(prog: seq<Instr>, b: Block, at: int, nest: nat)
    returns (w: seq<Instr>, x: seq<Instr>, y: seq<Instr>, z: seq<Instr>)
    requires b.Hammock? && InPlace(prog, b, at, nest)
    ensures var a2 := at + Size(b.h1) + 1; var a3 := a2 + Size(b.h2) + 1; var a4 := a3 + Size(b.h3);
      && IsCode(w, b.h1, at, nest - 1) && IsCode(x, b.h2, a2, nest - 1)
      && IsCode(y, b.h3, a3, nest - 1) && IsCode(z, b.h4, a4, nest - 1)
      && Placed(prog, at, Cat(w, [CondBr(a3)], x, [Br(a4)]) + y + z)
  {
    var a2 := at + Size(b.h1) + 1;
    var a3 := a2 + Size(b.h2) + 1;
    var a4 := a3 + Size(b.h3);
    w := SomeCode(b.h1, at, nest - 1);
    x := SomeCode(b.h2, a2, nest - 1);
    y := SomeCode(b.h3, a3, nest - 1);
    z := SomeCode(b.h4, a4, nest - 1);
    HammockEmits(b, at, nest, w, x, y, z);
    PlacedAs(prog, b, at, nest, Cat(w, [CondBr(a3)], x, [Br(a4)]) + y + z);
  }

  lemma SplitSix(prog: seq<Instr>, at: int, w: seq<Instr>, i: Instr, x: seq<Instr>, j: Instr, y: seq<Instr>,
                 z: seq<Instr>)
    requires Placed(prog, at, Cat(w, [i], x, [j]) + y + z)
    ensures var p := at + |w| + 1 + |x|;
      && Placed(prog, at, w) && IsAt(prog, at + |w|, i) && Placed(prog, at + |w| + 1, x)
      && IsAt(prog, p, j) && Placed(prog, p + 1, y) && Placed(prog, p + 1 + |y|, z)
  {
    Split(prog, at, Cat(w, [i], x, [j]) + y, z);
    Split(prog, at, Cat(w, [i], x, [j]), y);
    SplitCat(prog, at, w, [i], x, [j]);
    One(prog, at + |w|, i);
    One(prog, at + |w| + 1 + |x|, j);
  }

  lemma HammockPieces(prog: seq<Instr>, b: Block, at: int, nest: nat)
    returns (w: seq<Instr>, x: seq<Instr>, y: seq<Instr>, z: seq<Instr>)
    requires b.Hammock? && InPlace(prog, b, at, nest)
    ensures var a2 := at + Size(b.h1) + 1; var a3 := a2 + Size(b.h2) + 1; var a4 := a3 + Size(b.h3);
      && IsCode(w, b.h1, at, nest - 1) && IsCode(x, b.h2, a2, nest - 1)
      && IsCode(y, b.h3, a3, nest - 1) && IsCode(z, b.h4, a4, nest - 1)
      && Placed(prog, at, w) && IsAt(prog, at + |w|, Bx(a3, true)) && Placed(prog, a2, x)
      && IsAt(prog, a2 + |x|, Br(a4)) && Placed(prog, a3, y) && Placed(prog, a4, z)
  {
    var a3 := at + Size(b.h1) + 1 + Size(b.h2) + 1;
    w, x, y, z := HammockCode(prog, b, at, nest);
    SplitSix(prog, at, w, CondBr(a3), x, Br(a3 + Size(b.h3)), y, z);
  }

  lemma HammockParts(prog: seq<Instr>, b: Block, at: int, nest: nat)
    requires b.Hammock? && InPlace(prog, b, at, nest)
    ensures var a2 := at + Size(b.h1) + 1; var a3 := a2 + Size(b.h2) + 1; var a4 := a3 + Size(b.h3);
      && InPlace(prog, b.h1, at, nest - 1) && IsAt(prog, at + Size(b.h1), Bx(a3, true))
      && InPlace(prog, b.h2, a2, nest - 1) && IsAt(prog, a2 + Size(b.h2), Br(a4))
      && InPlace(prog, b.h3, a3, nest - 1) && InPlace(prog, b.h4, a4, nest - 1)
  {
    var a2 := at + Size(b.h1) + 1;
    var a3 := a2 + Size(b.h2) + 1;
    var a4 := a3 + Size(b.h3);
    var w, x, y, z := HammockPieces(prog, b, at, nest);
    PutInPlace(prog, b.h1, at, nest - 1, w);
    PutInPlace(prog, b.h2, a2, nest - 1, x);
    PutInPlace(prog, b.h3, a3, nest - 1, y);
    PutInPlace(prog, b.h4, a4, nest - 1, z);
  }

  lemma RunHammock(m: Machine, b: Block, at: int, nest: nat, s: State) returns (leg: Leg)
    requires b.Hammock? && InPlace(m.prog, b, at, nest) && |s.mem| == 16 && s.pc == at
    ensures IsLeg(m, s, leg, at + Size(b), nest, Span(at, Size(b)))
    decreases nest, 4
  {
    HammockParts(m.prog, b, at, nest);
    var n1, n2, n3 := Size(b.h1), Size(b.h2), Size(b.h3);
    var a2 := at + n1 + 1;
    var a3 := a2 + n2 + 1;
    var a4 := a3 + n3;
    leg := Start(m, s, b.h1, nest);
    var jumped;
    leg, jumped := MayJump(m, s, leg, at + n1, Span(at, n1), a3, true, nest);
    var seen := Span(at, n1) + Span(at + n1, 1);
    if jumped {
      leg := Enter(m, s, leg, a3, seen, b.h3, nest);
      seen := seen + Span(a3, n3);
    } else {
      leg := Enter(m, s, leg, a2, seen, b.h2, nest);
      leg := Jump(m, s, leg, a2 + n2, seen + Span(a2, n2), a4, nest);
      seen := seen + Span(a2, n2) + Span(a2 + n2, 1);
    }
    leg := Enter(m, s, leg, a4, seen, b.h4, nest);
    Widen(m, s, leg, at + Size(b), nest, seen + Span(a4, Size(b.h4)), nest, Span(at, Size(b)));
  }

  // ---------- loops ----------

  /** How often a loop may still go back: less each time, for the count goes up. */
  function Left(s: State, nest: nat, limit: int): nat
    requires |s.mem| == 16 && 1 <= nest <= 8
  {
    if s.mem[7 + nest] <= limit then limit - s.mem[7 + nest] + 1 else 0
  }

  lemma LoopParts(prog: seq<Instr>, b: Block, at: int, nest: nat)
    requires b.Loop? && InPlace(prog, b, at, nest)
    ensures InPlace(prog, b.l1, at, nest - 1)
    ensures IsAt(prog, at + Size(b.l1), LoopBr(LoopOffset(nest - 1), b.inc, b.limit, at))
  {
    assert HasCode(prog, b, at, nest);
    var x := CodeOf(b.l1, at, nest - 1);
    var i := LoopBr(LoopOffset(nest - 1), b.inc, b.limit, at);
    Split(prog, at, x, [i]);
    One(prog, at + |x|, i);
    PutInPlace(prog, b.l1, at, nest - 1, x);
  }

  lemma RunLoop(m: Machine, b: Block, at: int, nest: nat, s: State) returns (leg: Leg)
    requires b.Loop? && InPlace(m.prog, b, at, nest) && |s.mem| == 16 && s.pc == at
    ensures IsLeg(m, s, leg, at + Size(b), nest, Span(at, Size(b)))
    decreases nest, 4, Left(s, nest, b.limit)
  {
    LoopParts(m.prog, b, at, nest);
    leg := Start(m, s, b.l1, nest);
    var n := Size(b.l1);
    var count, again := LoopLeg(m, leg.end, nest, b.inc, b.limit, at);
    leg := Join(m, s, leg, at + n, Span(at, n), count, if again then at else at + Size(b), Span(at + n, 1), nest);
    assert Span(at, n) + Span(at + n, 1) == Span(at, Size(b));
    if again {
      var more := RunLoop(m, b, at, nest, leg.end);
      leg := Join(m, s, leg, at, Span(at, Size(b)), more, at + Size(b), Span(at, Size(b)), nest);
      assert Span(at, Size(b)) + Span(at, Size(b)) == Span(at, Size(b));
    }
  }

  lemma IrLoopEmits(b: Block, at: int, nest: nat, x: seq<Instr>, y: seq<Instr>, z: seq<Instr>)
    requires b.IrLoop? && Fits(b, nest) && nest <= 8
    requires IsCode(x, b.ir1, at, nest - 1) && IsCode(y, b.ir2, at + Size(b.ir1) + 1, nest - 1)
    requires IsCode(z, b.ir3, at + Size(b.ir1) + 1 + Size(b.ir2), nest - 1)
    ensures var a2 := at + Size(b.ir1) + 1;
      IsCode(Cat(x, [CondBr(a2 + Size(b.ir2))], y, z) + [LoopBr(LoopOffset(nest - 1), b.inc, b.limit, a2)], b, at, nest)
  {
    var a2 := at + Size(b.ir1) + 1;
    assert EmitIs(b.ir1, at, nest - 1, x) && EmitIs(b.ir2, a2, nest - 1, y);
    assert EmitIs(b.ir3, a2 + Size(b.ir2), nest - 1, z);
  }

  lemma IrLoopCode(prog: seq<Instr>, b: Block, at: int, nest: nat) returns (x: seq<Instr>, y: seq<Instr>, z: seq<Instr>)
    requires b.IrLoop? && InPlace(prog, b, at, nest)
    ensures var a2 := at + Size(b.ir1) + 1; var a3 := a2 + Size(b.ir2);
      && IsCode(x, b.ir1, at, nest - 1) && IsCode(y, b.ir2, a2, nest - 1) && IsCode(z, b.ir3, a3, nest - 1)
      && Placed(prog, at, Cat(x, [CondBr(a3)], y, z) + [LoopBr(LoopOffset(nest - 1), b.inc, b.limit, a2)])
  {
    var a2 := at + Size(b.ir1) + 1;
    var a3 := a2 + Size(b.ir2);
    x := SomeCode(b.ir1, at, nest - 1);
    y := SomeCode(b.ir2, a2, nest - 1);
    z := SomeCode(b.ir3, a3, nest - 1);
    IrLoopEmits(b, at, nest, x, y, z);
    PlacedAs(prog, b, at, nest, Cat(x, [CondBr(a3)], y, z) + [LoopBr(LoopOffset(nest - 1), b.inc, b.limit, a2)]);
  }

  lemma IrLoopParts(prog: seq<Instr>, b: Block, at: int, nest: nat)
    requires b.IrLoop? && InPlace(prog, b, at, nest)
    ensures var a2 := at + Size(b.ir1) + 1; var a3 := a2 + Size(b.ir2);
      && InPlace(prog, b.ir1, at, nest - 1) && IsAt(prog, at + Size(b.ir1), Bx(a3, true))
      && InPlace(prog, b.ir2, a2, nest - 1) && InPlace(prog, b.ir3, a3, nest - 1)
      && IsAt(prog, a3 + Size(b.ir3), LoopBr(LoopOffset(nest - 1), b.inc, b.limit, a2))
  {
    var a2 := at + Size(b.ir1) + 1;
    var a3 := a2 + Size(b.ir2);
    var x, y, z := IrLoopCode(prog, b, at, nest);
    var i := LoopBr(LoopOffset(nest - 1), b.inc, b.limit, a2);
    Split(prog, at, Cat(x, [CondBr(a3)], y, z), [i]);
    SplitCat(prog, at, x, [CondBr(a3)], y, z);
    One(prog, at + |x|, CondBr(a3));
    One(prog, a3 + |z|, i);
    PutInPlace(prog, b.ir1, at, nest - 1, x);
    PutInPlace(prog, b.ir2, a2, nest - 1, y);
    PutInPlace(prog, b.ir3, a3, nest - 1, z);
  }

  /** The third part of an irreducible loop, and as many turns as there are to come. */
  lemma RunTurns(m: Machine, b: Block, at: int, nest: nat, s: State) returns (leg: Leg)
    requires b.IrLoop? && InPlace(m.prog, b, at, nest) && |s.mem| == 16 && s.pc == at + Size(b.ir1) + 1 + Size(b.ir2)
    ensures IsLeg(m, s, leg, at + Size(b), nest, if m.erased then Span(s.pc, Size(b.ir3) + 1) else Span(at, Size(b)))
    decreases nest, 4, Left(s, nest, b.limit)
  {
    IrLoopParts(m.prog, b, at, nest);
    var a2, n3 := at + Size(b.ir1) + 1, Size(b.ir3);
    var a3 := a2 + Size(b.ir2);
    leg := Start(m, s, b.ir3, nest);
    var count, again := LoopLeg(m, leg.end, nest, b.inc, b.limit, a2);
    leg := Join(m, s, leg, a3 + n3, Span(a3, n3), count, if again then a2 else at + Size(b), Span(a3 + n3, 1), nest);
    var seen := Span(a3, n3) + Span(a3 + n3, 1);
    if again {
      leg := Enter(m, s, leg, a2, seen, b.ir2, nest);
      seen := seen + Span(a2, Size(b.ir2));
      var more := RunTurns(m, b, at, nest, leg.end);
      leg := Join(m, s, leg, a3, seen, more, at + Size(b), Span(at, Size(b)), nest);
      seen := seen + Span(at, Size(b));
    }
    Widen(m, s, leg, at + Size(b), nest, seen, nest, if m.erased then Span(a3, n3 + 1) else Span(at, Size(b)));
  }

  lemma RunIrLoop(m: Machine, b: Block, at: int, nest: nat, s: State) returns (leg: Leg)
    requires b.IrLoop? && InPlace(m.prog, b, at, nest) && |s.mem| == 16 && s.pc == at
    ensures IsLeg(m, s, leg, at + Size(b), nest, Span(at, Size(b)))
    decreases nest, 5
  {
    IrLoopParts(m.prog, b, at, nest);
    var n := Size(b.ir1) + 1 + Size(b.ir2);
    leg := Skip(m, s, b.ir1, b.ir2, at, nest);
    var turns := RunTurns(m, b, at, nest, leg.end);
    var rest := if m.erased then Span(at + n, Size(b.ir3) + 1) else Span(at, Size(b));
    leg := Join(m, s, leg, at + n, Span(at, n), turns, at + Size(b), rest, nest);
    assert Span(at, n) + rest == Span(at, Size(b));
  }

  // ---------- interworking ----------

  lemma InterworkCodes(prog: seq<Instr>, b: Block, at: int, nest: nat)
    returns (x: seq<Instr>, y: seq<Instr>, z: seq<Instr>)
    requires b.Interwork? && InPlace(prog, b, at, nest)
    ensures var l := InterworkLayout(at, b.followed, Size(b.iw1), Size(b.iw2));
      && IsCode(x, b.iw1, l.a1, nest - 1) && IsCode(y, b.iw2, l.a2, nest - 1) && IsCode(z, b.iw3, l.a3, nest - 1)
      && Placed(prog, at, InterworkCode(l, b.cond, b.followed, x, y, z))
  {
    assert HasCode(prog, b, at, nest);
    var l := InterworkLayout(at, b.followed, Size(b.iw1), Size(b.iw2));
    x := CodeOf(b.iw1, l.a1, nest - 1);
    y := CodeOf(b.iw2, l.a2, nest - 1);
    z := CodeOf(b.iw3, l.a3, nest - 1);
  }

  lemma InterworkPieces(prog: seq<Instr>, b: Block, at: int, nest: nat, l: Layout)
    returns (x: seq<Instr>, y: seq<Instr>, z: seq<Instr>)
    requires b.Interwork? && InPlace(prog, b, at, nest)
    requires l == InterworkLayout(at, b.followed, Size(b.iw1), Size(b.iw2))
    ensures IsCode(x, b.iw1, l.a1, nest - 1) && IsCode(y, b.iw2, l.a2, nest - 1) && IsCode(z, b.iw3, l.a3, nest - 1)
    ensures Placed(prog, l.a1, x) && Placed(prog, l.a2, y) && Placed(prog, l.a3, z)
    ensures IsAt(prog, at, Bx(l.a2, b.cond)) && IsAt(prog, if b.followed then at + 1 else l.a1 + |x|, Br(l.a3))
    ensures IsAt(prog, l.a2 + |y|, Bx(l.a1, b.cond)) && IsAt(prog, l.a2 + |y| + 1, Br(l.a3))
  {
    x, y, z := InterworkCodes(prog, b, at, nest);
    InterworkSplit(prog, at, l, b.cond, b.followed, x, y, z);
  }

  lemma InterworkParts(prog: seq<Instr>, b: Block, at: int, nest: nat)
    requires b.Interwork? && InPlace(prog, b, at, nest)
    ensures var l := InterworkLayout(at, b.followed, Size(b.iw1), Size(b.iw2));
      && InPlace(prog, b.iw1, l.a1, nest - 1) && InPlace(prog, b.iw2, l.a2, nest - 1)
      && InPlace(prog, b.iw3, l.a3, nest - 1)
      && IsAt(prog, at, Bx(l.a2, b.cond)) && IsAt(prog, if b.followed then at + 1 else l.a1 + Size(b.iw1), Br(l.a3))
      && IsAt(prog, l.a2 + Size(b.iw2), Bx(l.a1, b.cond)) && IsAt(prog, l.a2 + Size(b.iw2) + 1, Br(l.a3))
  {
    var l := InterworkLayout(at, b.followed, Size(b.iw1), Size(b.iw2));
    var x, y, z := InterworkPieces(prog, b, at, nest, l);
    PutInPlace(prog, b.iw1, l.a1, nest - 1, x);
    PutInPlace(prog, b.iw2, l.a2, nest - 1, y);
    PutInPlace(prog, b.iw3, l.a3, nest - 1, z);
  }

  lemma InterworkSplit(prog: seq<Instr>, at: int, l: Layout, cond: bool, followed: bool, x: seq<Instr>, y: seq<Instr>,
                       z: seq<Instr>)
    requires l == InterworkLayout(at, followed, |x|, |y|)
    requires Placed(prog, at, InterworkCode(l, cond, followed, x, y, z))
    ensures Placed(prog, l.a1, x) && Placed(prog, l.a2, y) && Placed(prog, l.a3, z)
    ensures IsAt(prog, at, Bx(l.a2, cond)) && IsAt(prog, if followed then at + 1 else l.a1 + |x|, Br(l.a3))
    ensures IsAt(prog, l.a2 + |y|, Bx(l.a1, cond)) && IsAt(prog, l.a2 + |y| + 1, Br(l.a3))
  {
    if followed { FollowedParts(prog, at, l, cond, x, y, z); } else { StraightParts(prog, at, l, cond, x, y, z); }
  }

  lemma FollowedParts(prog: seq<Instr>, at: int, l: Layout, cond: bool, x: seq<Instr>, y: seq<Instr>, z: seq<Instr>)
    requires l == InterworkLayout(at, true, |x|, |y|) && Placed(prog, at, InterworkCode(l, cond, true, x, y, z))
    ensures IsAt(prog, at, Bx(l.a2, cond)) && IsAt(prog, at + 1, Br(l.a3)) && Placed(prog, l.a2, y)
    ensures IsAt(prog, l.a2 + |y|, Bx(l.a1, cond)) && IsAt(prog, l.a2 + |y| + 1, Br(l.a3)) && Placed(prog, l.a1, x)
    ensures Placed(prog, l.a3, z)
  {
    var i, j := [Bx(l.a2, cond), Br(l.a3)], [Bx(l.a1, cond), Br(l.a3)];
    Split(prog, at, i + y + j + x, z);
    SplitCat(prog, at, i, y, j, x);
    Two(prog, at, Bx(l.a2, cond), Br(l.a3));
    Two(prog, l.a2 + |y|, Bx(l.a1, cond), Br(l.a3));
  }

  lemma StraightParts(prog: seq<Instr>, at: int, l: Layout, cond: bool, x: seq<Instr>, y: seq<Instr>, z: seq<Instr>)
    requires l == InterworkLayout(at, false, |x|, |y|) && Placed(prog, at, InterworkCode(l, cond, false, x, y, z))
    ensures IsAt(prog, at, Bx(l.a2, cond)) && Placed(prog, l.a1, x) && IsAt(prog, l.a1 + |x|, Br(l.a3))
    ensures Placed(prog, l.a2, y)
    ensures IsAt(prog, l.a2 + |y|, Bx(l.a1, cond)) && IsAt(prog, l.a2 + |y| + 1, Br(l.a3)) && Placed(prog, l.a3, z)
  {
    var i, j, k := [Bx(l.a2, cond)], [Br(l.a3)], [Bx(l.a1, cond), Br(l.a3)];
    Split(prog, at, i + x + j + y + k, z);
    Split(prog, at, i + x + j + y, k);
    SplitCat(prog, at, i, x, j, y);
    One(prog, at, Bx(l.a2, cond));
    One(prog, l.a1 + |x|, Br(l.a3));
    Two(prog, l.a2 + |y|, Bx(l.a1, cond), Br(l.a3));
  }

  /** The first part of an interworking block, up to the third, is `n` instructions long. */
  lemma RunFirst(m: Machine, s: State, b: Block, l: Layout, n: nat, nest: nat, leg: Leg, seen: iset<int>)
    returns (next: Leg)
    requires 1 <= nest <= 8 && b.Interwork? && InPlace(m.prog, b.iw1, l.a1, nest - 1)
    requires n == if b.followed then Size(b.iw1) else Size(b.iw1) + 1
    requires if b.followed then l.a3 == l.a1 + n else IsAt(m.prog, l.a1 + Size(b.iw1), Br(l.a3))
    requires IsLeg(m, s, leg, l.a1, nest, seen) && (m.erased ==> seen !! Span(l.a1, n))
    ensures IsLeg(m, s, next, l.a3, nest, seen + Span(l.a1, n))
    decreases nest, 2
  {
    var n1 := Size(b.iw1);
    next := Enter(m, s, leg, l.a1, seen, b.iw1, nest);
    if !b.followed {
      next := Jump(m, s, next, l.a1 + n1, seen + Span(l.a1, n1), l.a3, nest);
      assert seen + Span(l.a1, n1) + Span(l.a1 + n1, 1) == seen + Span(l.a1, n);
    }
  }

  /** The second part, and the first if it goes back there. */
  lemma RunSecond(m: Machine, s: State, b: Block, at: int, nest: nat, leg: Leg) returns (next: Leg)
    requires b.Interwork? && InPlace(m.prog, b, at, nest)
    requires IsLeg(m, s, leg, InterworkLayout(at, b.followed, Size(b.iw1), Size(b.iw2)).a2, nest, Span(at, 1))
    ensures var l := InterworkLayout(at, b.followed, Size(b.iw1), Size(b.iw2));
      IsLeg(m, s, next, l.a3, nest, Span(at, l.a3 - at))
    decreases nest, 4
  {
    InterworkParts(m.prog, b, at, nest);
    var n1, n2 := Size(b.iw1), Size(b.iw2);
    var l, n := InterworkLayout(at, b.followed, n1, n2), if b.followed then n1 else n1 + 1;
    var seen, back := Span(at, 1) + Span(l.a2, n2), true;
    next := Enter(m, s, leg, l.a2, Span(at, 1), b.iw2, nest);
    next, back := MayJump(m, s, next, l.a2 + n2, seen, l.a1, b.cond, nest);
    seen := seen + Span(l.a2 + n2, 1);
    if back {
      next := RunFirst(m, s, b, l, n, nest, next, seen);
      seen := seen + Span(l.a1, n);
    } else {
      next := Jump(m, s, next, l.a2 + n2 + 1, seen, l.a3, nest);
      seen := seen + Span(l.a2 + n2 + 1, 1);
    }
    Widen(m, s, next, l.a3, nest, seen, nest, Span(at, l.a3 - at));
  }

  lemma RunInterwork(m: Machine, b: Block, at: int, nest: nat, s: State) returns (leg: Leg)
    requires b.Interwork? && InPlace(m.prog, b, at, nest) && |s.mem| == 16 && s.pc == at
    ensures IsLeg(m, s, leg, at + Size(b), nest, Span(at, Size(b)))
    decreases nest, 5
  {
    InterworkParts(m.prog, b, at, nest);
    var n1, n2, n3 := Size(b.iw1), Size(b.iw2), Size(b.iw3);
    var l, n := InterworkLayout(at, b.followed, n1, n2), 4 + n1 + n2;
    leg := Begin(m, s, nest);
    var jumped;
    leg, jumped := MayJump(m, s, leg, at, iset{}, l.a2, b.cond, nest);
    assert iset{} + Span(at, 1) == Span(at, 1);
    if jumped {
      leg := RunSecond(m, s, b, at, nest, leg);
    } else if b.followed {
      leg := Jump(m, s, leg, at + 1, Span(at, 1), l.a3, nest);
      Widen(m, s, leg, l.a3, nest, Span(at, 1) + Span(at + 1, 1), nest, Span(at, n));
    } else {
      leg := RunFirst(m, s, b, l, n1 + 1, nest, leg, Span(at, 1));
      Widen(m, s, leg, l.a3, nest, Span(at, 1) + Span(l.a1, n1 + 1), nest, Span(at, n));
    }
    leg := Enter(m, s, leg, l.a3, Span(at, n), b.iw3, nest);
    assert Span(at, n) + Span(at + n, n3) == Span(at, Size(b));
  }

  // ---------- calls ----------

  /** The called block is in place between the instructions that save and restore the return address. */
  ghost predicate CalleeAt(prog: seq<Instr>, y: Block, a2: int, nest: nat)
  {
    && 1 <= nest <= 8 && IsAt(prog, a2, Save(SaveSp(nest - 1))) && InPlace(prog, y, a2 + 1, nest - 1)
    && IsAt(prog, a2 + 1 + Size(y), Ret(RetSp(nest - 1)))
  }

  /** A call, if it is executed at all, comes back to the address after it: the word in which the return
      address is saved is touched by nothing that the called block contains. */
  lemma Through(m: Machine, s: State, leg: Leg, p: int, seen: iset<int>, y: Block, a2: int, cond: bool, nest: nat)
    returns (next: Leg)
    requires IsLeg(m, s, leg, p, nest, seen) && IsAt(m.prog, p, Call(a2, cond)) && CalleeAt(m.prog, y, a2, nest)
    requires p !in Span(a2, Size(y) + 2) && (m.erased ==> p !in seen && seen !! Span(a2, Size(y) + 2))
    ensures IsLeg(m, s, next, p + 1, nest, seen + Span(p, 1) + Span(a2, Size(y) + 2))
    decreases nest, 2
  {
    var n := Size(y);
    var call, called := CallLeg(m, leg.end, nest, a2, cond);
    if called {
      var seen' := seen + (Span(p, 1) + Span(a2, 1));
      next := Join(m, s, leg, p, seen, call, a2 + 1, Span(p, 1) + Span(a2, 1), nest);
      next := Enter(m, s, next, a2 + 1, seen', y, nest);
      seen' := seen' + Span(a2 + 1, n);
      var back := RetLeg(m, next.end, nest);
      next := Join(m, s, next, a2 + 1 + n, seen', back, p + 1, Span(a2 + 1 + n, 1), nest);
      assert seen' + Span(a2 + 1 + n, 1) == seen + Span(p, 1) + Span(a2, n + 2);
    } else {
      next := Join(m, s, leg, p, seen, call, p + 1, Span(p, 1), nest);
      Widen(m, s, next, p + 1, nest, seen + Span(p, 1), nest, seen + Span(p, 1) + Span(a2, n + 2));
    }
  }

  lemma CallRetCodes(prog: seq<Instr>, b: Block, at: int, nest: nat)
    returns (x: seq<Instr>, y: seq<Instr>, z: seq<Instr>)
    requires b.CallRet? && InPlace(prog, b, at, nest)
    ensures var l := CallRetLayout(at, b.followed, b.begin, Size(b.c1), Size(b.c2));
      && IsCode(x, b.c1, l.a1, nest - 1) && IsCode(y, b.c2, l.a2 + 1, nest - 1) && IsCode(z, b.c3, l.a3, nest - 1)
      && Placed(prog, at, CallRetCode(l, b.cond, b.followed, b.begin, x, Callee(nest - 1, y), z))
  {
    assert HasCode(prog, b, at, nest);
    var l := CallRetLayout(at, b.followed, b.begin, Size(b.c1), Size(b.c2));
    x := CodeOf(b.c1, l.a1, nest - 1);
    y := CodeOf(b.c2, l.a2 + 1, nest - 1);
    z := CodeOf(b.c3, l.a3, nest - 1);
  }

  lemma CallRetPieces(prog: seq<Instr>, b: Block, at: int, nest: nat, l: Layout)
    returns (x: seq<Instr>, y: seq<Instr>, z: seq<Instr>)
    requires b.CallRet? && InPlace(prog, b, at, nest)
    requires l == CallRetLayout(at, b.followed, b.begin, Size(b.c1), Size(b.c2))
    ensures IsCode(x, b.c1, l.a1, nest - 1) && IsCode(y, b.c2, l.a2 + 1, nest - 1) && IsCode(z, b.c3, l.a3, nest - 1)
    ensures Placed(prog, l.a1, x) && Placed(prog, l.a2, Callee(nest - 1, y)) && Placed(prog, l.a3, z)
    ensures IsAt(prog, if b.begin then at else l.a1 + |x|, Call(l.a2, b.cond))
    ensures IsAt(prog, BranchAt(at, l, b.followed, b.begin, |x|), Br(if b.followed then l.a1 else l.a3))
  {
    x, y, z := CallRetCodes(prog, b, at, nest);
    CallRetSplit(prog, at, l, b.cond, b.followed, b.begin, x, Callee(nest - 1, y), z);
  }

  /** Where the branch around the called block is; `n1` is the size of the first part. */
  function BranchAt(at: int, l: Layout, followed: bool, begin: bool, n1: nat): int
  {
    if followed then (if begin then at + 1 else at) else if begin then l.a1 + n1 else l.a1 + n1 + 1
  }

  lemma CallRetParts(prog: seq<Instr>, b: Block, at: int, nest: nat)
    requires b.CallRet? && InPlace(prog, b, at, nest)
    ensures var n1 := Size(b.c1); var l := CallRetLayout(at, b.followed, b.begin, n1, Size(b.c2));
      && InPlace(prog, b.c1, l.a1, nest - 1) && CalleeAt(prog, b.c2, l.a2, nest) && InPlace(prog, b.c3, l.a3, nest - 1)
      && IsAt(prog, if b.begin then at else l.a1 + n1, Call(l.a2, b.cond))
      && IsAt(prog, BranchAt(at, l, b.followed, b.begin, n1), Br(if b.followed then l.a1 else l.a3))
  {
    var l := CallRetLayout(at, b.followed, b.begin, Size(b.c1), Size(b.c2));
    var x, y, z := CallRetPieces(prog, b, at, nest, l);
    CalleeInPlace(prog, b.c2, l.a2, nest, y);
    PutInPlace(prog, b.c1, l.a1, nest - 1, x);
    PutInPlace(prog, b.c3, l.a3, nest - 1, z);
  }

  lemma CalleeInPlace(prog: seq<Instr>, b: Block, at: int, nest: nat, y: seq<Instr>)
    requires 1 <= nest <= 8 && IsCode(y, b, at + 1, nest - 1) && Placed(prog, at, Callee(nest - 1, y))
    ensures CalleeAt(prog, b, at, nest)
  {
    CalleeSplit(prog, at, nest - 1, y);
    PutInPlace(prog, b, at + 1, nest - 1, y);
  }

  lemma CalleeSplit(prog: seq<Instr>, at: int, nest: int, y: seq<Instr>)
    requires Placed(prog, at, Callee(nest, y))
    ensures IsAt(prog, at, Save(SaveSp(nest))) && Placed(prog, at + 1, y) && IsAt(prog, at + 1 + |y|, Ret(RetSp(nest)))
  {
    Split(prog, at, [Save(SaveSp(nest))] + y, [Ret(RetSp(nest))]);
    Split(prog, at, [Save(SaveSp(nest))], y);
    One(prog, at, Save(SaveSp(nest)));
    One(prog, at + 1 + |y|, Ret(RetSp(nest)));
  }

  lemma CallRetSplit(prog: seq<Instr>, at: int, l: Layout, cond: bool, followed: bool, begin: bool, x: seq<Instr>,
                     y: seq<Instr>, z: seq<Instr>)
    requires |y| >= 2 && l == CallRetLayout(at, followed, begin, |x|, |y| - 2)
    requires Placed(prog, at, CallRetCode(l, cond, followed, begin, x, y, z))
    ensures Placed(prog, l.a1, x) && Placed(prog, l.a2, y) && Placed(prog, l.a3, z)
    ensures IsAt(prog, if begin then at else l.a1 + |x|, Call(l.a2, cond))
    ensures IsAt(prog, BranchAt(at, l, followed, begin, |x|), Br(if followed then l.a1 else l.a3))
  {
    var c := Call(l.a2, cond);
    if followed && begin {
      HeadParts(prog, at, c, Br(l.a1), y, x, z);
    } else if followed {
      FiveParts(prog, at, Br(l.a1), y, x, c, z);
    } else if begin {
      MixedParts(prog, at, c, x, Br(l.a3), y, z);
    } else {
      MiddleParts(prog, at, x, c, Br(l.a3), y, z);
    }
  }

  lemma HeadParts(prog: seq<Instr>, at: int, i: Instr, j: Instr, a: seq<Instr>, b: seq<Instr>, c: seq<Instr>)
    requires Placed(prog, at, [i, j] + a + b + c)
    ensures IsAt(prog, at, i) && IsAt(prog, at + 1, j)
    ensures Placed(prog, at + 2, a) && Placed(prog, at + 2 + |a|, b) && Placed(prog, at + 2 + |a| + |b|, c)
  {
    SplitCat(prog, at, [i, j], a, b, c);
    Two(prog, at, i, j);
  }

  lemma MixedParts(prog: seq<Instr>, at: int, i: Instr, a: seq<Instr>, j: Instr, b: seq<Instr>, c: seq<Instr>)
    requires Placed(prog, at, [i] + a + [j] + b + c)
    ensures IsAt(prog, at, i) && Placed(prog, at + 1, a) && IsAt(prog, at + 1 + |a|, j)
    ensures Placed(prog, at + 1 + |a| + 1, b) && Placed(prog, at + 1 + |a| + 1 + |b|, c)
  {
    Split(prog, at, [i] + a + [j] + b, c);
    SplitCat(prog, at, [i], a, [j], b);
    One(prog, at, i);
    One(prog, at + 1 + |a|, j);
  }

  lemma MiddleParts(prog: seq<Instr>, at: int, a: seq<Instr>, i: Instr, j: Instr, b: seq<Instr>, c: seq<Instr>)
    requires Placed(prog, at, a + [i, j] + b + c)
    ensures Placed(prog, at, a) && IsAt(prog, at + |a|, i) && IsAt(prog, at + |a| + 1, j)
    ensures Placed(prog, at + |a| + 2, b) && Placed(prog, at + |a| + 2 + |b|, c)
  {
    SplitCat(prog, at, a, [i, j], b, c);
    Two(prog, at + |a|, i, j);
  }

  lemma FiveParts(prog: seq<Instr>, at: int, i: Instr, a: seq<Instr>, b: seq<Instr>, j: Instr, c: seq<Instr>)
    requires Placed(prog, at, [i] + a + b + [j] + c)
    ensures IsAt(prog, at, i) && Placed(prog, at + 1, a) && Placed(prog, at + 1 + |a|, b)
    ensures IsAt(prog, at + 1 + |a| + |b|, j) && Placed(prog, at + 1 + |a| + |b| + 1, c)
  {
    Split(prog, at, [i] + a + b + [j], c);
    SplitCat(prog, at, [i], a, b, [j]);
    One(prog, at, i);
    One(prog, at + 1 + |a| + |b|, j);
  }

  /** The first two parts of a call block, with the call at the beginning. */
  lemma RunCallFirst(m: Machine, b: Block, at: int, nest: nat, s: State) returns (leg: Leg)
    requires b.CallRet? && b.begin && InPlace(m.prog, b, at, nest) && |s.mem| == 16 && s.pc == at
    ensures var n := 4 + Size(b.c1) + Size(b.c2); IsLeg(m, s, leg, at + n, nest, Span(at, n))
    decreases nest, 3
  {
    CallRetParts(m.prog, b, at, nest);
    var n1, n2 := Size(b.c1), Size(b.c2);
    var l := CallRetLayout(at, b.followed, b.begin, n1, n2);
    leg := Begin(m, s, nest);
    leg := Through(m, s, leg, at, iset{}, b.c2, l.a2, b.cond, nest);
    var seen := iset{} + Span(at, 1) + Span(l.a2, n2 + 2);
    if b.followed {
      leg := Jump(m, s, leg, at + 1, seen, l.a1, nest);
      leg := Enter(m, s, leg, l.a1, seen + Span(at + 1, 1), b.c1, nest);
      seen := seen + Span(at + 1, 1) + Span(l.a1, n1);
    } else {
      leg := Enter(m, s, leg, l.a1, seen, b.c1, nest);
      leg := Jump(m, s, leg, l.a1 + n1, seen + Span(l.a1, n1), l.a3, nest);
      seen := seen + Span(l.a1, n1) + Span(l.a1 + n1, 1);
    }
    Widen(m, s, leg, l.a3, nest, seen, nest, Span(at, 4 + n1 + n2));
  }

  /** The same, with the call at the end of the first part, the called block last. */
  lemma RunCallLast(m: Machine, b: Block, at: int, nest: nat, s: State) returns (leg: Leg)
    requires b.CallRet? && !b.begin && !b.followed && InPlace(m.prog, b, at, nest) && |s.mem| == 16 && s.pc == at
    ensures var n := 4 + Size(b.c1) + Size(b.c2); IsLeg(m, s, leg, at + n, nest, Span(at, n))
    decreases nest, 3
  {
    CallRetParts(m.prog, b, at, nest);
    var n1, n2 := Size(b.c1), Size(b.c2);
    var p, a2 := at + n1, at + n1 + 2;
    leg := Start(m, s, b.c1, nest);
    leg := Through(m, s, leg, p, Span(at, n1), b.c2, a2, b.cond, nest);
    var seen := Span(at, n1) + Span(p, 1) + Span(a2, n2 + 2);
    leg := Jump(m, s, leg, p + 1, seen, a2 + n2 + 2, nest);
    Widen(m, s, leg, a2 + n2 + 2, nest, seen + Span(p + 1, 1), nest, Span(at, 4 + n1 + n2));
  }

  /** The same, with the called block before the first part. */
  lemma RunCallBack(m: Machine, b: Block, at: int, nest: nat, s: State) returns (leg: Leg)
    requires b.CallRet? && !b.begin && b.followed && InPlace(m.prog, b, at, nest) && |s.mem| == 16 && s.pc == at
    ensures var n := 4 + Size(b.c1) + Size(b.c2); IsLeg(m, s, leg, at + n, nest, Span(at, n))
    decreases nest, 3
  {
    CallRetParts(m.prog, b, at, nest);
    var n1, n2 := Size(b.c1), Size(b.c2);
    var a1 := at + 1 + n2 + 2;
    leg := Begin(m, s, nest);
    leg := Jump(m, s, leg, at, iset{}, a1, nest);
    leg := Enter(m, s, leg, a1, iset{} + Span(at, 1), b.c1, nest);
    var seen := iset{} + Span(at, 1) + Span(a1, n1);
    leg := Through(m, s, leg, a1 + n1, seen, b.c2, at + 1, b.cond, nest);
    Widen(m, s, leg, a1 + n1 + 1, nest, seen + Span(a1 + n1, 1) + Span(at + 1, n2 + 2), nest, Span(at, 4 + n1 + n2));
  }

  lemma RunCallRet(m: Machine, b: Block, at: int, nest: nat, s: State) returns (leg: Leg)
    requires b.CallRet? && InPlace(m.prog, b, at, nest) && |s.mem| == 16 && s.pc == at
    ensures IsLeg(m, s, leg, at + Size(b), nest, Span(at, Size(b)))
    decreases nest, 4
  {
    CallRetParts(m.prog, b, at, nest);
    var n := 4 + Size(b.c1) + Size(b.c2);
    if b.begin {
      leg := RunCallFirst(m, b, at, nest, s);
    } else if b.followed {
      leg := RunCallBack(m, b, at, nest, s);
    } else {
      leg := RunCallLast(m, b, at, nest, s);
    }
    leg := Enter(m, s, leg, at + n, Span(at, n), b.c3, nest);
    assert Span(at, n) + Span(at + n, Size(b.c3)) == Span(at, Size(b));
  }

  // ---------- the rest ----------

  lemma SplitThree(prog: seq<Instr>, at: int, x: seq<Instr>, y: seq<Instr>, z: seq<Instr>)
    requires Placed(prog, at, x + y + z)
    ensures Placed(prog, at, x) && Placed(prog, at + |x|, y) && Placed(prog, at + |x| + |y|, z)
  {
    Split(prog, at, x + y, z);
    Split(prog, at, x, y);
  }

  /** `x`, then `n` instructions, then `y` are at `at`. */
  ghost predicate Glued(prog: seq<Instr>, at: int, x: Block, n: nat, y: Block, nest: nat)
  {
    && 1 <= nest <= 8 && InPlace(prog, x, at, nest - 1) && Placed(prog, at + Size(x), Ops(n))
    && InPlace(prog, y, at + Size(x) + n, nest - 1)
  }

  lemma GlueInPlace(prog: seq<Instr>, at: int, x: Block, n: nat, y: Block, nest: nat, cx: seq<Instr>, cy: seq<Instr>)
    requires 1 <= nest <= 8 && IsCode(cx, x, at, nest - 1) && IsCode(cy, y, at + Size(x) + n, nest - 1)
    requires Placed(prog, at, cx + Ops(n) + cy)
    ensures Glued(prog, at, x, n, y, nest)
  {
    SplitThree(prog, at, cx, Ops(n), cy);
    PutInPlace(prog, x, at, nest - 1, cx);
    PutInPlace(prog, y, at + Size(x) + n, nest - 1, cy);
  }

  lemma ExclusiveParts(prog: seq<Instr>, b: Block, at: int, nest: nat)
    requires b.Exclusive? && InPlace(prog, b, at, nest)
    ensures Glued(prog, at, b.e1, 2, b.e2, nest)
  {
    assert HasCode(prog, b, at, nest);
    var cx := CodeOf(b.e1, at, nest - 1);
    var cy := CodeOf(b.e2, at + Size(b.e1) + 2, nest - 1);
    GlueInPlace(prog, at, b.e1, 2, b.e2, nest, cx, cy);
  }

  lemma AluPcParts(prog: seq<Instr>, b: Block, at: int, nest: nat)
    requires b.AluPc? && InPlace(prog, b, at, nest)
    ensures Glued(prog, at, b.p1, 1, b.p2, nest)
  {
    assert HasCode(prog, b, at, nest);
    var cx := CodeOf(b.p1, at, nest - 1);
    var cy := CodeOf(b.p2, at + Size(b.p1) + 1, nest - 1);
    GlueInPlace(prog, at, b.p1, 1, b.p2, nest, cx, cy);
  }

  lemma RunGlue(m: Machine, s: State, x: Block, n: nat, y: Block, nest: nat) returns (leg: Leg)
    requires |s.mem| == 16 && Glued(m.prog, s.pc, x, n, y, nest)
    ensures var k := Size(x) + n + Size(y); IsLeg(m, s, leg, s.pc + k, nest, Span(s.pc, k))
    decreases nest, 2
  {
    var at, k := s.pc, Size(x);
    leg := Start(m, s, x, nest);
    var ops := OpsLeg(m, leg.end, n, nest);
    leg := Join(m, s, leg, at + k, Span(at, k), ops, at + k + n, Span(at + k, n), nest);
    leg := Enter(m, s, leg, at + k + n, Span(at, k) + Span(at + k, n), y, nest);
    assert Span(at, k) + Span(at + k, n) + Span(at + k + n, Size(y)) == Span(at, k + n + Size(y));
  }

  lemma RunExclusive(m: Machine, b: Block, at: int, nest: nat, s: State) returns (leg: Leg)
    requires b.Exclusive? && InPlace(m.prog, b, at, nest) && |s.mem| == 16 && s.pc == at
    ensures IsLeg(m, s, leg, at + Size(b), nest, Span(at, Size(b)))
    decreases nest, 4
  {
    ExclusiveParts(m.prog, b, at, nest);
    leg := RunGlue(m, s, b.e1, 2, b.e2, nest);
  }

  lemma RunAluPc(m: Machine, b: Block, at: int, nest: nat, s: State) returns (leg: Leg)
    requires b.AluPc? && InPlace(m.prog, b, at, nest) && |s.mem| == 16 && s.pc == at
    ensures IsLeg(m, s, leg, at + Size(b), nest, Span(at, Size(b)))
    decreases nest, 4
  {
    AluPcParts(m.prog, b, at, nest);
    leg := RunGlue(m, s, b.p1, 1, b.p2, nest);
  }

  /** Every run of a block reaches its end label. */
  lemma RunBlock(m: Machine, b: Block, at: int, nest: nat, s: State) returns (leg: Leg)
    requires InPlace(m.prog, b, at, nest) && |s.mem| == 16 && s.pc == at
    ensures IsLeg(m, s, leg, at + Size(b), nest, Span(at, Size(b)))
    decreases nest, 6
  {
    match b
    case Basic(n) => assert HasCode(m.prog, b, at, nest); leg := OpsLeg(m, s, n, nest);
    case ByPass(_, _, _) => leg := RunByPass(m, b, at, nest, s);
    case Hammock(_, _, _, _) => leg := RunHammock(m, b, at, nest, s);
    case Loop(_, _, _) => leg := RunLoop(m, b, at, nest, s);
    case IrLoop(_, _, _, _, _) => leg := RunIrLoop(m, b, at, nest, s);
    case Interwork(_, _, _, _, _) => leg := RunInterwork(m, b, at, nest, s);
    case CallRet(_, _, _, _, _, _) => leg := RunCallRet(m, b, at, nest, s);
    case Exclusive(_, _) => leg := RunExclusive(m, b, at, nest, s);
    case AluPc(_, _) => leg := RunAluPc(m, b, at, nest, s);
  }

  /** For every tree drawn at a level up to 8, wherever its code is placed, whatever chance decides and
      whatever cfgdata holds: the run that begins at its label executes instructions of the block only and
      reaches its end label; if the back edges of counted loops are erased, it executes none of them
      twice. */
  lemma EveryRunEnds(m: Machine, b: Block, at: int, nest: nat, s: State) returns (n: nat)
    requires Fits(b, nest) && nest <= 8 && Placed(m.prog, at, Emit(b, at, nest)) && |s.mem| == 16 && s.pc == at
    ensures Run(m, s, n).pc == at + Size(b) && (m.erased ==> n <= Size(b)) && Frame(s.mem, Run(m, s, n).mem, nest)
    ensures forall i :: 0 <= i < n ==> at <= PcAt(m, s, i) < at + Size(b)
    ensures m.erased ==> forall i, j :: 0 <= i < j < n ==> PcAt(m, s, i) != PcAt(m, s, j)
  {
    var code := CodeOf(b, at, nest);
    PutInPlace(m.prog, b, at, nest, code);
    var leg := RunBlock(m, b, at, nest, s);
    assert RunIs(m, s, leg.n, leg.end) && Frame(s.mem, leg.end.mem, nest);
    n := leg.n;
    assert Path(m, s, n, Span(at, Size(b)));
    if m.erased { PathFits(m, s, n, Addresses(at, Size(b))); }
  }
}
