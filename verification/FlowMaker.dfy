/**
  makeRandomBlock as a program over the context it changes: the nesting level, the instruction set and
  the table of basic blocks.  What chance draws is given by a function of the label.
 */
module FlowMaker {
  import opened FlowTree
  import opened FlowSlots
  import opened FlowLabels
  import FlowRuns

  datatype Kind = KBasic | KByPass | KHammock | KLoop | KIrLoop | KInterwork | KCallRet | KExclusive | KAluPc

  /** What is drawn for a block: the choice of its kind, a percentage, the numbers of a loop, the number
      of instructions of a basic block, and four coin tosses. */
  datatype Draw = Draw(pick: nat, percent: nat, inc: nat, limit: nat, n: nat, a: bool, b: bool, c: bool, d: bool)

  /** The kinds that getRBlock chooses from above level 0. */
  function Kinds(nest: int, excl: bool, alu: bool): (r: seq<Kind>)
    ensures |r| > 0
  {
    (if nest > 3 then [] else [KBasic]) + [KByPass, KHammock, KLoop, KIrLoop, KInterwork, KCallRet]
    + (if excl && nest <= 3 then [KExclusive] else []) + (if alu then [KAluPc] else [])
  }

  function GetRBlock(nest: int, excl: bool, alu: bool, d: Draw): (k: Kind)
    ensures nest <= 0 ==> k == KBasic
    ensures nest > 0 ==> k == KBasic || k in Kinds(nest, excl, alu)
    ensures nest > 3 && k == KBasic ==> alu && d.percent >= 30
  {
    if nest <= 0 then KBasic
    else
      var kinds := Kinds(nest, excl, alu);
      var k := kinds[d.pick % |kinds|];
      if (k == KExclusive || k == KAluPc) && d.percent >= 30 then KBasic else k
  }

  function KindOf(b: Block): Kind
  {
    match b
    case Basic(_) => KBasic
    case ByPass(_, _, _) => KByPass
    case Hammock(_, _, _, _) => KHammock
    case Loop(_, _, _) => KLoop
    case IrLoop(_, _, _, _, _) => KIrLoop
    case Interwork(_, _, _, _, _) => KInterwork
    case CallRet(_, _, _, _, _, _) => KCallRet
    case Exclusive(_, _) => KExclusive
    case AluPc(_, _) => KAluPc
  }

  /** The lists that makeRandomBlock returns: basic blocks, and the pair of lists of a hammock. */
  datatype Item = One(name: Label) | Two(left: seq<Item>, right: seq<Item>)

  function Flat(items: seq<Item>): seq<Label>
  {
    if items == [] then []
    else (match items[0] case One(l) => [l] case Two(x, y) => Flat(x) + Flat(y)) + Flat(items[1..])
  }

  lemma {:induction false} FlatOfTwo(x: seq<Item>, y: seq<Item>)
    ensures Flat(x + y) == Flat(x) + Flat(y)
    decreases |x|
  {
    if x == [] {
      assert x + y == y;
    } else {
      assert (x + y)[1..] == x[1..] + y;
      FlatOfTwo(x[1..], y);
    }
  }

  function Level(nest: int): nat { if nest > 0 then nest else 0 }

  // ---------- the basic blocks of a block are those of its parts ----------

  lemma PartsOne(b: Block, p: Label)
    requires |Children(b)| == 1
    ensures Basics(b, p) == PartBasics(b, p, 0)
  {
  }

  lemma PartsTwo(b: Block, p: Label)
    requires |Children(b)| == 2
    ensures Basics(b, p) == PartBasics(b, p, 0) + PartBasics(b, p, 1)
  {
  }

  lemma PartsThree(b: Block, p: Label)
    requires |Children(b)| == 3
    ensures Basics(b, p) == PartBasics(b, p, 0) + PartBasics(b, p, 1) + PartBasics(b, p, 2)
  {
  }

  lemma PartsFour(b: Block, p: Label)
    requires |Children(b)| == 4
    ensures Basics(b, p) == PartBasics(b, p, 0) + PartBasics(b, p, 1) + PartBasics(b, p, 2) + PartBasics(b, p, 3)
  {
  }

  /** `sub` names each basic block of the tree once, and they are what was added to the table. */
  predicate MadeAs(before: set<Label>, after: set<Label>, sub: seq<Item>, tree: Block, p: Label)
  {
    after == before + Basics(tree, p) && multiset(Flat(sub)) == multiset(Basics(tree, p))
  }

  /** The quantifier here and in `Lists` keeps what they stand for from being unfolded in every method; an
      `assert MadeAs(...)` or `assert ListsAs(...)` brings it back. */
  ghost predicate Made(before: set<Label>, after: set<Label>, sub: seq<Item>, tree: Block, p: Label)
  {
    forall q :: q == p ==> MadeAs(before, after, sub, tree, q)
  }

  /** A basic block that has been made is in the table. */
  lemma BasicIsThere(before: set<Label>, after: set<Label>, sub: seq<Item>, tree: Block, p: Label)
    requires Made(before, after, sub, tree, p)
    ensures before <= after && (tree.Basic? ==> p in after)
  {
    assert MadeAs(before, after, sub, tree, p);
  }

  lemma MadeOne(b: Block, p: Label, k0: set<Label>, k1: set<Label>, s1: seq<Item>)
    requires |Children(b)| == 1 && Made(k0, k1, s1, Children(b)[0], p + Suffixes(b)[0])
    ensures Made(k0, k1, s1, b, p)
  {
    assert MadeAs(k0, k1, s1, Children(b)[0], p + Suffixes(b)[0]);
    PartsOne(b, p);
  }

  predicate ListsAs(sub: seq<Item>, names: set<Label>)
  {
    multiset(Flat(sub)) == multiset(names)
  }

  /** `sub` holds each of these names once, and no other. */
  ghost predicate Lists(sub: seq<Item>, names: set<Label>)
  {
    forall n :: n == names ==> ListsAs(sub, n)
  }

  lemma PartMade(b: Block, p: Label, i: nat, k0: set<Label>, k1: set<Label>, sub: seq<Item>) returns (names: set<Label>)
    requires i < |Children(b)| && Made(k0, k1, sub, Children(b)[i], p + Suffixes(b)[i])
    ensures names == PartBasics(b, p, i) && k1 == k0 + names && Lists(sub, names)
  {
    assert MadeAs(k0, k1, sub, Children(b)[i], p + Suffixes(b)[i]);
    names := PartBasics(b, p, i);
  }

  lemma AllMade(b: Block, p: Label, names: set<Label>, k0: set<Label>, k1: set<Label>, sub: seq<Item>)
    requires names == Basics(b, p) && k1 == k0 + names && Lists(sub, names)
    ensures Made(k0, k1, sub, b, p)
  {
    assert ListsAs(sub, names);
    assert MadeAs(k0, k1, sub, b, p);
  }

  lemma ListsOfTwo(x: seq<Item>, a: set<Label>, y: seq<Item>, b: set<Label>)
    requires Lists(x, a) && Lists(y, b) && a !! b
    ensures Lists(x + y, a + b) && Lists(y + x, a + b) && Lists([Two(x, y)], a + b)
  {
    assert ListsAs(x, a) && ListsAs(y, b);
    FlatOfTwo(x, y);
    FlatOfTwo(y, x);
    assert [Two(x, y)][1..] == [];
    assert Flat([Two(x, y)]) == Flat(x) + Flat(y);
    assert multiset(a + b) == multiset(a) + multiset(b);
  }

  lemma ListsOfThree(x: seq<Item>, a: set<Label>, y: seq<Item>, b: set<Label>, z: seq<Item>, c: set<Label>)
    requires Lists(x, a) && Lists(y, b) && Lists(z, c) && a !! b && a !! c && b !! c
    ensures Lists(x + y + z, a + b + c) && Lists(y + x + z, a + b + c)
  {
    ListsOfTwo(x, a, y, b);
    ListsOfTwo(x + y, a + b, z, c);
    ListsOfTwo(y + x, a + b, z, c);
  }

  lemma ListsOfFour(w: seq<Item>, a: set<Label>, x: seq<Item>, b: set<Label>, y: seq<Item>, c: set<Label>,
                    z: seq<Item>, d: set<Label>)
    requires Lists(w, a) && Lists(x, b) && Lists(y, c) && Lists(z, d)
    requires a !! b && a !! c && b !! c && a !! d && b !! d && c !! d
    ensures Lists(w + [Two(x, y)] + z, a + b + c + d)
  {
    ListsOfTwo(x, b, y, c);
    ListsOfTwo(w, a, [Two(x, y)], b + c);
    assert a + (b + c) == a + b + c;
    ListsOfTwo(w + [Two(x, y)], a + b + c, z, d);
  }

  lemma MadeTwo(b: Block, p: Label, k0: set<Label>, k1: set<Label>, k2: set<Label>, s1: seq<Item>, s2: seq<Item>)
    requires |Children(b)| == 2
    requires Made(k0, k1, s1, Children(b)[0], p + Suffixes(b)[0])
    requires Made(k1, k2, s2, Children(b)[1], p + Suffixes(b)[1])
    ensures Made(k0, k2, s1 + s2, b, p)
  {
    var n1 := PartMade(b, p, 0, k0, k1, s1);
    var n2 := PartMade(b, p, 1, k1, k2, s2);
    PartsTwo(b, p);
    BasicsDiffer(b, p, 0, 1);
    ListsOfTwo(s1, n1, s2, n2);
    AllMade(b, p, n1 + n2, k0, k2, s1 + s2);
  }

  lemma MadeThree(b: Block, p: Label, k0: set<Label>, k1: set<Label>, k2: set<Label>, k3: set<Label>, s1: seq<Item>,
                  s2: seq<Item>, s3: seq<Item>)
    requires |Children(b)| == 3
    requires Made(k0, k1, s1, Children(b)[0], p + Suffixes(b)[0])
    requires Made(k1, k2, s2, Children(b)[1], p + Suffixes(b)[1])
    requires Made(k2, k3, s3, Children(b)[2], p + Suffixes(b)[2])
    ensures Made(k0, k3, s1 + s2 + s3, b, p) && Made(k0, k3, s2 + s1 + s3, b, p)
  {
    var n1 := PartMade(b, p, 0, k0, k1, s1);
    var n2 := PartMade(b, p, 1, k1, k2, s2);
    var n3 := PartMade(b, p, 2, k2, k3, s3);
    PartsThree(b, p);
    ThreeDiffer(b, p);
    ListsOfThree(s1, n1, s2, n2, s3, n3);
    AllMade(b, p, n1 + n2 + n3, k0, k3, s1 + s2 + s3);
    AllMade(b, p, n1 + n2 + n3, k0, k3, s2 + s1 + s3);
  }

  lemma ThreeDiffer(b: Block, p: Label)
    requires |Children(b)| >= 3
    ensures PartBasics(b, p, 0) !! PartBasics(b, p, 1) && PartBasics(b, p, 0) !! PartBasics(b, p, 2)
    ensures PartBasics(b, p, 1) !! PartBasics(b, p, 2)
  {
    BasicsDiffer(b, p, 0, 1);
    BasicsDiffer(b, p, 0, 2);
    BasicsDiffer(b, p, 1, 2);
  }

  lemma MadeFour(b: Block, p: Label, k0: set<Label>, k1: set<Label>, k2: set<Label>, k3: set<Label>, k4: set<Label>,
                 s1: seq<Item>, s2: seq<Item>, s3: seq<Item>, s4: seq<Item>)
    requires |Children(b)| == 4
    requires Made(k0, k1, s1, Children(b)[0], p + Suffixes(b)[0])
    requires Made(k1, k2, s2, Children(b)[1], p + Suffixes(b)[1])
    requires Made(k2, k3, s3, Children(b)[2], p + Suffixes(b)[2])
    requires Made(k3, k4, s4, Children(b)[3], p + Suffixes(b)[3])
    ensures Made(k0, k4, s1 + [Two(s2, s3)] + s4, b, p)
  {
    var n1 := PartMade(b, p, 0, k0, k1, s1);
    var n2 := PartMade(b, p, 1, k1, k2, s2);
    var n3 := PartMade(b, p, 2, k2, k3, s3);
    var n4 := PartMade(b, p, 3, k3, k4, s4);
    PartsFour(b, p);
    ThreeDiffer(b, p);
    BasicsDiffer(b, p, 0, 3);
    BasicsDiffer(b, p, 1, 3);
    BasicsDiffer(b, p, 2, 3);
    ListsOfFour(s1, n1, s2, n2, s3, n3, s4, n4);
    AllMade(b, p, n1 + n2 + n3 + n4, k0, k4, s1 + [Two(s2, s3)] + s4);
  }

  class Maker {
    var nest: int
    var isArm: bool
    /** ctx[CTX.BB]: the basic blocks made, with their instruction limit (0 for none). */
    var bb: map<Label, nat>
    const excl: bool
    const alu: bool
    const draw: Label -> Draw

    constructor (nest: int, excl: bool, alu: bool, draw: Label -> Draw)
      ensures this.nest == nest && this.isArm && bb == map[] && this.excl == excl && this.alu == alu
      ensures this.draw == draw
    {
      this.nest, isArm, bb, this.excl, this.alu, this.draw := nest, true, map[], excl, alu, draw;
    }

    /** genBranch, as far as it changes the context: where cbz is allowed, the block that it jumps over
        must be in the table, and gets an instruction limit. */
    method GenBranch(arm: bool, conditional: bool, forward: bool, over: Label)
      requires conditional && !arm && nest <= 0 && forward ==> over in bb
      modifies this`bb
      ensures bb.Keys == old(bb.Keys)
      ensures bb == if conditional && !arm && nest <= 0 && forward then old(bb)[over := 32] else old(bb)
    {
      var allowCbz := conditional;
      if arm || nest > 0 { allowCbz := false; }
      if !forward { allowCbz := false; }
      if allowCbz { bb := bb[over := 32]; }
    }

    /** Draws the kind of a block and makes it. */
    method Part(p: Label) returns (sub: seq<Item>, tree: Block)
      modifies this
      ensures nest == old(nest) && isArm == old(isArm) && Fits(tree, Level(nest))
      ensures Made(old(bb.Keys), bb.Keys, sub, tree, p)
      ensures old(bb.Keys) <= bb.Keys && (nest <= 0 ==> p in bb)
      decreases Level(nest), 2
    {
      ghost var k0 := bb.Keys;
      sub, tree := MakeRandomBlock(GetRBlock(nest, excl, alu, draw(p)), p);
      BasicIsThere(k0, bb.Keys, sub, tree, p);
    }

    method MakeBasic(p: Label) returns (sub: seq<Item>, tree: Block)
      modifies this`bb
      ensures tree.Basic? && Made(old(bb.Keys), bb.Keys, sub, tree, p)
    {
      bb := bb[p := 0];
      sub, tree := [One(p)], Basic(draw(p).n);
      assert [One(p)][1..] == [];
      assert Flat(sub) == [p];
    }

    method MakeByPass(p: Label) returns (sub: seq<Item>, tree: Block)
      requires nest > 0
      modifies this
      ensures nest == old(nest) && isArm == old(isArm) && tree.ByPass? && Fits(tree, nest)
      ensures Made(old(bb.Keys), bb.Keys, sub, tree, p)
      decreases Level(nest), 0
    {
      nest := nest - 1;
      ghost var k0 := bb.Keys;
      var s1, t1 := Part(p + "_b1");
      ghost var k1 := bb.Keys;
      var s2, t2 := Part(p + "_b2");
      ghost var k2 := bb.Keys;
      var s3, t3 := Part(p + "_b3");
      GenBranch(isArm, true, true, p + "_b2");
      nest := nest + 1;
      sub, tree := s1 + s2 + s3, ByPass(t1, t2, t3);
      MadeThree(tree, p, k0, k1, k2, bb.Keys, s1, s2, s3);
    }

    method MakeHammock(p: Label) returns (sub: seq<Item>, tree: Block)
      requires nest > 0
      modifies this
      ensures nest == old(nest) && isArm == old(isArm) && tree.Hammock? && Fits(tree, nest)
      ensures Made(old(bb.Keys), bb.Keys, sub, tree, p)
      decreases Level(nest), 0
    {
      nest := nest - 1;
      ghost var k0 := bb.Keys;
      var s1, t1 := Part(p + "_h1");
      ghost var k1 := bb.Keys;
      var s2, t2 := Part(p + "_h2");
      ghost var k2 := bb.Keys;
      var s3, t3 := Part(p + "_h3");
      ghost var k3 := bb.Keys;
      var s4, t4 := Part(p + "_h4");
      GenBranch(isArm, true, true, p + "_h2");
      GenBranch(isArm, false, true, p + "_h3");
      nest := nest + 1;
      sub, tree := s1 + [Two(s2, s3)] + s4, Hammock(t1, t2, t3, t4);
      MadeFour(tree, p, k0, k1, k2, k3, bb.Keys, s1, s2, s3, s4);
    }

    method MakeLoop(p: Label) returns (sub: seq<Item>, tree: Block)
      requires nest > 0
      modifies this
      ensures nest == old(nest) && isArm == old(isArm) && tree.Loop? && Fits(tree, nest)
      ensures Made(old(bb.Keys), bb.Keys, sub, tree, p)
      ensures 1 <= tree.inc <= 10 && 0 <= tree.limit <= 256
      decreases Level(nest), 0
    {
      nest := nest - 1;
      ghost var k0 := bb.Keys;
      var s1, t1 := Part(p + "_l1");
      nest := nest + 1;
      sub, tree := s1, Loop(t1, 1 + draw(p).inc % 10, draw(p).limit % 257);
      MadeOne(tree, p, k0, bb.Keys, s1);
    }

    method MakeIrLoop(p: Label) returns (sub: seq<Item>, tree: Block)
      requires nest > 0
      modifies this
      ensures nest == old(nest) && isArm == old(isArm) && tree.IrLoop? && Fits(tree, nest)
      ensures Made(old(bb.Keys), bb.Keys, sub, tree, p)
      ensures 1 <= tree.inc <= 10 && 0 <= tree.limit <= 256
      decreases Level(nest), 0
    {
      nest := nest - 1;
      ghost var k0 := bb.Keys;
      var s1, t1 := Part(p + "_ir1");
      ghost var k1 := bb.Keys;
      var s2, t2 := Part(p + "_ir2");
      ghost var k2 := bb.Keys;
      var s3, t3 := Part(p + "_ir3");
      GenBranch(isArm, true, false, p + "_ir2");
      nest := nest + 1;
      sub, tree := s1 + s2 + s3, IrLoop(t1, t2, t3, 1 + draw(p).inc % 10, draw(p).limit % 257);
      MadeThree(tree, p, k0, k1, k2, bb.Keys, s1, s2, s3);
    }

    /** The second part is made for the other instruction set. */
    method MakeInterwork(p: Label) returns (sub: seq<Item>, tree: Block)
      requires nest > 0
      modifies this
      ensures nest == old(nest) && isArm == old(isArm) && tree.Interwork? && Fits(tree, nest)
      ensures Made(old(bb.Keys), bb.Keys, sub, tree, p)
      decreases Level(nest), 0
    {
      nest := nest - 1;
      ghost var k0 := bb.Keys;
      var s1, t1 := Part(p + "_iw1");
      ghost var k1 := bb.Keys;
      isArm := !isArm;
      var s2, t2 := Part(p + "_iw2");
      ghost var k2 := bb.Keys;
      isArm := !isArm;
      var s3, t3 := Part(p + "_iw3");
      GenBranch(isArm, false, false, p + "_iw3");
      nest := nest + 1;
      var d := draw(p);
      tree := Interwork(t1, t2, t3, d.a, d.b);
      sub := if d.b then s2 + s1 + s3 else s1 + s2 + s3;
      MadeThree(tree, p, k0, k1, k2, bb.Keys, s1, s2, s3);
    }

    /** The called part is made for the other instruction set if the call changes it. */
    method MakeCallRet(p: Label) returns (sub: seq<Item>, tree: Block)
      requires nest > 0
      modifies this
      ensures nest == old(nest) && isArm == old(isArm) && tree.CallRet? && Fits(tree, nest)
      ensures Made(old(bb.Keys), bb.Keys, sub, tree, p)
      decreases Level(nest), 0
    {
      nest := nest - 1;
      ghost var k0 := bb.Keys;
      var d := draw(p);
      var s1, t1 := Part(p + "_c1");
      ghost var k1 := bb.Keys;
      if d.a { isArm := !isArm; }
      var s2, t2 := Part(p + "_c2");
      ghost var k2 := bb.Keys;
      if d.a { isArm := !isArm; }
      var s3, t3 := Part(p + "_c3");
      nest := nest + 1;
      GenBranch(isArm, false, false, if d.b then p + "_c1" else p + "_c3");
      tree := CallRet(t1, t2, t3, d.d, d.b, d.c);
      sub := if d.b then s2 + s1 + s3 else s1 + s2 + s3;
      MadeThree(tree, p, k0, k1, k2, bb.Keys, s1, s2, s3);
    }

    method MakeExclusive(p: Label) returns (sub: seq<Item>, tree: Block)
      requires nest > 0
      modifies this
      ensures nest == old(nest) && isArm == old(isArm) && tree.Exclusive? && Fits(tree, nest)
      ensures Made(old(bb.Keys), bb.Keys, sub, tree, p)
      decreases Level(nest), 0
    {
      nest := nest - 1;
      ghost var k0 := bb.Keys;
      var s1, t1 := Part(p + "_e1");
      ghost var k1 := bb.Keys;
      var s2, t2 := Part(p + "_e2");
      nest := nest + 1;
      sub, tree := s1 + s2, Exclusive(t1, t2);
      MadeTwo(tree, p, k0, k1, bb.Keys, s1, s2);
    }

    method MakeAluPc(p: Label) returns (sub: seq<Item>, tree: Block)
      requires nest > 0
      modifies this
      ensures nest == old(nest) && isArm == old(isArm) && tree.AluPc? && Fits(tree, nest)
      ensures Made(old(bb.Keys), bb.Keys, sub, tree, p)
      decreases Level(nest), 0
    {
      nest := nest - 1;
      ghost var k0 := bb.Keys;
      var s1, t1 := Part(p + "_aluwpc1");
      ghost var k1 := bb.Keys;
      var s2, t2 := Part(p + "_aluwpc2");
      nest := nest + 1;
      sub, tree := s1 + s2, AluPc(t1, t2);
      MadeTwo(tree, p, k0, k1, bb.Keys, s1, s2);
    }

    /** makeRandomBlock of a block of this kind: it comes to an end, leaves the nesting level and the
        instruction set as they were, and makes a tree that fits the level, whose basic blocks are those
        it returns, each once, and those it adds to the table. */
    method MakeRandomBlock(kind: Kind, p: Label) returns (sub: seq<Item>, tree: Block)
      requires kind == KBasic || nest > 0
      modifies this
      ensures nest == old(nest) && isArm == old(isArm) && Fits(tree, Level(nest)) && KindOf(tree) == kind
      ensures Made(old(bb.Keys), bb.Keys, sub, tree, p)
      decreases Level(nest), 1
    {
      match kind
      case KBasic => sub, tree := MakeBasic(p);
      case KByPass => sub, tree := MakeByPass(p);
      case KHammock => sub, tree := MakeHammock(p);
      case KLoop => sub, tree := MakeLoop(p);
      case KIrLoop => sub, tree := MakeIrLoop(p);
      case KInterwork => sub, tree := MakeInterwork(p);
      case KCallRet => sub, tree := MakeCallRet(p);
      case KExclusive => sub, tree := MakeExclusive(p);
      case KAluPc => sub, tree := MakeAluPc(p);
    }
  }

  /** A machine is about to run the code of a block. */
  predicate Starts(m: Machine, b: Block, at: int, nest: nat, s: State)
  {
    Placed(m.prog, at, Emit(b, at, nest)) && |s.mem| == 16 && s.pc == at
  }

  /** The run stays in the block and gets to its end; without counted back edges, it executes no
      instruction twice. */
  ghost predicate GetsThrough(m: Machine, b: Block, at: int, nest: nat, s: State)
    requires |s.mem| == 16
  {
    exists n: nat ::
      && Run(m, s, n).pc == at + Size(b) && (m.erased ==> n <= Size(b))
      && FlowRuns.Path(m, s, n, FlowRuns.Span(at, Size(b)))
  }

  /** Wherever the code is, whatever chance decides, and whatever cfgdata holds. */
  ghost predicate EveryRunEnds(b: Block, nest: nat)
  {
    forall m: Machine, at: int, s: State :: Starts(m, b, at, nest, s) ==> GetsThrough(m, b, at, nest, s)
  }

  lemma RunsEnd(b: Block, nest: nat)
    requires Fits(b, nest) && nest <= 8
    ensures EveryRunEnds(b, nest)
  {
    forall m: Machine, at: int, s: State | Starts(m, b, at, nest, s) ensures GetsThrough(m, b, at, nest, s) {
      var n := FlowRuns.EveryRunEnds(m, b, at, nest, s);
      assert FlowRuns.Path(m, s, n, FlowRuns.Span(at, Size(b)));
    }
  }

  /** A whole test, as art.py makes it under the label "rit": the basic blocks returned are those of the
      table, each once, and no two blocks of the tree share a label.  Made at a level of at most 8, it
      keeps its slots apart and every run of it comes to its end. */
  method MakeTest(root: Label, nest: nat, excl: bool, alu: bool, draw: Label -> Draw)
    returns (m: Maker, sub: seq<Item>, tree: Block)
    ensures Fits(tree, nest) && AllDiffer(tree, root) && m.nest == nest && m.isArm
    ensures Lists(sub, m.bb.Keys) && m.bb.Keys == Basics(tree, root)
    ensures nest <= 8 ==> SlotsFine(tree, nest, {}) && EveryRunEnds(tree, nest)
  {
    m := new Maker(nest, excl, alu, draw);
    ghost var k0 := m.bb.Keys;
    sub, tree := m.Part(root);
    LabelsDiffer(tree, root);
    assert MadeAs(k0, m.bb.Keys, sub, tree, root);
    if nest <= 8 {
      SlotsAreFine(tree, nest, {});
      RunsEnd(tree, nest);
    }
  }
}
