/**
  The words of cfgdata that calls and loops use: each is apart from those of all enclosing blocks and
  inside the 64 bytes, if and only if trees are drawn at a level of at most 8.
 */
module FlowSlots {
  import opened FlowTree

  /** The size that code.py gives cfgdata. */
  const CFGDATA: int := 64

  /** Four bytes of cfgdata. */
  type Slot = int

  predicate Apart(a: Slot, b: Slot)
  {
    a + 4 <= b || b + 4 <= a
  }

  /** The slot that a block made at level `nest` uses itself, if it uses one: a call for its return
      address (pushed below the stack pointer that is set), a loop for its count. */
  function OwnSlots(b: Block, nest: int): set<Slot>
  {
    match b
    case CallRet(_, _, _, _, _, _) => {SaveSp(nest - 1) - 4, RetSp(nest - 1)}
    case Loop(_, _, _) => {LoopOffset(nest - 1)}
    case IrLoop(_, _, _, _, _) => {LoopOffset(nest - 1)}
    case _ => {}
  }

  function Children(b: Block): seq<Block>
  {
    match b
    case Basic(_) => []
    case ByPass(x, y, z) => [x, y, z]
    case Hammock(w, x, y, z) => [w, x, y, z]
    case Loop(x, _, _) => [x]
    case IrLoop(x, y, z, _, _) => [x, y, z]
    case Interwork(x, y, z, _, _) => [x, y, z]
    case CallRet(x, y, z, _, _, _) => [x, y, z]
    case Exclusive(x, y) => [x, y]
    case AluPc(x, y) => [x, y]
  }

  /** Below `enclosing` blocks that use these slots, the slots of the tree are all apart from those of
      the blocks they are enclosed in, and lie in cfgdata. */
  predicate SlotsFine(b: Block, nest: int, enclosing: set<Slot>)
    decreases b
  {
    && (forall a :: a in OwnSlots(b, nest) ==> 0 <= a && a + 4 <= CFGDATA)
    && (forall a, e :: a in OwnSlots(b, nest) && e in enclosing ==> Apart(a, e))
    && forall i :: 0 <= i < |Children(b)| ==> SlotsFine(Children(b)[i], nest - 1, enclosing + OwnSlots(b, nest))
  }

  /** The slots of levels from `nest` up to 8. */
  predicate Above(enclosing: set<Slot>, nest: int)
  {
    forall e :: e in enclosing ==> exists k :: nest <= k < 8 && (e == 4 * k || e == 32 + 4 * k)
  }

  lemma {:induction false} SlotsAreFine(b: Block, nest: nat, enclosing: set<Slot>)
    requires Fits(b, nest) && nest <= 8 && Above(enclosing, nest)
    ensures SlotsFine(b, nest, enclosing)
    decreases b
  {
    forall a, e | a in OwnSlots(b, nest) && e in enclosing ensures Apart(a, e) {
      var k :| nest <= k < 8 && (e == 4 * k || e == 32 + 4 * k);
    }
    forall i | 0 <= i < |Children(b)| ensures SlotsFine(Children(b)[i], nest - 1, enclosing + OwnSlots(b, nest)) {
      assert Fits(Children(b)[i], nest - 1);
      forall e | e in enclosing + OwnSlots(b, nest)
        ensures exists k :: nest - 1 <= k < 8 && (e == 4 * k || e == 32 + 4 * k)
      {
        if e in OwnSlots(b, nest) { assert e == 4 * (nest - 1) || e == 32 + 4 * (nest - 1); }
      }
      SlotsAreFine(Children(b)[i], nest - 1, enclosing + OwnSlots(b, nest));
    }
  }

  /** One level of a loop down to a basic block. */
  function Tower(n: nat): Block
  {
    if n == 0 then Basic(0) else Loop(Tower(n - 1), 1, 0)
  }

  lemma {:induction false} TowerFits(n: nat)
    ensures Fits(Tower(n), n)
  {
    if n == 0 {
    } else {
      TowerFits(n - 1);
    }
  }

  /** Drawing trees at level `nest` is safe exactly up to level 8. */
  lemma LevelEight(nest: nat)
    ensures nest <= 8 <==> forall b :: Fits(b, nest) ==> SlotsFine(b, nest, {})
  {
    if nest <= 8 {
      forall b | Fits(b, nest) ensures SlotsFine(b, nest, {}) { SlotsAreFine(b, nest, {}); }
    } else {
      var b := Tower(nest);
      TowerFits(nest);
      assert LoopOffset(nest - 1) in OwnSlots(b, nest);
      assert !SlotsFine(b, nest, {});
    }
  }
}
