/**
  The labels of the blocks of a tree.  A child's label is its parent's with a suffix; no two blocks of
  a tree share a label, nor does one's label coincide with the end label of another.
 */
module FlowLabels {
  import opened FlowTree
  import opened FlowSlots

  type Label = string

  /** The suffixes that makeRandomBlock gives to the parts of a block, in the order of Children. */
  function Suffixes(b: Block): (r: seq<string>)
    ensures |r| == |Children(b)|
  {
    match b
    case Basic(_) => []
    case ByPass(_, _, _) => ["_b1", "_b2", "_b3"]
    case Hammock(_, _, _, _) => ["_h1", "_h2", "_h3", "_h4"]
    case Loop(_, _, _) => ["_l1"]
    case IrLoop(_, _, _, _, _) => ["_ir1", "_ir2", "_ir3"]
    case Interwork(_, _, _, _, _) => ["_iw1", "_iw2", "_iw3"]
    case CallRet(_, _, _, _, _, _) => ["_c1", "_c2", "_c3"]
    case Exclusive(_, _) => ["_e1", "_e2"]
    case AluPc(_, _) => ["_aluwpc1", "_aluwpc2"]
  }

  lemma SuffixesDiffer(b: Block, i: nat, j: nat)
    requires i < |Children(b)| && j < |Children(b)| && i != j
    ensures |Suffixes(b)[i]| == |Suffixes(b)[j]| && Suffixes(b)[i] != Suffixes(b)[j]
  {
    var n := |Suffixes(b)[i]|;
    assert |Suffixes(b)[j]| == n && Suffixes(b)[i][n - 1] != Suffixes(b)[j][n - 1];
  }

  lemma SuffixIsNoEnd(b: Block, i: nat)
    requires i < |Children(b)|
    ensures Suffixes(b)[i] != "" && !(Suffixes(b)[i] <= "_end")
  {
    var s := Suffixes(b)[i];
    assert |s| > 4 || s[1] != 'e' || s[2] != 'n';
  }

  /** The label and the end label of every block of the tree. */
  function Labels(b: Block, p: Label): set<Label>
    decreases b
  {
    {p, p + "_end"} + set i, l | 0 <= i < |Children(b)| && l in Labels(Children(b)[i], p + Suffixes(b)[i]) :: l
  }

  function PartLabels(b: Block, p: Label, i: nat): set<Label>
    requires i < |Children(b)|
  {
    Labels(Children(b)[i], p + Suffixes(b)[i])
  }

  /** The labels of the basic blocks. */
  function Basics(b: Block, p: Label): set<Label>
    decreases b
  {
    if b.Basic? then {p}
    else set i, l | 0 <= i < |Children(b)| && l in Basics(Children(b)[i], p + Suffixes(b)[i]) :: l
  }

  function PartBasics(b: Block, p: Label, i: nat): set<Label>
    requires i < |Children(b)|
  {
    Basics(Children(b)[i], p + Suffixes(b)[i])
  }

  /** No label stands for two things. */
  ghost predicate AllDiffer(b: Block, p: Label)
    decreases b
  {
    && (forall i :: 0 <= i < |Children(b)| ==>
      {p, p + "_end"} !! PartLabels(b, p, i) && AllDiffer(Children(b)[i], p + Suffixes(b)[i]))
    && forall i, j :: 0 <= i < j < |Children(b)| ==> PartLabels(b, p, i) !! PartLabels(b, p, j)
  }

  lemma {:induction false} LabelsBegin(b: Block, p: Label, l: Label)
    ensures l in Labels(b, p) ==> p <= l
    decreases b
  {
    if l in Labels(b, p) && l != p && l != p + "_end" {
      var i :| 0 <= i < |Children(b)| && l in Labels(Children(b)[i], p + Suffixes(b)[i]);
      LabelsBegin(Children(b)[i], p + Suffixes(b)[i], l);
    }
  }

  lemma PartLabelsBegin(b: Block, p: Label, i: nat, l: Label)
    requires i < |Children(b)|
    ensures l in PartLabels(b, p, i) ==> p + Suffixes(b)[i] <= l
  {
    LabelsBegin(Children(b)[i], p + Suffixes(b)[i], l);
  }

  lemma PrefixesAgree(p: Label, s: string, t: string, l: Label)
    ensures p + s <= l && p + t <= l && |s| == |t| ==> s == t
    ensures p + s <= p + t ==> s <= t
    ensures p + s <= p ==> s == ""
  {
    if p + s <= l && p + t <= l && |s| == |t| { assert s == l[|p|..|p| + |s|] == t; }
    if p + s <= p + t { assert t == (p + t)[|p|..] && s == (p + t)[|p|..|p| + |s|]; }
  }

  lemma OwnDiffers(b: Block, p: Label, i: nat)
    requires i < |Children(b)|
    ensures {p, p + "_end"} !! PartLabels(b, p, i)
  {
    SuffixIsNoEnd(b, i);
    PrefixesAgree(p, Suffixes(b)[i], "_end", p);
    PartLabelsBegin(b, p, i, p);
    PartLabelsBegin(b, p, i, p + "_end");
  }

  lemma SiblingsDiffer(b: Block, p: Label, i: nat, j: nat)
    requires i < |Children(b)| && j < |Children(b)| && i != j
    ensures PartLabels(b, p, i) !! PartLabels(b, p, j)
  {
    SuffixesDiffer(b, i, j);
    forall l ensures !(l in PartLabels(b, p, i) && l in PartLabels(b, p, j)) {
      PartLabelsBegin(b, p, i, l);
      PartLabelsBegin(b, p, j, l);
      PrefixesAgree(p, Suffixes(b)[i], Suffixes(b)[j], l);
    }
  }

  lemma {:induction false} LabelsDiffer(b: Block, p: Label)
    ensures AllDiffer(b, p)
    decreases b
  {
    forall i | 0 <= i < |Children(b)|
      ensures {p, p + "_end"} !! PartLabels(b, p, i) && AllDiffer(Children(b)[i], p + Suffixes(b)[i])
    {
      LabelsDiffer(Children(b)[i], p + Suffixes(b)[i]);
      OwnDiffers(b, p, i);
    }
    forall i, j | 0 <= i < j < |Children(b)| ensures PartLabels(b, p, i) !! PartLabels(b, p, j) {
      SiblingsDiffer(b, p, i, j);
    }
  }

  lemma {:induction false} BasicsAreLabels(b: Block, p: Label, l: Label)
    ensures l in Basics(b, p) ==> l in Labels(b, p)
    decreases b
  {
    if l in Basics(b, p) && !b.Basic? {
      var i :| 0 <= i < |Children(b)| && l in Basics(Children(b)[i], p + Suffixes(b)[i]);
      BasicsAreLabels(Children(b)[i], p + Suffixes(b)[i], l);
      assert l in Labels(Children(b)[i], p + Suffixes(b)[i]);
    }
  }

  /** Different parts have different basic blocks. */
  lemma BasicsDiffer(b: Block, p: Label, i: nat, j: nat)
    requires i < |Children(b)| && j < |Children(b)| && i != j
    ensures PartBasics(b, p, i) !! PartBasics(b, p, j)
  {
    SiblingsDiffer(b, p, i, j);
    forall l ensures !(l in PartBasics(b, p, i) && l in PartBasics(b, p, j)) {
      BasicsAreLabels(Children(b)[i], p + Suffixes(b)[i], l);
      BasicsAreLabels(Children(b)[j], p + Suffixes(b)[j], l);
    }
  }
}
