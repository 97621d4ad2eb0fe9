/**
  The bucket index of the Alpha disassembler: searching only the entries of an instruction's major
  opcode finds what searching the whole table would find, exactly if the table is sorted by major
  opcode.
 */
module AlphaIndex {
  import opened Bits

  const AXP_NOPS: nat := 64

  /** An entry of the opcode table: its fixed bits and which bits those are. */
  datatype Entry = Entry(opcode: nat, mask: nat)

  /** AXP_OP */
  function Major(insn: nat): nat
  {
    And(Shr(insn, 26), 0x3f)
  }

  lemma MajorBits(insn: nat, i: nat)
    ensures Bit(Major(insn), i) <==> i < 6 && Bit(insn, i + 26)
    ensures Major(insn) < AXP_NOPS
  {
    assert Ones(6) == 0x3f && Pow2(6) == AXP_NOPS;
    BitOfAnd(Shr(insn, 26), Ones(6), i);
    BitOfOnes(6, i);
    BitOfShr(insn, 26, i);
    forall j: nat | j >= 6 ensures !Bit(Major(insn), j) {
      BitOfAnd(Shr(insn, 26), Ones(6), j);
      BitOfOnes(6, j);
    }
    BoundedByBits(Major(insn), 6);
  }

  /** The mask covers the major opcode. */
  predicate CoversMajor(e: Entry)
  {
    forall i :: 26 <= i < 32 ==> Bit(e.mask, i)
  }

  /** The entry matches the fixed bits of the instruction. */
  predicate Matches(e: Entry, insn: nat)
  {
    And(Xor(insn, e.opcode), e.mask) == 0
  }

  lemma MatchHasMajor(e: Entry, insn: nat)
    requires CoversMajor(e) && Matches(e, insn)
    ensures Major(e.opcode) == Major(insn)
  {
    forall i: nat ensures Bit(Major(e.opcode), i) == Bit(Major(insn), i) {
      MajorBits(e.opcode, i);
      MajorBits(insn, i);
      if i < 6 {
        BitOfAnd(Xor(insn, e.opcode), e.mask, i + 26);
        BitOfXor(insn, e.opcode, i + 26);
        BitOfZero(i + 26);
      }
    }
    Extensional(Major(e.opcode), Major(insn));
  }

  lemma OwnMatch(e: Entry)
    ensures Matches(e, e.opcode)
  {
    var x := Xor(e.opcode, e.opcode);
    forall i: nat ensures Bit(And(x, e.mask), i) == Bit(0, i) {
      BitOfAnd(x, e.mask, i);
      BitOfXor(e.opcode, e.opcode, i);
      BitOfZero(i);
    }
    Extensional(And(x, e.mask), 0);
  }

  /** Whether the other tests, of the machine and of the operands, let entry `i` pass for an
      instruction. */
  type Tests = (nat, nat) -> bool

  predicate Accepts(table: seq<Entry>, tests: Tests, insn: nat, i: nat)
    requires i < |table|
  {
    Matches(table[i], insn) && tests(i, insn)
  }

  /** The first entry from `lo` to `hi` that accepts the instruction, or -1. */
  function First(table: seq<Entry>, tests: Tests, insn: nat, lo: nat, hi: nat): int
    requires lo <= hi <= |table|
    decreases hi - lo
  {
    if lo == hi then -1
    else if Accepts(table, tests, insn, lo) then lo
    else First(table, tests, insn, lo + 1, hi)
  }

  /** `r` is the first entry from `lo` to `hi` that accepts, or -1 if there is none. */
  predicate IsFirst(table: seq<Entry>, tests: Tests, insn: nat, lo: nat, hi: nat, r: int)
    requires lo <= hi <= |table|
  {
    && (r == -1 || (lo <= r < hi && Accepts(table, tests, insn, r)))
    && forall i :: lo <= i < hi && (r < 0 || i < r) ==> !Accepts(table, tests, insn, i)
  }

  lemma {:induction false} FirstIsFirst(table: seq<Entry>, tests: Tests, insn: nat, lo: nat, hi: nat)
    requires lo <= hi <= |table|
    ensures IsFirst(table, tests, insn, lo, hi, First(table, tests, insn, lo, hi))
    decreases hi - lo
  {
    if lo == hi || Accepts(table, tests, insn, lo) {
    } else {
      FirstIsFirst(table, tests, insn, lo + 1, hi);
    }
  }

  lemma OnlyOneFirst(table: seq<Entry>, tests: Tests, insn: nat, lo: nat, hi: nat, r: int, q: int)
    requires lo <= hi <= |table| && IsFirst(table, tests, insn, lo, hi, r) && IsFirst(table, tests, insn, lo, hi, q)
    ensures r == q
  {
  }

  // ---------- the index, for any way to tell a major opcode ----------

  type Key = nat -> nat

  /** The first entry from `i` on whose major opcode is not `op`. */
  function Advance(table: seq<Entry>, key: Key, op: nat, i: nat): (r: nat)
    requires i <= |table|
    ensures i <= r <= |table| && (r < |table| ==> key(table[r].opcode) != op)
    decreases |table| - i
  {
    if i < |table| && key(table[i].opcode) == op then Advance(table, key, op, i + 1) else i
  }

  lemma {:induction false} AdvancePasses(table: seq<Entry>, key: Key, op: nat, i: nat, k: nat)
    requires i <= |table| && i <= k < Advance(table, key, op, i)
    ensures key(table[k].opcode) == op
    decreases |table| - i
  {
    if i == k {
    } else {
      AdvancePasses(table, key, op, i + 1, k);
    }
  }

  /** opcode_index[op] */
  function Index(table: seq<Entry>, key: Key, op: nat): (r: nat)
    ensures r <= |table|
  {
    if op == 0 then 0 else Advance(table, key, op - 1, Index(table, key, op - 1))
  }

  method BuildIndex(table: seq<Entry>, key: Key) returns (index: array<nat>)
    ensures index.Length == AXP_NOPS + 1 && Filled(index[..], table, key, AXP_NOPS + 1)
  {
    index := new nat[AXP_NOPS + 1](_ => 0);
    var i, op := 0, 0;
    while op < AXP_NOPS
      invariant 0 <= op <= AXP_NOPS && i == Index(table, key, op)
      invariant Filled(index[..], table, key, op)
    {
      ghost var before := index[..];
      index[op] := i;
      OneMoreFilled(before, index[..], table, key, op);
      i := SkipOp(table, key, op, i);
      op := op + 1;
    }
    ghost var before := index[..];
    index[op] := i;
    OneMoreFilled(before, index[..], table, key, op);
  }

  predicate IsIndex(x: nat, table: seq<Entry>, key: Key, op: nat)
  {
    x == Index(table, key, op)
  }

  /** The first `n` places of the index are right. */
  predicate Filled(index: seq<nat>, table: seq<Entry>, key: Key, n: nat)
  {
    n <= |index| && forall op :: 0 <= op < n ==> IsIndex(index[op], table, key, op)
  }

  lemma OneMoreFilled(a: seq<nat>, b: seq<nat>, table: seq<Entry>, key: Key, op: nat)
    requires Filled(a, table, key, op) && op < |a| == |b| && b == a[op := b[op]] && IsIndex(b[op], table, key, op)
    ensures Filled(b, table, key, op + 1)
  {
  }

  /** The inner loop: past the entries of one major opcode. */
  method SkipOp(table: seq<Entry>, key: Key, op: nat, start: nat) returns (i: nat)
    requires start <= |table|
    ensures i == Advance(table, key, op, start)
  {
    i := start;
    while i < |table| && op == key(table[i].opcode)
      invariant start <= i <= |table| && Advance(table, key, op, start) == Advance(table, key, op, i)
      decreases |table| - i
    {
      i := i + 1;
    }
  }

  /** The first entry of the bucket of the instruction's major opcode that accepts it. */
  function Bucket(table: seq<Entry>, key: Key, tests: Tests, insn: nat): int
  {
    First(table, tests, insn, Index(table, key, key(insn)), Index(table, key, key(insn) + 1))
  }

  function Whole(table: seq<Entry>, tests: Tests, insn: nat): int
  {
    First(table, tests, insn, 0, |table|)
  }

  /** The search of print_insn_alpha. */
  method Find(table: seq<Entry>, key: Key, tests: Tests, index: array<nat>, insn: nat) returns (r: int)
    requires index.Length == AXP_NOPS + 1 && key(insn) < AXP_NOPS
    requires Filled(index[..], table, key, AXP_NOPS + 1)
    ensures r == Bucket(table, key, tests, insn)
  {
    var op := key(insn);
    var i, end := index[op], index[op + 1];
    assert IsIndex(index[..][op], table, key, op) && IsIndex(index[..][op + 1], table, key, op + 1);
    while i < end
      invariant Index(table, key, op) <= i <= end
      invariant Bucket(table, key, tests, insn) == First(table, tests, insn, i, end)
    {
      if Accepts(table, tests, insn, i) { return i; }
      i := i + 1;
    }
    r := -1;
  }

  // ---------- when the two agree ----------

  predicate InStep(table: seq<Entry>, key: Key, i: nat)
    requires 0 < i < |table|
  {
    key(table[i - 1].opcode) <= key(table[i].opcode)
  }

  predicate Sorted(table: seq<Entry>, key: Key)
  {
    forall i :: 0 < i < |table| ==> InStep(table, key, i)
  }

  lemma {:induction false} SortedApart(table: seq<Entry>, key: Key, i: nat, j: nat)
    requires Sorted(table, key) && i <= j < |table|
    ensures key(table[i].opcode) <= key(table[j].opcode)
    decreases j - i
  {
    if i == j {
    } else {
      SortedApart(table, key, i, j - 1);
      assert InStep(table, key, j);
    }
  }

  /** In a sorted table the entries before opcode_index[op] are those with smaller major opcodes. */
  lemma {:induction false} IndexSplits(table: seq<Entry>, key: Key, op: nat, i: nat)
    requires Sorted(table, key) && i < |table|
    ensures i < Index(table, key, op) <==> key(table[i].opcode) < op
    decreases op
  {
    if op == 0 {
    } else {
      var a, b := Index(table, key, op - 1), Index(table, key, op);
      IndexSplits(table, key, op - 1, i);
      if a <= i < b {
        AdvancePasses(table, key, op - 1, a, i);
      } else if i >= b {
        IndexSplits(table, key, op - 1, b);
        SortedApart(table, key, b, i);
      }
    }
  }

  /** What lies before an index has been passed in an earlier bucket. */
  lemma {:induction false} PassedBefore(table: seq<Entry>, key: Key, op: nat, i: nat)
    ensures i < Index(table, key, op) ==> key(table[i].opcode) < op
    decreases op
  {
    if op == 0 {
    } else {
      var a, b := Index(table, key, op - 1), Index(table, key, op);
      PassedBefore(table, key, op - 1, i);
      if a <= i < b { AdvancePasses(table, key, op - 1, a, i); }
    }
  }

  /** An entry after one with a larger major opcode is not in its bucket. */
  lemma NotInBucket(table: seq<Entry>, key: Key, i: nat)
    requires 0 < i < |table| && key(table[i - 1].opcode) > key(table[i].opcode)
    ensures var op := key(table[i].opcode); !(Index(table, key, op) <= i < Index(table, key, op + 1))
  {
    var op := key(table[i].opcode);
    var a, b := Index(table, key, op), Index(table, key, op + 1);
    PassedBefore(table, key, op, i - 1);
    if a <= i - 1 < b { AdvancePasses(table, key, op, a, i - 1); }
  }

  /** The entries that accept an instruction have its major opcode. */
  predicate Telling(table: seq<Entry>, key: Key, insn: nat)
  {
    forall i :: 0 <= i < |table| && Matches(table[i], insn) ==> key(table[i].opcode) == key(insn)
  }

  lemma SortedAgrees(table: seq<Entry>, key: Key, tests: Tests, insn: nat)
    requires Sorted(table, key) && Telling(table, key, insn)
    ensures Bucket(table, key, tests, insn) == Whole(table, tests, insn)
  {
    var op := key(insn);
    var lo, hi := Index(table, key, op), Index(table, key, op + 1);
    forall i | 0 <= i < |table| && Accepts(table, tests, insn, i) ensures lo <= i < hi {
      IndexSplits(table, key, op, i);
      IndexSplits(table, key, op + 1, i);
    }
    FirstIsFirst(table, tests, insn, lo, hi);
    FirstIsFirst(table, tests, insn, 0, |table|);
    OnlyOneFirst(table, tests, insn, 0, |table|, Whole(table, tests, insn), Bucket(table, key, tests, insn));
  }

  predicate OnlyAt(i: nat, k: nat, insn: nat)
  {
    k == i
  }

  lemma UnsortedMisses(table: seq<Entry>, key: Key, i: nat) returns (tests: Tests)
    requires 0 < i < |table| && key(table[i - 1].opcode) > key(table[i].opcode)
    ensures Whole(table, tests, table[i].opcode) == i && Bucket(table, key, tests, table[i].opcode) != i
  {
    tests := (k: nat, insn: nat) => OnlyAt(i, k, insn);
    var insn := table[i].opcode;
    OwnMatch(table[i]);
    NotInBucket(table, key, i);
    assert IsFirst(table, tests, insn, 0, |table|, i);
    FirstIsFirst(table, tests, insn, 0, |table|);
    OnlyOneFirst(table, tests, insn, 0, |table|, Whole(table, tests, insn), i);
    FirstIsFirst(table, tests, insn, Index(table, key, key(insn)), Index(table, key, key(insn) + 1));
  }

  /** The search through the index selects what scanning the whole table selects, for every instruction
      and every outcome of the other tests, if and only if the table is sorted by major opcode. */
  lemma IndexIsRight(table: seq<Entry>, key: Key)
    requires forall insn: nat :: Telling(table, key, insn)
    ensures Sorted(table, key)
      <==> forall tests: Tests, insn: nat :: Bucket(table, key, tests, insn) == Whole(table, tests, insn)
  {
    if Sorted(table, key) {
      forall tests: Tests, insn: nat ensures Bucket(table, key, tests, insn) == Whole(table, tests, insn) {
        SortedAgrees(table, key, tests, insn);
      }
    } else {
      var i :| 0 < i < |table| && !InStep(table, key, i);
      var tests := UnsortedMisses(table, key, i);
      assert Bucket(table, key, tests, table[i].opcode) != Whole(table, tests, table[i].opcode);
    }
  }

  /** That is so of the major opcode of the Alpha, if the masks of the table cover it. */
  lemma AlphaIndexIsRight(table: seq<Entry>, key: Key)
    requires (forall x :: key(x) == Major(x)) && forall i :: 0 <= i < |table| ==> CoversMajor(table[i])
    ensures Sorted(table, key)
      <==> forall tests: Tests, insn: nat :: Bucket(table, key, tests, insn) == Whole(table, tests, insn)
  {
    forall insn: nat ensures Telling(table, key, insn) {
      forall i | 0 <= i < |table| && Matches(table[i], insn) ensures key(table[i].opcode) == key(insn) {
        MatchHasMajor(table[i], insn);
      }
    }
    IndexIsRight(table, key);
  }
}
