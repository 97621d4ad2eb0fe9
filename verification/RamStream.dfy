/**
  RAM blocks, the records that ram_save_block and ram_save_live write about them, and what ram_load
  (stream version 4) makes of those records.
 */
module RamStream {
  import opened Bits
  import opened Wire
  import Words

  /** TARGET_PAGE_BITS and TARGET_PAGE_SIZE of the ARM system target. */
  const PAGE_BITS: nat := 10
  const PAGE: nat := 1024

  const FLAG_COMPRESS: nat := 0x02
  const FLAG_MEM_SIZE: nat := 0x04
  const FLAG_PAGE: nat := 0x08
  const FLAG_EOS: nat := 0x10
  const FLAG_CONTINUE: nat := 0x20

  type Page = p: seq<u8> | |p| == PAGE witness seq(PAGE, _ => 0)

  /** A RAMBlock: its name, the page of the RAM address space it begins at, and its contents page by
      page. */
  datatype RamBlock = RamBlock(idstr: seq<u8>, base: nat, pages: seq<Page>) {
    function Length(): nat { PAGE * |pages| }
  }

  /** The index of the first block named `id`, or -1. */
  function Find(blocks: seq<RamBlock>, id: seq<u8>): (k: int)
    ensures -1 <= k < |blocks|
    ensures k >= 0 ==> blocks[k].idstr == id && forall i :: 0 <= i < k ==> blocks[i].idstr != id
    ensures k < 0 ==> forall i :: 0 <= i < |blocks| ==> blocks[i].idstr != id
  {
    if blocks == [] then -1
    else if blocks[0].idstr == id then 0
    else
      var k := Find(blocks[1..], id);
      assert forall i :: 1 <= i < |blocks| ==> blocks[i] == blocks[1..][i - 1];
      if k < 0 then -1 else k + 1
  }

  // ---------- headers: a page offset with flags in its low bits ----------

  /** `offset | cont | flag` */
  function Header(offset: nat, cont: nat, flag: nat): nat
  {
    Or(Or(offset, cont), flag)
  }

  predicate HasFlag(flags: nat, flag: nat)
  {
    And(flags, flag) != 0
  }

  /** `addr & ~TARGET_PAGE_MASK` */
  function FlagsOf(addr: nat): nat { addr % PAGE }

  /** `addr & TARGET_PAGE_MASK` */
  function OffsetOf(addr: nat): nat { addr - addr % PAGE }

  /** The two masks are what FlagsOf and OffsetOf compute. */
  lemma PageMask(addr: u64)
    ensures And(addr, PAGE - 1) == FlagsOf(addr)
    ensures And(addr, Not(64, PAGE - 1)) == OffsetOf(addr)
  {
    assert Pow2(PAGE_BITS) == PAGE;
    Words.Pow2Of64();
    OnesIsPow2Minus1(PAGE_BITS);
    MaskSplits(64, addr, PAGE_BITS);
    LowIsRemainder(PAGE_BITS, addr);
  }

  lemma OrAligned(n: nat, a: nat, b: nat)
    requires a % Pow2(n) == 0 && b < Pow2(n)
    ensures Or(a, b) == a + b
  {
    LowIsRemainder(n, a);
    forall i: nat ensures !(Bit(a, i) && Bit(b, i)) {
      if i >= n { NoBitAbove(b, n, i); } else { BitOfLow(n, a, i); BitOfZero(i); }
    }
    OrDisjoint(a, b);
  }

  lemma OrContinue(q: nat, cont: nat)
    requires cont < PAGE
    ensures Or(PAGE * q, cont) == PAGE * q + cont
  {
    assert Pow2(PAGE_BITS) == PAGE;
    OrAligned(PAGE_BITS, PAGE * q, cont);
  }

  lemma OrFlag(q: nat, flag: nat)
    requires flag < FLAG_CONTINUE
    ensures Or(FLAG_CONTINUE * q, flag) == FLAG_CONTINUE * q + flag
  {
    assert Pow2(5) == FLAG_CONTINUE;
    OrAligned(5, FLAG_CONTINUE * q, flag);
  }

  lemma SumSplits(q: nat, flags: nat)
    requires flags < PAGE
    ensures FlagsOf(PAGE * q + flags) == flags && OffsetOf(PAGE * q + flags) == PAGE * q
  {
  }

  lemma HeaderSum(q: nat, c: nat, flag: nat)
    requires c <= 1 && flag < FLAG_CONTINUE
    ensures Header(PAGE * q, FLAG_CONTINUE * c, flag) == PAGE * q + FLAG_CONTINUE * c + flag
  {
    OrContinue(q, FLAG_CONTINUE * c);
    assert PAGE * q + FLAG_CONTINUE * c == FLAG_CONTINUE * (32 * q + c);
    OrFlag(32 * q + c, flag);
  }

  /** What the sender's `|` makes is a sum, and a header comes apart into the offset and the flags it
      was made of. */
  lemma HeaderIsSum(q: nat, cont: bool, flag: nat)
    requires flag < FLAG_CONTINUE
    ensures Header(PAGE * q, ContFlag(cont), flag) == PAGE * q + ContFlag(cont) + flag
    ensures FlagsOf(PAGE * q + ContFlag(cont) + flag) == ContFlag(cont) + flag
    ensures OffsetOf(PAGE * q + ContFlag(cont) + flag) == PAGE * q
  {
    HeaderSum(q, if cont then 1 else 0, flag);
    SumSplits(q, ContFlag(cont) + flag);
  }

  function ContFlag(cont: bool): nat { if cont then FLAG_CONTINUE else 0 }

  function PageFlag(p: Page): nat { if IsDup(p) then FLAG_COMPRESS else FLAG_PAGE }

  lemma FlagTests(cont: bool)
    ensures var f := ContFlag(cont) + FLAG_COMPRESS;
      HasFlag(f, FLAG_COMPRESS) && !HasFlag(f, FLAG_MEM_SIZE) && !HasFlag(f, FLAG_EOS)
        && HasFlag(f, FLAG_CONTINUE) == cont
    ensures var f := ContFlag(cont) + FLAG_PAGE;
      HasFlag(f, FLAG_PAGE) && !HasFlag(f, FLAG_COMPRESS) && !HasFlag(f, FLAG_MEM_SIZE) && !HasFlag(f, FLAG_EOS)
      && HasFlag(f, FLAG_CONTINUE) == cont
  {
    if cont {
      assert And(0x22, 0x02) == 2 && And(0x22, 0x04) == 0 && And(0x22, 0x10) == 0 && And(0x22, 0x20) == 0x20;
      assert And(0x28, 0x08) == 8 && And(0x28, 0x02) == 0 && And(0x28, 0x04) == 0 && And(0x28, 0x10) == 0;
      assert And(0x28, 0x20) == 0x20;
    } else {
      assert And(0x02, 0x02) == 2 && And(0x02, 0x04) == 0 && And(0x02, 0x10) == 0 && And(0x02, 0x20) == 0;
      assert And(0x08, 0x08) == 8 && And(0x08, 0x02) == 0 && And(0x08, 0x04) == 0 && And(0x08, 0x10) == 0;
      assert And(0x08, 0x20) == 0;
    }
  }

  lemma LoneFlagTests()
    ensures HasFlag(FLAG_MEM_SIZE, FLAG_MEM_SIZE) && !HasFlag(FLAG_MEM_SIZE, FLAG_COMPRESS)
    ensures !HasFlag(FLAG_MEM_SIZE, FLAG_PAGE) && !HasFlag(FLAG_MEM_SIZE, FLAG_EOS)
    ensures HasFlag(FLAG_EOS, FLAG_EOS) && !HasFlag(FLAG_EOS, FLAG_MEM_SIZE)
    ensures !HasFlag(FLAG_EOS, FLAG_COMPRESS) && !HasFlag(FLAG_EOS, FLAG_PAGE)
  {
    assert And(0x04, 0x04) == 4 && And(0x04, 0x02) == 0 && And(0x04, 0x08) == 0 && And(0x04, 0x10) == 0;
    assert And(0x10, 0x10) == 0x10 && And(0x10, 0x04) == 0 && And(0x10, 0x02) == 0 && And(0x10, 0x08) == 0;
  }

  // ---------- records ----------

  /** Every byte of the page is the first one. */
  predicate IsDup(p: Page)
  {
    forall k :: 0 <= k < PAGE ==> p[k] == p[0]
  }

  function PageBody(p: Page): seq<u8>
  {
    if IsDup(p) then [p[0]] else p
  }

  function PageName(cont: bool, id: seq<u8>): seq<u8>
    requires |id| < 256
  {
    if cont then [] else Counted(id)
  }

  /** The offset with the flags in its low bits. */
  function PageHeader(cont: bool, j: nat, p: Page): u64
    requires PAGE * j + PAGE <= TWO64
  {
    PAGE * j + ContFlag(cont) + PageFlag(p)
  }

  /** The record of page `j` of the block named `id`. */
  function PageRecord(cont: bool, id: seq<u8>, j: nat, p: Page): seq<u8>
    requires |id| < 256 && PAGE * j + PAGE <= TWO64
  {
    Be64(PageHeader(cont, j, p)) + PageName(cont, id) + PageBody(p)
  }

  function EosRecord(): seq<u8>
  {
    Be64(FLAG_EOS)
  }

  function TotalPages(blocks: seq<RamBlock>): nat
  {
    if blocks == [] then 0 else |blocks[0].pages| + TotalPages(blocks[1..])
  }

  /** ram_bytes_total */
  function TotalBytes(blocks: seq<RamBlock>): nat
  {
    PAGE * TotalPages(blocks)
  }

  /** The list of block names and lengths. */
  function BlockList(blocks: seq<RamBlock>): seq<u8>
    requires forall i :: 0 <= i < |blocks| ==> |blocks[i].idstr| < 256
    requires TotalBytes(blocks) < TWO64
  {
    if blocks == [] then [] else Counted(blocks[0].idstr) + Be64(blocks[0].Length()) + BlockList(blocks[1..])
  }

  /** The record that opens the stream. */
  function SizeRecord(blocks: seq<RamBlock>): seq<u8>
    requires forall i :: 0 <= i < |blocks| ==> |blocks[i].idstr| < 256
    requires TotalBytes(blocks) < TWO64
  {
    Be64(TotalBytes(blocks) + FLAG_MEM_SIZE) + BlockList(blocks)
  }

  // ---------- loading ----------

  /** The receiver: its blocks, and the block that a record with the CONTINUE flag refers to (-1 for
      none). */
  datatype Dest = Dest(blocks: seq<RamBlock>, cur: int)

  /** Invalid: ram_load returns -EINVAL.  Fault: it writes through a null pointer or past the end of
      a block.  Truncated: the stream ends early. */
  datatype Load = Loaded(dest: Dest, rest: seq<u8>, eos: bool) | Invalid | Fault | Truncated

  /** Unsigned 64-bit subtraction. */
  function Minus(a: u64, b: u64): u64
  {
    if b <= a then a - b else a + TWO64 - b
  }

  /** The part of a name that strncmp compares. */
  function CString(id: seq<u8>): (r: seq<u8>)
    ensures (forall i :: 0 <= i < |id| ==> id[i] != 0) ==> r == id
  {
    if id == [] || id[0] == 0 then []
    else
      var r := CString(id[1..]);
      assert (forall i :: 0 <= i < |id| ==> id[i] != 0) ==> forall i :: 0 <= i < |id[1..]| ==>
        id[1..][i] == id[i + 1] != 0;
      [id[0]] + r
  }

  /** The loop of ram_load over the block list: the rest of the stream, or what went wrong. */
  function CheckBlocks(blocks: seq<RamBlock>, s: seq<u8>, total: u64): (r: Read<bool>)
    decreases |s|
  {
    if total == 0 then Got(true, s)
    else match TakeCounted(s)
      case Short => Short
      case Got(id, s1) =>
        match TakeBe64(s1)
        case Short => Short
        case Got(length, s2) =>
          var k := Find(blocks, CString(id));
          if k < 0 || blocks[k].Length() != length then Got(false, s2)
          else CheckBlocks(blocks, s2, Minus(total, length))
  }

  /** host_from_stream_offset: the block a record is about. */
  function TargetBlock(d: Dest, s: seq<u8>, flags: nat): Read<int>
  {
    if HasFlag(flags, FLAG_CONTINUE) then Got(d.cur, s)
    else match TakeCounted(s)
      case Short => Short
      case Got(id, rest) => Got(Find(d.blocks, CString(id)), rest)
  }

  /** Overwriting page `j` of block `k`. */
  function WritePage(d: Dest, k: int, j: nat, p: Page): Dest
    requires 0 <= k < |d.blocks| && j < |d.blocks[k].pages|
  {
    Dest(d.blocks[k := d.blocks[k].(pages := d.blocks[k].pages[j := p])], k)
  }

  /** The page part of a record. */
  function LoadPage(d: Dest, s: seq<u8>, offset: nat, flags: nat): Load
  {
    var eos := HasFlag(flags, FLAG_EOS);
    if HasFlag(flags, FLAG_COMPRESS) then
      match TargetBlock(d, s, flags)
      case Short => Truncated
      case Got(k, s1) =>
        if !(0 <= k < |d.blocks|) then Invalid
        else match TakeByte(s1)
          case Short => Truncated
          case Got(ch, s2) =>
            if offset / PAGE >= |d.blocks[k].pages| then Fault
            else Loaded(WritePage(d, k, offset / PAGE, seq(PAGE, _ => ch)), s2, eos)
    else if HasFlag(flags, FLAG_PAGE) then
      match TargetBlock(d, s, flags)
      case Short => Truncated
      case Got(k, s1) =>
        if !(0 <= k < |d.blocks|) || offset / PAGE >= |d.blocks[k].pages| then Fault
        else match Take(s1, PAGE)
          case Short => Truncated
          case Got(p, s2) => Loaded(WritePage(d, k, offset / PAGE, p), s2, eos)
    else Loaded(d, s, eos)
  }

  /** One turn of the loop of ram_load. */
  function LoadRecord(d: Dest, s: seq<u8>): Load
  {
    match TakeBe64(s)
    case Short => Truncated
    case Got(addr, s1) =>
      var flags, offset := FlagsOf(addr), OffsetOf(addr);
      if HasFlag(flags, FLAG_MEM_SIZE) then
        match CheckBlocks(d.blocks, s1, offset)
        case Short => Truncated
        case Got(known, s2) => if known then LoadPage(d, s2, offset, flags) else Invalid
      else LoadPage(d, s1, offset, flags)
  }

  // ---------- reading does not look ahead ----------

  lemma {:induction false} CheckBlocksExtends(blocks: seq<RamBlock>, s: seq<u8>, total: u64, more: seq<u8>)
    requires CheckBlocks(blocks, s, total).Got?
    ensures CheckBlocks(blocks, s + more, total)
         == Got(CheckBlocks(blocks, s, total).value, CheckBlocks(blocks, s, total).rest + more)
    decreases |s|
  {
    if total == 0 {
    } else {
      TakeCountedExtends(s, more);
      var s1 := TakeCounted(s).rest;
      TakeBe64Extends(s1, more);
      var length, s2 := TakeBe64(s1).value, TakeBe64(s1).rest;
      var k := Find(blocks, CString(TakeCounted(s).value));
      if k >= 0 && blocks[k].Length() == length {
        CheckBlocksExtends(blocks, s2, Minus(total, length), more);
      }
    }
  }

  lemma TargetBlockExtends(d: Dest, s: seq<u8>, flags: nat, more: seq<u8>)
    requires TargetBlock(d, s, flags).Got?
    ensures TargetBlock(d, s + more, flags) == Got(TargetBlock(d, s, flags).value, TargetBlock(d, s, flags).rest + more)
  {
    if !HasFlag(flags, FLAG_CONTINUE) { TakeCountedExtends(s, more); }
  }

  lemma LoadPageExtends(d: Dest, s: seq<u8>, offset: nat, flags: nat, more: seq<u8>)
    requires LoadPage(d, s, offset, flags).Loaded?
    ensures var r := LoadPage(d, s, offset, flags);
      LoadPage(d, s + more, offset, flags) == Loaded(r.dest, r.rest + more, r.eos)
  {
    if HasFlag(flags, FLAG_COMPRESS) {
      TargetBlockExtends(d, s, flags, more);
      TakeByteExtends(TargetBlock(d, s, flags).rest, more);
    } else if HasFlag(flags, FLAG_PAGE) {
      TargetBlockExtends(d, s, flags, more);
      TakeExtends(TargetBlock(d, s, flags).rest, PAGE, more);
    }
  }

  lemma LoadRecordExtends(d: Dest, s: seq<u8>, more: seq<u8>)
    requires LoadRecord(d, s).Loaded?
    ensures var r := LoadRecord(d, s); LoadRecord(d, s + more) == Loaded(r.dest, r.rest + more, r.eos)
  {
    TakeBe64Extends(s, more);
    var addr, s1 := TakeBe64(s).value, TakeBe64(s).rest;
    var flags, offset := FlagsOf(addr), OffsetOf(addr);
    if HasFlag(flags, FLAG_MEM_SIZE) {
      CheckBlocksExtends(d.blocks, s1, offset, more);
      LoadPageExtends(d, CheckBlocks(d.blocks, s1, offset).rest, offset, flags, more);
    } else {
      LoadPageExtends(d, s1, offset, flags, more);
    }
  }

  // ---------- loading what was saved ----------

  predicate NoZeroByte(id: seq<u8>)
  {
    forall i :: 0 <= i < |id| ==> id[i] != 0
  }

  /** The receiver takes a page record to the page it was made from. */
  lemma PageRecordLoads(d: Dest, cont: bool, id: seq<u8>, k: int, j: nat, p: Page, rest: seq<u8>)
    requires |id| < 256 && NoZeroByte(id) && PAGE * j + PAGE <= TWO64
    requires 0 <= k < |d.blocks| && j < |d.blocks[k].pages|
    requires if cont then d.cur == k else Find(d.blocks, id) == k
    ensures LoadRecord(d, PageRecord(cont, id, j, p) + rest) == Loaded(WritePage(d, k, j, p), rest, false)
  {
    Regroup(Be64(PageHeader(cont, j, p)), PageName(cont, id), PageBody(p), rest);
    HeaderLoads(d, j, cont, p, PageName(cont, id) + (PageBody(p) + rest));
    PageLoads(d, cont, id, k, j, p, rest);
  }

  lemma HeaderLoads(d: Dest, j: nat, cont: bool, p: Page, tail: seq<u8>)
    requires PAGE * j + PAGE <= TWO64
    ensures LoadRecord(d, Be64(PageHeader(cont, j, p)) + tail)
         == LoadPage(d, tail, PAGE * j, ContFlag(cont) + PageFlag(p))
  {
    SumSplits(j, ContFlag(cont) + PageFlag(p));
    FlagTests(cont);
    Be64RoundTrip(PageHeader(cont, j, p), tail);
  }

  lemma PageLoads(d: Dest, cont: bool, id: seq<u8>, k: int, j: nat, p: Page, rest: seq<u8>)
    requires |id| < 256 && NoZeroByte(id)
    requires 0 <= k < |d.blocks| && j < |d.blocks[k].pages|
    requires if cont then d.cur == k else Find(d.blocks, id) == k
    ensures LoadPage(d, PageName(cont, id) + (PageBody(p) + rest), PAGE * j, ContFlag(cont) + PageFlag(p))
         == Loaded(WritePage(d, k, j, p), rest, false)
  {
    FlagTests(cont);
    TargetBlockReads(d, cont, id, ContFlag(cont) + PageFlag(p), PageBody(p) + rest);
    assert PAGE * j / PAGE == j;
    BodyLoads(p, rest);
  }

  lemma TargetBlockReads(d: Dest, cont: bool, id: seq<u8>, flags: nat, rest: seq<u8>)
    requires |id| < 256 && NoZeroByte(id) && HasFlag(flags, FLAG_CONTINUE) == cont
    ensures TargetBlock(d, PageName(cont, id) + rest, flags)
         == Got(if cont then d.cur else Find(d.blocks, id), rest)
  {
    if cont { assert [] + rest == rest; } else { CountedRoundTrip(id, rest); }
  }

  lemma BodyLoads(p: Page, rest: seq<u8>)
    ensures IsDup(p) ==> TakeByte([p[0]] + rest) == Got(p[0], rest) && seq(PAGE, _ => p[0]) == p
    ensures !IsDup(p) ==> Take(p + rest, PAGE) == Got(p, rest)
  {
    TakeWritten(p, rest);
    assert ([p[0]] + rest)[1..] == rest;
  }

  predicate KnownAs(dst: seq<RamBlock>, block: RamBlock)
  {
    var k := Find(dst, block.idstr);
    k >= 0 && |dst[k].pages| == |block.pages|
  }

  /** Every block of `src` is known to the receiver under its name and with its length. */
  predicate Known(dst: seq<RamBlock>, src: seq<RamBlock>)
  {
    forall i :: 0 <= i < |src| ==> KnownAs(dst, src[i])
  }

  predicate Named(blocks: seq<RamBlock>)
  {
    forall i :: 0 <= i < |blocks| ==> |blocks[i].idstr| < 256 && NoZeroByte(blocks[i].idstr) && |blocks[i].pages| > 0
  }

  /** The block list is accepted exactly when the receiver has all the blocks; then all of it is read. */
  lemma {:induction false} BlockListChecks(dst: seq<RamBlock>, src: seq<RamBlock>, rest: seq<u8>)
    requires Named(src) && TotalBytes(src) < TWO64
    ensures Verdict(CheckBlocks(dst, BlockList(src) + rest, TotalBytes(src)), Known(dst, src), rest)
    decreases |src|
  {
    if src == [] {
      assert BlockList(src) + rest == rest;
    } else {
      BlockListChecks(dst, src[1..], rest);
      BlockListStep(dst, src, rest);
      KnownStep(dst, src);
    }
  }

  /** Reading went through; the blocks were `known`, and if so `rest` was left. */
  predicate Verdict(r: Read<bool>, known: bool, rest: seq<u8>)
  {
    r.Got? && r.value == known && (known ==> r.rest == rest)
  }

  lemma BlockListStep(dst: seq<RamBlock>, src: seq<RamBlock>, rest: seq<u8>)
    requires Named(src) && TotalBytes(src) < TWO64 && |src| > 0
    ensures var tail := BlockList(src[1..]) + rest;
      CheckBlocks(dst, BlockList(src) + rest, TotalBytes(src))
      == if KnownAs(dst, src[0]) then CheckBlocks(dst, tail, TotalBytes(src[1..])) else Got(false, tail)
  {
    BlockListBegins(src, rest);
    BytesLeft(src);
    CheckStep(dst, BlockList(src) + rest, src[0], BlockList(src[1..]) + rest, TotalBytes(src));
  }

  /** The stream begins with the name and the length of `block`, and then comes `tail`. */
  predicate Entry(s: seq<u8>, block: RamBlock, tail: seq<u8>)
  {
    && CString(block.idstr) == block.idstr && TakeCounted(s).Got? && TakeCounted(s).value == block.idstr
    && block.Length() < TWO64 && TakeBe64(TakeCounted(s).rest) == Got(block.Length(), tail)
  }

  /** The same, without the reading being unfolded wherever this is known. */
  ghost predicate Begins(s: seq<u8>, block: RamBlock, tail: seq<u8>)
  {
    forall x :: x == s ==> Entry(x, block, tail)
  }

  lemma BlockListBegins(src: seq<RamBlock>, rest: seq<u8>)
    requires Named(src) && TotalBytes(src) < TWO64 && |src| > 0
    ensures Begins(BlockList(src) + rest, src[0], BlockList(src[1..]) + rest)
  {
    var id, length, tail := src[0].idstr, src[0].Length(), BlockList(src[1..]) + rest;
    assert BlockList(src) + rest == Counted(id) + (Be64(length) + tail);
    CountedRoundTrip(id, Be64(length) + tail);
    Be64RoundTrip(length, tail);
    assert NoZeroByte(id);
    assert Entry(BlockList(src) + rest, src[0], tail);
  }

  lemma BytesLeft(src: seq<RamBlock>)
    requires Named(src) && |src| > 0
    ensures 0 < src[0].Length() <= TotalBytes(src) && TotalBytes(src) - src[0].Length() == TotalBytes(src[1..])
  {
  }

  lemma CheckStep(dst: seq<RamBlock>, s: seq<u8>, block: RamBlock, tail: seq<u8>, total: u64)
    requires Begins(s, block, tail) && 0 < block.Length() <= total
    ensures CheckBlocks(dst, s, total)
      == if KnownAs(dst, block) then CheckBlocks(dst, tail, total - block.Length()) else Got(false, tail)
  {
    assert Entry(s, block, tail);
  }

  lemma KnownStep(dst: seq<RamBlock>, src: seq<RamBlock>)
    requires |src| > 0
    ensures Known(dst, src) <==> KnownAs(dst, src[0]) && Known(dst, src[1..])
  {
    assert forall i :: 0 <= i < |src[1..]| ==> src[1..][i] == src[i + 1];
    if KnownAs(dst, src[0]) && Known(dst, src[1..]) {
      forall i | 0 <= i < |src| ensures KnownAs(dst, src[i]) {
        assert i > 0 ==> src[i] == src[1..][i - 1];
      }
    }
  }

  /** The opening record is accepted, changing nothing, exactly when the receiver has all the blocks. */
  lemma SizeRecordLoads(d: Dest, src: seq<RamBlock>, rest: seq<u8>)
    requires Named(src) && TotalBytes(src) < TWO64
    ensures LoadRecord(d, SizeRecord(src) + rest) == if Known(d.blocks, src) then Loaded(d, rest, false) else Invalid
  {
    SumSplits(TotalPages(src), FLAG_MEM_SIZE);
    LoneFlagTests();
    var header := TotalBytes(src) + FLAG_MEM_SIZE;
    assert SizeRecord(src) + rest == Be64(header) + (BlockList(src) + rest);
    Be64RoundTrip(header, BlockList(src) + rest);
    BlockListChecks(d.blocks, src, rest);
  }

  lemma EosLoads(d: Dest, rest: seq<u8>)
    ensures LoadRecord(d, EosRecord() + rest) == Loaded(d, rest, true)
  {
    LoneFlagTests();
    Be64RoundTrip(FLAG_EOS, rest);
  }

  // ---------- a whole section ----------

  lemma RecordIsRead(d: Dest, s: seq<u8>)
    ensures LoadRecord(d, s).Loaded? ==> |LoadRecord(d, s).rest| < |s|
  {
    if TakeBe64(s).Got? {
      var addr, s1 := TakeBe64(s).value, TakeBe64(s).rest;
      if HasFlag(FlagsOf(addr), FLAG_MEM_SIZE) { CheckBlocksReads(d.blocks, s1, OffsetOf(addr)); }
    }
  }

  lemma {:induction false} CheckBlocksReads(blocks: seq<RamBlock>, s: seq<u8>, total: u64)
    ensures CheckBlocks(blocks, s, total).Got? ==> |CheckBlocks(blocks, s, total).rest| <= |s|
    decreases |s|
  {
    if total != 0 && TakeCounted(s).Got? && TakeBe64(TakeCounted(s).rest).Got? {
      var got := TakeBe64(TakeCounted(s).rest);
      CheckBlocksReads(blocks, got.rest, Minus(total, got.value));
    }
  }

  /** ram_load: records up to and including an end-of-section record. */
  function LoadSection(d: Dest, s: seq<u8>): Load
    decreases |s|
  {
    RecordIsRead(d, s);
    match LoadRecord(d, s)
    case Loaded(d1, rest, eos) => if eos then Loaded(d1, rest, true) else LoadSection(d1, rest)
    case bad => bad
  }

  /** `s` is a sequence of whole records, none of them the end of a section, that takes `d` to `e`. */
  predicate Plays(d: Dest, s: seq<u8>, e: Dest)
    decreases |s|
  {
    if s == [] then d == e
    else
      RecordIsRead(d, s);
      var r := LoadRecord(d, s);
      r.Loaded? && !r.eos && Plays(r.dest, r.rest, e)
  }

  lemma {:induction false} PlaysTwo(d: Dest, s: seq<u8>, e: Dest, t: seq<u8>, f: Dest)
    requires Plays(d, s, e) && Plays(e, t, f)
    ensures Plays(d, s + t, f)
    decreases |s|
  {
    if s == [] {
      assert s + t == t;
    } else {
      RecordIsRead(d, s);
      LoadRecordExtends(d, s, t);
      PlaysTwo(LoadRecord(d, s).dest, LoadRecord(d, s).rest, e, t, f);
    }
  }

  /** Records followed by the end of the section are one run of ram_load, which reads no further. */
  lemma {:induction false} SectionLoads(d: Dest, s: seq<u8>, e: Dest, rest: seq<u8>)
    requires Plays(d, s, e)
    ensures LoadSection(d, s + EosRecord() + rest) == Loaded(e, rest, true)
    decreases |s|
  {
    if s == [] {
      assert s + EosRecord() + rest == EosRecord() + rest;
      EosLoads(d, rest);
    } else {
      RecordIsRead(d, s);
      var r := LoadRecord(d, s);
      LoadRecordExtends(d, s, EosRecord() + rest);
      assert s + EosRecord() + rest == s + (EosRecord() + rest);
      assert r.rest + EosRecord() + rest == r.rest + (EosRecord() + rest);
      SectionLoads(r.dest, r.rest, e, rest);
    }
  }
}
