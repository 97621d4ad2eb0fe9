/**
  The sending side of RAM migration: which page ram_save_block picks, what each stage of
  ram_save_live writes, and how guest writes reach the dirty bitmap.
 */
module RamSave {
  import opened Bits
  import opened RamStream

  /** What the sender keeps: the list of RAM blocks, the pages whose migration dirty bit is set, the
      pages written by the guest that only the accelerator's log knows of yet, and the cursor
      `last_block` (an index, -1 for NULL) and `last_offset` (in pages).  A page is identified by its
      number in the RAM address space. */
  datatype Sender = Sender(blocks: seq<RamBlock>, dirty: set<nat>, log: set<nat>, last: int, lastPage: nat)

  predicate IsSlot(blocks: seq<RamBlock>, k: int, j: int)
  {
    0 <= k < |blocks| && 0 <= j < |blocks[k].pages|
  }

  function Addr(blocks: seq<RamBlock>, k: int, j: int): nat
    requires IsSlot(blocks, k, j)
  {
    blocks[k].base + j
  }

  /** Two blocks have different names and do not overlap. */
  predicate Disjoint(x: RamBlock, y: RamBlock)
  {
    x.idstr != y.idstr && (x.base + |x.pages| <= y.base || y.base + |y.pages| <= x.base)
  }

  predicate Apart(blocks: seq<RamBlock>)
  {
    forall i, k :: 0 <= i < k < |blocks| ==> Disjoint(blocks[i], blocks[k])
  }

  predicate WellFormed(blocks: seq<RamBlock>)
  {
    |blocks| > 0 && Named(blocks) && Apart(blocks) && TotalBytes(blocks) < TWO64
  }

  ghost predicate AllDirty(s: Sender)
  {
    forall k, j :: IsSlot(s.blocks, k, j) ==> Addr(s.blocks, k, j) in s.dirty
  }

  ghost predicate NoneDirty(s: Sender)
  {
    forall k, j :: IsSlot(s.blocks, k, j) ==> Addr(s.blocks, k, j) !in s.dirty
  }

  /** Every state from stage 1 on: the cursor is a page, or no page has been sent and all are dirty. */
  ghost predicate Valid(s: Sender)
  {
    && WellFormed(s.blocks)
    && (s.last >= 0 ==> IsSlot(s.blocks, s.last, s.lastPage))
    && (s.last < 0 ==> s.last == -1 && s.lastPage == 0 && AllDirty(s))
  }

  // ---------- the round-robin order of pages ----------

  datatype Slot = At(block: int, page: int) | Nowhere

  function Next(blocks: seq<RamBlock>, k: int, j: int): Slot
    requires IsSlot(blocks, k, j)
  {
    if j + 1 < |blocks[k].pages| then At(k, j + 1) else if k + 1 < |blocks| then At(k + 1, 0) else At(0, 0)
  }

  /** The first dirty page among the `n` that begin at page `j` of block `k`. */
  function Scan(s: Sender, k: int, j: int, n: nat): Slot
    requires Named(s.blocks) && IsSlot(s.blocks, k, j)
    decreases n
  {
    if n == 0 then Nowhere
    else if Addr(s.blocks, k, j) in s.dirty then At(k, j)
    else var next := Next(s.blocks, k, j); Scan(s, next.block, next.page, n - 1)
  }

  function Before(blocks: seq<RamBlock>, k: nat): nat
    requires k <= |blocks|
  {
    if k == 0 then 0 else Before(blocks, k - 1) + |blocks[k - 1].pages|
  }

  lemma {:induction false} BeforeAndAfter(blocks: seq<RamBlock>, k: nat)
    requires k <= |blocks|
    ensures Before(blocks, k) + TotalPages(blocks[k..]) == TotalPages(blocks)
    decreases k
  {
    if k == 0 {
      assert blocks[0..] == blocks;
    } else {
      BeforeAndAfter(blocks, k - 1);
      assert blocks[k - 1..][1..] == blocks[k..];
    }
  }

  /** The place of a page in the list of all pages. */
  function Rank(blocks: seq<RamBlock>, k: int, j: int): nat
    requires IsSlot(blocks, k, j)
  {
    Before(blocks, k) + j
  }

  lemma {:induction false} BeforeGrows(blocks: seq<RamBlock>, i: nat, k: nat)
    requires i < k <= |blocks|
    ensures Before(blocks, i) + |blocks[i].pages| <= Before(blocks, k)
    decreases k
  {
    if i < k - 1 { BeforeGrows(blocks, i, k - 1); }
  }

  lemma RankIsPlace(blocks: seq<RamBlock>, k: int, j: int)
    requires IsSlot(blocks, k, j)
    ensures Rank(blocks, k, j) < TotalPages(blocks)
  {
    BeforeGrows(blocks, k, |blocks|);
    BeforeAndAfter(blocks, |blocks|);
  }

  lemma RankInjective(blocks: seq<RamBlock>, k: int, j: int, a: int, b: int)
    requires IsSlot(blocks, k, j) && IsSlot(blocks, a, b) && Rank(blocks, k, j) == Rank(blocks, a, b)
    ensures k == a && j == b
  {
    if k < a { BeforeGrows(blocks, k, a); }
    if a < k { BeforeGrows(blocks, a, k); }
  }

  /** How many pages after `from` the page of rank `to` comes, going round `n` pages. */
  function Distance(n: nat, from: nat, to: nat): int
  {
    if to >= from then to - from else to + n - from
  }

  lemma NextIsNext(blocks: seq<RamBlock>, k: int, j: int)
    requires Named(blocks) && IsSlot(blocks, k, j)
    ensures var next := Next(blocks, k, j);
      && IsSlot(blocks, next.block, next.page)
      && Rank(blocks, next.block, next.page) == if Rank(blocks, k, j) + 1 == TotalPages(blocks) then 0
        else Rank(blocks, k, j) + 1
  {
    BeforeAndAfter(blocks, |blocks|);
    BeforeGrows(blocks, k, |blocks|);
    if k + 1 < |blocks| { BeforeGrows(blocks, k + 1, |blocks|); }
  }

  ghost predicate CleanFor(s: Sender, from: nat, n: int)
  {
    forall a, b :: IsSlot(s.blocks, a, b) && Distance(TotalPages(s.blocks), from, Rank(s.blocks, a, b)) < n ==>
      Addr(s.blocks, a, b) !in s.dirty
  }

  /** Scan finds the nearest dirty page in round-robin order, and Nowhere only if there is none. */
  lemma {:induction false} ScanIsNearest(s: Sender, k: int, j: int, n: nat)
    requires Named(s.blocks) && IsSlot(s.blocks, k, j) && n <= TotalPages(s.blocks)
    ensures var from, t := Rank(s.blocks, k, j), Scan(s, k, j, n);
      if t.Nowhere? then CleanFor(s, from, n)
      else
        && IsSlot(s.blocks, t.block, t.page) && Addr(s.blocks, t.block, t.page) in s.dirty
        && CleanFor(s, from, Distance(TotalPages(s.blocks), from, Rank(s.blocks, t.block, t.page)))
    decreases n
  {
    RankIsPlace(s.blocks, k, j);
    if n > 0 && Addr(s.blocks, k, j) !in s.dirty {
      var next := Next(s.blocks, k, j);
      NextIsNext(s.blocks, k, j);
      ScanIsNearest(s, next.block, next.page, n - 1);
      var t := Scan(s, k, j, n);
      CleanStep(s, k, j, n - 1);
      if t.At? {
        RankIsPlace(s.blocks, t.block, t.page);
        if Rank(s.blocks, t.block, t.page) == Rank(s.blocks, k, j) { RankInjective(s.blocks, t.block, t.page, k, j); }
        CleanStep(s, k, j,
                  Distance(TotalPages(s.blocks), Rank(s.blocks, next.block, next.page),
                           Rank(s.blocks, t.block, t.page)));
      }
    }
  }

  lemma CleanStep(s: Sender, k: int, j: int, n: int)
    requires Named(s.blocks) && IsSlot(s.blocks, k, j) && Addr(s.blocks, k, j) !in s.dirty && n < TotalPages(s.blocks)
    requires IsSlot(s.blocks, Next(s.blocks, k, j).block, Next(s.blocks, k, j).page)
    ensures CleanFor(s, Rank(s.blocks, Next(s.blocks, k, j).block, Next(s.blocks, k, j).page), n)
        ==> CleanFor(s, Rank(s.blocks, k, j), n + 1)
  {
    NextIsNext(s.blocks, k, j);
    var next := Next(s.blocks, k, j);
    var total, from := TotalPages(s.blocks), Rank(s.blocks, k, j);
    if CleanFor(s, Rank(s.blocks, next.block, next.page), n) {
      forall a, b | IsSlot(s.blocks, a, b) && Distance(total, from, Rank(s.blocks, a, b)) < n + 1
        ensures Addr(s.blocks, a, b) !in s.dirty
      {
        RankIsPlace(s.blocks, a, b);
        if Rank(s.blocks, a, b) == from { RankInjective(s.blocks, a, b, k, j); }
      }
    }
  }

  // ---------- ram_save_block ----------

  /** A new state, the bytes written on the way to it, and the byte count that is reported. */
  datatype Sent = Sent(sender: Sender, bytes: seq<u8>, count: nat)

  function Pick(s: Sender): Slot
    requires Valid(s)
  {
    if s.last < 0 then Scan(s, 0, 0, TotalPages(s.blocks)) else Scan(s, s.last, s.lastPage, TotalPages(s.blocks))
  }

  /** Pick gives a dirty page whenever there is one. */
  lemma PickIsDirty(s: Sender)
    requires Valid(s)
    ensures Pick(s).Nowhere? <==> NoneDirty(s)
    ensures Pick(s).At? ==>
      IsSlot(s.blocks, Pick(s).block, Pick(s).page) && Addr(s.blocks, Pick(s).block, Pick(s).page) in s.dirty
    ensures Pick(s).Nowhere? ==> s.last >= 0
  {
    var k, j := if s.last < 0 then 0 else s.last, s.lastPage;
    ScanIsNearest(s, k, j, TotalPages(s.blocks));
    RankIsPlace(s.blocks, k, j);
    if Pick(s).Nowhere? {
      forall a, b | IsSlot(s.blocks, a, b) ensures Addr(s.blocks, a, b) !in s.dirty { RankIsPlace(s.blocks, a, b); }
    }
    assert IsSlot(s.blocks, k, j);
  }

  lemma {:induction false} BlockFits(blocks: seq<RamBlock>, k: nat)
    requires k < |blocks|
    ensures blocks[k].Length() <= TotalBytes(blocks)
  {
    if k == 0 {
    } else {
      BlockFits(blocks[1..], k - 1);
    }
  }

  function RecordOf(s: Sender, k: int, j: int): seq<u8>
    requires WellFormed(s.blocks) && IsSlot(s.blocks, k, j)
  {
    BlockFits(s.blocks, k);
    PageRecord(k == s.last, s.blocks[k].idstr, j, s.blocks[k].pages[j])
  }

  function Clear(s: Sender, k: int, j: int): Sender
    requires IsSlot(s.blocks, k, j)
  {
    s.(dirty := s.dirty - {Addr(s.blocks, k, j)}, last := k, lastPage := j)
  }

  function SaveBlock(s: Sender): Sent
    requires Valid(s)
  {
    PickIsDirty(s);
    match Pick(s)
    case Nowhere => Sent(s, [], 0)
    case At(k, j) => Sent(Clear(s, k, j), RecordOf(s, k, j), if IsDup(s.blocks[k].pages[j]) then 1 else PAGE)
  }

  lemma AddrInjective(blocks: seq<RamBlock>, k: int, j: int, a: int, b: int)
    requires Apart(blocks) && IsSlot(blocks, k, j) && IsSlot(blocks, a, b) && Addr(blocks, k, j) == Addr(blocks, a, b)
    ensures k == a && j == b
  {
  }

  /** ram_save_block returns 0 exactly when no page is dirty; otherwise it clears exactly one dirty
      bit, that of a page, and changes nothing but the cursor besides. */
  lemma SaveBlockClearsOne(s: Sender)
    requires Valid(s)
    ensures var r := SaveBlock(s);
      && (r.count == 0 <==> NoneDirty(s))
      && (r.count == 0 ==> r.sender == s && r.bytes == [])
      && (r.count != 0 ==> |r.sender.dirty| == |s.dirty| - 1)
      && (r.count != 0 ==>
        exists k, j :: IsSlot(s.blocks, k, j) && Addr(s.blocks, k, j) in s.dirty && r.sender == Clear(s, k, j))
      && r.sender.blocks == s.blocks && r.sender.log == s.log && Valid(r.sender)
  {
    PickIsDirty(s);
    if Pick(s).At? {
      var k, j := Pick(s).block, Pick(s).page;
      assert IsSlot(s.blocks, k, j) && Addr(s.blocks, k, j) in s.dirty && SaveBlock(s).sender == Clear(s, k, j);
    }
  }

  // ---------- guest writes ----------

  /** The guest stores `data` in a page.  The store is recorded in the dirty bitmap, or in the log that
      is merged into the bitmap at the beginning of the next stage. */
  datatype Write = Write(block: nat, page: nat, data: Page, logged: bool)

  /** A store outside the blocks is none of RAM's business. */
  function GuestWrite(s: Sender, w: Write): Sender
  {
    if !IsSlot(s.blocks, w.block, w.page) then s
    else
      var a := Addr(s.blocks, w.block, w.page);
      var b := s.blocks[w.block];
      var s1 := s.(blocks := s.blocks[w.block := b.(pages := b.pages[w.page := w.data])]);
      if w.logged then s1.(log := s.log + {a}) else s1.(dirty := s.dirty + {a})
  }

  function GuestWrites(s: Sender, ws: seq<Write>): Sender
    decreases |ws|
  {
    if ws == [] then s else GuestWrites(GuestWrite(s, ws[0]), ws[1..])
  }

  /** cpu_physical_sync_dirty_bitmap */
  function Sync(s: Sender): Sender
  {
    s.(dirty := s.dirty + s.log, log := {})
  }

  /** Block lists that differ at most in the contents of pages. */
  predicate SameShape(a: seq<RamBlock>, b: seq<RamBlock>)
  {
    && |a| == |b|
    && forall k :: 0 <= k < |a| ==> a[k].idstr == b[k].idstr && a[k].base == b[k].base && |a[k].pages| == |b[k].pages|
  }

  lemma {:induction false} SameTotal(a: seq<RamBlock>, b: seq<RamBlock>)
    requires SameShape(a, b)
    ensures TotalPages(a) == TotalPages(b)
  {
    if a == [] {
    } else {
      SameTotal(a[1..], b[1..]);
    }
  }

  lemma ShapeKeepsWellFormed(a: seq<RamBlock>, b: seq<RamBlock>)
    requires SameShape(a, b) && WellFormed(a)
    ensures WellFormed(b)
  {
    SameTotal(a, b);
  }

  lemma WriteKeepsValid(s: Sender, w: Write)
    ensures SameShape(s.blocks, GuestWrite(s, w).blocks)
    ensures Valid(s) ==> Valid(GuestWrite(s, w))
  {
    var t := GuestWrite(s, w);
    if Valid(s) {
      ShapeKeepsWellFormed(s.blocks, t.blocks);
      if t.last >= 0 { assert IsSlot(s.blocks, s.last, s.lastPage); }
      if t.last < 0 {
        forall k, j | IsSlot(t.blocks, k, j) ensures Addr(t.blocks, k, j) in t.dirty { assert IsSlot(s.blocks, k, j); }
      }
    }
  }

  lemma {:induction false} WritesKeepValid(s: Sender, ws: seq<Write>)
    ensures SameShape(s.blocks, GuestWrites(s, ws).blocks)
    ensures Valid(s) ==> Valid(GuestWrites(s, ws))
    decreases |ws|
  {
    if ws == [] {
    } else {
      WriteKeepsValid(s, ws[0]);
      WritesKeepValid(GuestWrite(s, ws[0]), ws[1..]);
    }
  }

  // ---------- the stages of ram_save_live ----------

  /** The loop of a stage: the rate limiter allows `|script|` turns, and `script[i]` is what the guest
      writes before turn `i`. */
  function Rounds(s: Sender, script: seq<seq<Write>>): Sent
    requires Valid(s)
    decreases |script|
  {
    if script == [] then Sent(s, [], 0)
    else
      WritesKeepValid(s, script[0]);
      var first := SaveBlock(GuestWrites(s, script[0]));
      SaveBlockClearsOne(GuestWrites(s, script[0]));
      if first.count == 0 then first
      else
        var others := Rounds(first.sender, script[1..]);
        Sent(others.sender, first.bytes + others.bytes, first.count + others.count)
  }

  /** The loop that ends stage 3, which stops only when no page is dirty. */
  function Flush(s: Sender): Sent
    requires Valid(s)
    decreases |s.dirty|
  {
    SaveBlockClearsOne(s);
    var first := SaveBlock(s);
    if first.count == 0 then first
    else
      var others := Flush(first.sender);
      Sent(others.sender, first.bytes + others.bytes, first.count + others.count)
  }

  predicate Sorted(blocks: seq<RamBlock>)
  {
    forall i, k :: 0 <= i < k < |blocks| ==> blocks[i].base <= blocks[k].base
  }

  function Insert(b: RamBlock, blocks: seq<RamBlock>): (r: seq<RamBlock>)
    ensures multiset(r) == multiset([b] + blocks)
  {
    if blocks == [] || b.base <= blocks[0].base then [b] + blocks
    else
      assert blocks == [blocks[0]] + blocks[1..];
      [blocks[0]] + Insert(b, blocks[1..])
  }

  /** sort_ram_list: the blocks in the order of their addresses. */
  function SortByAddress(blocks: seq<RamBlock>): (r: seq<RamBlock>)
    ensures multiset(r) == multiset(blocks)
  {
    if blocks == [] then []
    else
      assert blocks == [blocks[0]] + blocks[1..];
      Insert(blocks[0], SortByAddress(blocks[1..]))
  }

  predicate DisjointFrom(b: RamBlock, blocks: seq<RamBlock>)
  {
    forall x :: x in blocks ==> Disjoint(b, x)
  }

  lemma ApartStep(blocks: seq<RamBlock>)
    requires blocks != []
    ensures Apart(blocks) <==> DisjointFrom(blocks[0], blocks[1..]) && Apart(blocks[1..])
  {
    if DisjointFrom(blocks[0], blocks[1..]) && Apart(blocks[1..]) {
      forall i, k | 0 <= i < k < |blocks| ensures Disjoint(blocks[i], blocks[k]) {
        assert blocks[k] == blocks[1..][k - 1];
        assert i > 0 ==> blocks[i] == blocks[1..][i - 1];
      }
    }
  }

  lemma SameMembers(a: seq<RamBlock>, b: seq<RamBlock>)
    requires multiset(a) == multiset(b)
    ensures forall x :: x in a <==> x in b
  {
    assert forall x :: x in a <==> x in multiset(a);
    assert forall x :: x in b <==> x in multiset(b);
  }

  lemma {:induction false} InsertSorts(b: RamBlock, blocks: seq<RamBlock>)
    requires Sorted(blocks)
    ensures Sorted(Insert(b, blocks))
  {
    if blocks != [] && b.base > blocks[0].base {
      InsertSorts(b, blocks[1..]);
      var r := Insert(b, blocks[1..]);
      SameMembers(r, [b] + blocks[1..]);
      forall k | 0 <= k < |r| ensures blocks[0].base <= r[k].base { assert r[k] in r; }
    }
  }

  lemma {:induction false} InsertKeepsApart(b: RamBlock, blocks: seq<RamBlock>)
    requires Apart([b] + blocks)
    ensures Apart(Insert(b, blocks)) && TotalPages(Insert(b, blocks)) == |b.pages| + TotalPages(blocks)
  {
    ApartStep([b] + blocks);
    assert ([b] + blocks)[1..] == blocks;
    if blocks != [] && b.base > blocks[0].base {
      ApartStep(blocks);
      assert ([b] + blocks[1..])[1..] == blocks[1..];
      ApartStep([b] + blocks[1..]);
      InsertKeepsApart(b, blocks[1..]);
      var r := Insert(b, blocks[1..]);
      SameMembers(r, [b] + blocks[1..]);
      assert ([blocks[0]] + r)[1..] == r;
      ApartStep([blocks[0]] + r);
    }
  }

  /** Sorting gives the same blocks in the order of their addresses, and a well-formed list again. */
  lemma {:induction false} SortSorts(blocks: seq<RamBlock>)
    ensures Sorted(SortByAddress(blocks))
  {
    if blocks == [] {
    } else {
      SortSorts(blocks[1..]);
      InsertSorts(blocks[0], SortByAddress(blocks[1..]));
    }
  }

  lemma {:induction false} SortKeepsApart(blocks: seq<RamBlock>)
    requires Apart(blocks)
    ensures Apart(SortByAddress(blocks)) && TotalPages(SortByAddress(blocks)) == TotalPages(blocks)
  {
    if blocks == [] {
    } else {
      ApartStep(blocks);
      SortKeepsApart(blocks[1..]);
      var r := SortByAddress(blocks[1..]);
      SameMembers(r, blocks[1..]);
      assert ([blocks[0]] + r)[1..] == r;
      ApartStep([blocks[0]] + r);
      InsertKeepsApart(blocks[0], r);
    }
  }

  lemma SortKeepsWellFormed(blocks: seq<RamBlock>)
    requires WellFormed(blocks)
    ensures WellFormed(SortByAddress(blocks))
  {
    SortKeepsApart(blocks);
    var r := SortByAddress(blocks);
    SameMembers(r, blocks);
    assert blocks[0] in blocks;
    forall i | 0 <= i < |r| ensures |r[i].idstr| < 256 && NoZeroByte(r[i].idstr) && |r[i].pages| > 0 {
      assert r[i] in r;
    }
  }

  function Pages(blocks: seq<RamBlock>): set<nat>
  {
    set k, j | 0 <= k < |blocks| && 0 <= j < |blocks[k].pages| :: Addr(blocks, k, j)
  }

  /** What stage 1 does first: sort the list, reset the cursor, set every dirty bit. */
  function Begin(s: Sender): Sender
  {
    var blocks := SortByAddress(s.blocks);
    Sender(blocks, s.dirty + Pages(blocks), s.log, -1, 0)
  }

  lemma BeginIsValid(s: Sender)
    requires WellFormed(s.blocks)
    ensures Valid(Begin(s)) && AllDirty(Begin(s)) && multiset(Begin(s).blocks) == multiset(s.blocks)
  {
    SortKeepsWellFormed(s.blocks);
    var t := Begin(s);
    forall k, j | IsSlot(t.blocks, k, j) ensures Addr(t.blocks, k, j) in t.dirty {
      assert Addr(t.blocks, k, j) in Pages(t.blocks);
    }
  }

  lemma SyncIsValid(s: Sender)
    requires Valid(s)
    ensures Valid(Sync(s))
  {
  }

  /** Stage 1 can begin at any time, the other stages only after it. */
  ghost predicate CanRun(s: Sender, stage: nat)
  {
    if stage == 1 then WellFormed(s.blocks) else Valid(s)
  }

  function Prepare(s: Sender, stage: nat): Sender
  {
    if stage == 1 then Begin(Sync(s)) else Sync(s)
  }

  lemma PrepareIsValid(s: Sender, stage: nat)
    requires CanRun(s, stage)
    ensures Valid(Prepare(s, stage))
  {
    if stage == 1 { BeginIsValid(Sync(s)); } else { SyncIsValid(s); }
  }

  function Opening(s: Sender, stage: nat): seq<u8>
    requires Valid(s)
  {
    if stage == 1 then SizeRecord(s.blocks) else []
  }

  function Closing(s: Sender, stage: nat): Sent
    requires Valid(s)
  {
    if stage == 3 then Flush(s) else Sent(s, [], 0)
  }

  /** ram_save_live; `script` is as for Rounds. */
  function Stage(s: Sender, stage: nat, script: seq<seq<Write>>): Sent
    requires CanRun(s, stage)
  {
    PrepareIsValid(s, stage);
    var t := Prepare(s, stage);
    var r := Rounds(t, script);
    RoundsKeepValid(t, script);
    var f := Closing(r.sender, stage);
    Sent(f.sender, Opening(t, stage) + r.bytes + f.bytes + EosRecord(), r.count + f.count)
  }

  /** The script of a stopped guest. */
  function Quiet(turns: nat): seq<seq<Write>>
  {
    seq(turns, _ => [])
  }

  lemma {:induction false} RoundsKeepValid(s: Sender, script: seq<seq<Write>>)
    requires Valid(s)
    ensures Valid(Rounds(s, script).sender)
    decreases |script|
  {
    if script == [] {
    } else {
      WritesKeepValid(s, script[0]);
      var t := GuestWrites(s, script[0]);
      SaveBlockClearsOne(t);
      if SaveBlock(t).count != 0 { RoundsKeepValid(SaveBlock(t).sender, script[1..]); }
    }
  }

  lemma {:induction false} FlushKeepsValid(s: Sender)
    requires Valid(s)
    ensures Valid(Flush(s).sender)
    decreases |s.dirty|
  {
    SaveBlockClearsOne(s);
    if SaveBlock(s).count != 0 { FlushKeepsValid(SaveBlock(s).sender); }
  }

  lemma StageKeepsValid(s: Sender, stage: nat, script: seq<seq<Write>>)
    requires CanRun(s, stage)
    ensures Valid(Stage(s, stage, script).sender)
  {
    PrepareIsValid(s, stage);
    RoundsKeepValid(Prepare(s, stage), script);
    FlushKeepsValid(Rounds(Prepare(s, stage), script).sender);
  }
}
