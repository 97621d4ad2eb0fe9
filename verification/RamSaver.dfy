/**
  The sender's functions as programs over the RAM list, the dirty bitmap, the cursor and the outgoing
  file, proved to do what RamSave says.
 */
module RamSaver {
  import opened Bits
  import opened Wire
  import opened RamStream
  import opened RamSave

  /** Four bytes of the page as a host word. */
  function HostWord(p: Page, i: nat): nat
    requires 4 * i + 3 < PAGE
  {
    var a: nat, b: nat, c: nat, d: nat := p[4 * i], p[4 * i + 1], p[4 * i + 2], p[4 * i + 3];
    a + 0x100 * b + 0x1_0000 * c + 0x100_0000 * d
  }

  /** `ch` in each byte of a word. */
  function Replicated(ch: nat): nat
  {
    0x100_0000 * ch + 0x1_0000 * ch + 0x100 * ch + ch
  }

  /** is_dup_page compares words, and finds out whether all bytes are the same. */
  method IsDupPage(p: Page, ch: u8) returns (dup: bool)
    ensures dup <==> forall k :: 0 <= k < PAGE ==> p[k] == ch
  {
    var val := Replicated(ch);
    var i := 0;
    while i < PAGE / 4
      invariant 0 <= i <= PAGE / 4
      invariant forall k :: 0 <= k < 4 * i ==> p[k] == ch
    {
      SameWord(p, i, ch);
      if HostWord(p, i) != val { return false; }
      i := i + 1;
    }
    return true;
  }

  lemma SameWord(p: Page, i: nat, ch: u8)
    requires 4 * i + 3 < PAGE
    ensures HostWord(p, i) == Replicated(ch) <==> p[4 * i] == p[4 * i + 1] == p[4 * i + 2] == p[4 * i + 3] == ch
  {
    var a: nat, b: nat, c: nat, d: nat := p[4 * i], p[4 * i + 1], p[4 * i + 2], p[4 * i + 3];
    var e: nat := ch;
    LowDigit(a, b + 0x100 * (c + 0x100 * d), e, e + 0x100 * (e + 0x100 * e));
    LowDigit(b, c + 0x100 * d, e, e + 0x100 * e);
    LowDigit(c, d, e, e);
  }

  lemma LowDigit(a: nat, x: nat, b: nat, y: nat)
    requires a < 0x100 && b < 0x100
    ensures a + 0x100 * x == b + 0x100 * y <==> a == b && x == y
  {
  }

  /** The record that ram_save_block writes for a page, and the byte count it reports. */
  method Record(cont: bool, id: seq<u8>, offset: nat, p: Page) returns (record: seq<u8>, sent: nat)
    requires |id| < 256 && PAGE * offset + PAGE <= TWO64
    ensures record == PageRecord(cont, id, offset, p) && sent == if IsDup(p) then 1 else PAGE
  {
    var flag := if cont then FLAG_CONTINUE else 0;
    HeaderIsSum(offset, cont, FLAG_COMPRESS);
    HeaderIsSum(offset, cont, FLAG_PAGE);
    var dup := IsDupPage(p, p[0]);
    if dup {
      record := Be64(Header(PAGE * offset, flag, FLAG_COMPRESS));
      record := record + (if cont then [] else Counted(id));
      record := record + [p[0]];
      sent := 1;
    } else {
      record := Be64(Header(PAGE * offset, flag, FLAG_PAGE));
      record := record + (if cont then [] else Counted(id));
      record := record + p;
      sent := PAGE;
    }
  }

  /** The search that began at the cursor has passed `n` clean pages, less than all, and has come to
      page `j` of block `k`. */
  ghost predicate Searching(s: Sender, n: nat, k: int, j: int)
    requires Valid(s)
  {
    && IsSlot(s.blocks, k, j) && n < TotalPages(s.blocks)
    && Pick(s) == Scan(s, k, j, TotalPages(s.blocks) - n)
    && if s.last < 0 then n == 0
       else Distance(TotalPages(s.blocks), Rank(s.blocks, s.last, s.lastPage), Rank(s.blocks, k, j)) == n
  }

  lemma SearchBegins(s: Sender)
    requires Valid(s)
    ensures Searching(s, 0, if s.last < 0 then 0 else s.last, s.lastPage)
  {
    var k := if s.last < 0 then 0 else s.last;
    assert IsSlot(s.blocks, k, s.lastPage);
    RankIsPlace(s.blocks, k, s.lastPage);
  }

  /** After a clean page the search goes on, or is back at the cursor and has passed all pages; it is
      back exactly when the address is that of the cursor.  A clean page means there is a cursor. */
  lemma SearchGoesOn(s: Sender, n: nat, k: int, j: int)
    requires Valid(s) && Searching(s, n, k, j) && Addr(s.blocks, k, j) !in s.dirty
    ensures var next := Next(s.blocks, k, j);
      && s.last >= 0 && IsSlot(s.blocks, next.block, next.page)
      && if Addr(s.blocks, next.block, next.page) == Addr(s.blocks, s.last, s.lastPage)
         then next == At(s.last, s.lastPage) && Pick(s) == Nowhere
         else Searching(s, n + 1, next.block, next.page)
  {
    assert s.last < 0 ==> AllDirty(s);
    var next, total := Next(s.blocks, k, j), TotalPages(s.blocks);
    NextIsNext(s.blocks, k, j);
    RankIsPlace(s.blocks, k, j);
    RankIsPlace(s.blocks, s.last, s.lastPage);
    if Addr(s.blocks, next.block, next.page) == Addr(s.blocks, s.last, s.lastPage) {
      AddrInjective(s.blocks, next.block, next.page, s.last, s.lastPage);
    } else if n + 1 == total {
      RankInjective(s.blocks, next.block, next.page, s.last, s.lastPage);
    }
  }

  const EINVAL: int := 22

  class RamState {
    /** ram_list.blocks */
    var blocks: seq<RamBlock>
    /** The pages whose migration dirty bit is set. */
    var dirty: set<nat>
    /** The accelerator's own dirty log. */
    var log: set<nat>
    var lastBlock: int
    var lastOffset: nat
    var bytesTransferred: nat
    var file: seq<u8>

    ghost function State(): Sender
      reads this
    {
      Sender(blocks, dirty, log, lastBlock, lastOffset)
    }

    /** ram_save_block */
    method SaveOne() returns (sent: nat)
      requires Valid(State())
      modifies this`dirty, this`lastBlock, this`lastOffset, this`file
      ensures var r := SaveBlock(old(State())); State() == r.sender && file == old(file) + r.bytes && sent == r.count
    {
      ghost var s, n := State(), 0;
      var block, offset := lastBlock, lastOffset;
      if block < 0 { block := 0; }
      SearchBegins(s);
      PickIsDirty(s);
      while true
        invariant State() == s && file == old(file)
        invariant Searching(s, n, block, offset)
        decreases TotalPages(blocks) - n
      {
        if blocks[block].base + offset in dirty {
          sent := SaveAt(block, offset, n);
          return;
        }
        SearchGoesOn(s, n, block, offset);
        block, offset := Advance(block, offset);
        n := n + 1;
        if blocks[block].base + offset == blocks[lastBlock].base + lastOffset { break; }
      }
      lastBlock, lastOffset := block, offset;
      sent := 0;
    }

    /** A search that has come to a dirty page ends there. */
    method SaveAt(block: int, offset: nat, ghost n: nat) returns (sent: nat)
      requires Valid(State()) && Searching(State(), n, block, offset) && Addr(blocks, block, offset) in dirty
      modifies this`dirty, this`lastBlock, this`lastOffset, this`file
      ensures var r := SaveBlock(old(State())); State() == r.sender && file == old(file) + r.bytes && sent == r.count
    {
      sent := Emit(block, offset);
      lastBlock, lastOffset := block, offset;
    }

    method Advance(block: int, offset: nat) returns (b: int, o: nat)
      requires IsSlot(blocks, block, offset)
      ensures At(b, o) == Next(blocks, block, offset)
    {
      b, o := block, offset + 1;
      if o >= |blocks[b].pages| {
        o := 0;
        b := b + 1;
        if b >= |blocks| { b := 0; }
      }
    }

    /** The part of ram_save_block that clears the dirty bit and writes the record. */
    method Emit(block: int, offset: nat) returns (sent: nat)
      requires WellFormed(blocks) && IsSlot(blocks, block, offset)
      modifies this`dirty, this`file
      ensures dirty == old(dirty) - {Addr(blocks, block, offset)}
      ensures file == old(file) + RecordOf(old(State()), block, offset)
      ensures sent == if IsDup(blocks[block].pages[offset]) then 1 else PAGE
    {
      var cont := block == lastBlock;
      dirty := dirty - {blocks[block].base + offset};
      BlockFits(blocks, block);
      var record;
      record, sent := Record(cont, blocks[block].idstr, offset, blocks[block].pages[offset]);
      file := file + record;
    }

    /** sort_ram_list: the blocks are taken out, sorted, and put back at the head one by one. */
    method SortRamList()
      modifies this`blocks
      ensures blocks == SortByAddress(old(blocks))
    {
      var sorted := SortByAddress(blocks);
      var n := |sorted|;
      blocks := [];
      while n > 0
        invariant 0 <= n <= |sorted| && blocks == sorted[n..]
      {
        n := n - 1;
        blocks := [sorted[n]] + blocks;
      }
    }

    /** The loops of stage 1 that set the dirty bits. */
    method DirtyAll()
      modifies this`dirty
      ensures dirty == old(dirty) + Pages(blocks)
    {
      var k := 0;
      while k < |blocks|
        invariant 0 <= k <= |blocks| && dirty == old(dirty) + PagesBefore(blocks, k, 0)
      {
        var j := 0;
        while j < |blocks[k].pages|
          invariant 0 <= j <= |blocks[k].pages| && dirty == old(dirty) + PagesBefore(blocks, k, j)
        {
          var addr := blocks[k].base + j;
          PagesGrow(blocks, k, j);
          if addr !in dirty { dirty := dirty + {addr}; }
          j := j + 1;
        }
        PagesJoin(blocks, k);
        k := k + 1;
      }
      assert PagesBefore(blocks, |blocks|, 0) == Pages(blocks);
    }

    /** ram_save_remaining counts the dirty pages. */
    method Remaining() returns (count: nat)
      requires Apart(blocks)
      ensures count == |Pages(blocks) * dirty|
    {
      count := 0;
      var k := 0;
      CountBegins(blocks, dirty);
      while k < |blocks|
        invariant 0 <= k <= |blocks| && CountedTo(blocks, k, 0, dirty, count)
      {
        count := RemainingIn(k, count);
        k := k + 1;
      }
      CountEnds(blocks, dirty, count);
    }

    /** The inner loop of ram_save_remaining, over block `k`. */
    method RemainingIn(k: nat, before: nat) returns (count: nat)
      requires Apart(blocks) && k < |blocks| && CountedTo(blocks, k, 0, dirty, before)
      ensures CountedTo(blocks, k + 1, 0, dirty, count)
    {
      count := before;
      var j := 0;
      while j < |blocks[k].pages|
        invariant 0 <= j <= |blocks[k].pages| && CountedTo(blocks, k, j, dirty, count)
      {
        CountGrows(blocks, k, j, dirty, count);
        if blocks[k].base + j in dirty { count := count + 1; }
        j := j + 1;
      }
      CountJoins(blocks, k, dirty, count);
    }

    /** ram_bytes_total */
    method BytesTotal() returns (total: nat)
      ensures total == TotalBytes(blocks)
    {
      total := 0;
      var k := 0;
      while k < |blocks|
        invariant 0 <= k <= |blocks| && total == PAGE * Before(blocks, k)
      {
        total := total + blocks[k].Length();
        k := k + 1;
      }
      BeforeAndAfter(blocks, |blocks|);
    }

    /** The header of the stream. */
    method PutSizes()
      requires WellFormed(blocks)
      modifies this`file
      ensures file == old(file) + SizeRecord(blocks)
    {
      var total := BytesTotal();
      HeaderIsSum(TotalPages(blocks), false, FLAG_MEM_SIZE);
      file := file + Be64(Header(total, 0, FLAG_MEM_SIZE));
      Associative(old(file), Be64(total + FLAG_MEM_SIZE), BlockList(blocks));
      assert blocks[0..] == blocks;
      var k := 0;
      while k < |blocks|
        invariant 0 <= k <= |blocks|
        invariant TotalBytes(blocks[k..]) < TWO64
        invariant file + BlockList(blocks[k..]) == old(file) + SizeRecord(blocks)
      {
        BlockFits(blocks, k);
        ListStep(file, blocks[k..]);
        assert blocks[k..][1..] == blocks[k + 1..];
        file := file + Counted(blocks[k].idstr) + Be64(blocks[k].Length());
        k := k + 1;
      }
    }

    method Store(w: Write)
      modifies this`blocks, this`dirty, this`log
      ensures State() == GuestWrite(old(State()), w)
    {
      if w.block < |blocks| && w.page < |blocks[w.block].pages| {
        var b := blocks[w.block];
        blocks := blocks[w.block := b.(pages := b.pages[w.page := w.data])];
        if w.logged { log := log + {b.base + w.page}; } else { dirty := dirty + {b.base + w.page}; }
      }
    }

    method StoreAll(ws: seq<Write>)
      modifies this`blocks, this`dirty, this`log
      ensures State() == GuestWrites(old(State()), ws)
    {
      var i := 0;
      while i < |ws|
        invariant 0 <= i <= |ws| && GuestWrites(State(), ws[i..]) == GuestWrites(old(State()), ws)
      {
        Store(ws[i]);
        assert ws[i..][1..] == ws[i + 1..];
        i := i + 1;
      }
    }

    /** One turn of that loop, after the guest's writes `ws`, the first of the `script` to come. */
    method SaveRound(ws: seq<Write>, ghost script: seq<seq<Write>>) returns (sent: nat)
      requires Valid(State()) && script != [] && ws == script[0]
      modifies this
      ensures Valid(State())
      ensures old(WithFile(file, bytesTransferred, Rounds(State(), script)))
        == if sent == 0 then Sent(State(), file, bytesTransferred)
           else WithFile(file, bytesTransferred, Rounds(State(), script[1..]))
    {
      ghost var first := RoundsStep(State(), script, file, bytesTransferred);
      sent := SaveAfter(ws, first);
    }

    method SaveAfter(ws: seq<Write>, ghost r: Sent) returns (sent: nat)
      requires FirstRound(State(), ws, r)
      modifies this
      ensures State() == r.sender && file == old(file) + r.bytes && sent == r.count
      ensures bytesTransferred == old(bytesTransferred) + r.count
    {
      assert RoundIs(State(), ws, r);
      StoreAll(ws);
      sent := SaveOne();
      bytesTransferred := bytesTransferred + sent;
    }

    /** The rate-limited loop of ram_save_live. */
    method SaveRounds(script: seq<seq<Write>>)
      requires Valid(State())
      modifies this
      ensures var r := Rounds(old(State()), script);
        State() == r.sender && file == old(file) + r.bytes && bytesTransferred == old(bytesTransferred) + r.count
    {
      var i := 0;
      ghost var goal := WithFile(file, bytesTransferred, Rounds(State(), script));
      assert script[0..] == script;
      while i < |script|
        invariant 0 <= i <= |script| && Valid(State())
        invariant goal == WithFile(file, bytesTransferred, Rounds(State(), script[i..]))
      {
        var sent := SaveRound(script[i], script[i..]);
        assert script[i..][1..] == script[i + 1..];
        if sent == 0 { return; }
        i := i + 1;
      }
      assert Rounds(State(), []) == Sent(State(), [], 0);
    }

    /** The loop that ends stage 3. */
    method FlushAll()
      requires Valid(State())
      modifies this
      ensures var r := Flush(old(State()));
        State() == r.sender && file == old(file) + r.bytes && bytesTransferred == old(bytesTransferred) + r.count
    {
      ghost var goal := WithFile(file, bytesTransferred, Flush(State()));
      var more := true;
      while more
        invariant Valid(State())
        invariant goal == if more then WithFile(file, bytesTransferred, Flush(State()))
          else Sent(State(), file, bytesTransferred)
        decreases more, |dirty|
      {
        FlushStep(State(), file, bytesTransferred);
        var sent := SaveOne();
        bytesTransferred := bytesTransferred + sent;
        more := sent != 0;
      }
    }

    /** Stage 1, up to the rate-limited loop. */
    method Start()
      requires WellFormed(blocks)
      modifies this
      ensures State() == Begin(old(State())) && WellFormed(blocks)
      ensures file == old(file) + SizeRecord(blocks) && bytesTransferred == 0
    {
      bytesTransferred, lastBlock, lastOffset := 0, -1, 0;
      SortKeepsWellFormed(blocks);
      SortRamList();
      DirtyAll();
      PutSizes();
    }

    /** ram_save_live.  A negative stage cancels.  `synced` is whether the accelerator's log could be read,
        `error` what stopped the loop if that was an error, and `soon` the verdict of the time estimate. */
    method SaveLive(stage: int, script: seq<seq<Write>>, synced: bool, error: int, soon: bool) returns (status: int)
      requires (stage >= 0 ==> CanRun(State(), stage)) && error <= 0
      modifies this
      ensures stage < 0 || !synced ==>
        && State() == old(State()) && file == old(file) && bytesTransferred == old(bytesTransferred)
        && status == if stage < 0 then 0 else -EINVAL
      ensures stage >= 0 && synced && error == 0 ==> var r := Stage(old(State()), stage, script);
        && State() == r.sender && file == old(file) + r.bytes && status == (if stage == 2 && soon then 1 else 0)
        && bytesTransferred == (if stage == 1 then 0 else old(bytesTransferred)) + r.count
      ensures stage >= 0 && synced && error < 0 ==>
        && Valid(Prepare(old(State()), stage)) && status == error
        && var r := Rounds(Prepare(old(State()), stage), script);
          State() == r.sender && file == old(file) + Opening(Prepare(old(State()), stage), stage) + r.bytes
    {
      if stage < 0 { return 0; }
      if !synced { return -EINVAL; }
      PrepareIsValid(State(), stage);
      ghost var t := Prepare(State(), stage);
      Open(stage);
      SaveRounds(script);
      if error < 0 { return error; }
      ghost var r := Rounds(t, script);
      RoundsKeepValid(t, script);
      Close(stage);
      RegroupFive(old(file), Opening(t, stage), r.bytes, Closing(r.sender, stage).bytes, EosRecord());
      status := if stage == 2 && soon then 1 else 0;
    }

    method Open(stage: nat)
      requires CanRun(State(), stage)
      modifies this
      ensures State() == Prepare(old(State()), stage) && Valid(State())
      ensures file == old(file) + Opening(State(), stage)
      ensures bytesTransferred == if stage == 1 then 0 else old(bytesTransferred)
    {
      PrepareIsValid(State(), stage);
      dirty, log := dirty + log, {};
      if stage == 1 { Start(); }
    }

    method Close(stage: nat)
      requires Valid(State())
      modifies this
      ensures var f := Closing(old(State()), stage);
        && State() == f.sender && file == old(file) + f.bytes + EosRecord()
        && bytesTransferred == old(bytesTransferred) + f.count
    {
      if stage == 3 { FlushAll(); }
      file := file + EosRecord();
    }
  }

  /** The pages before page `j` of block `k`. */
  function PagesBefore(blocks: seq<RamBlock>, k: nat, j: nat): set<nat>
  {
    set a, b | 0 <= a < |blocks| && 0 <= b < |blocks[a].pages| && (a < k || (a == k && b < j)) :: Addr(blocks, a, b)
  }

  lemma PagesGrow(blocks: seq<RamBlock>, k: nat, j: nat)
    requires IsSlot(blocks, k, j)
    ensures PagesBefore(blocks, k, j + 1) == PagesBefore(blocks, k, j) + {Addr(blocks, k, j)}
  {
    forall x | x in PagesBefore(blocks, k, j + 1) ensures x in PagesBefore(blocks, k, j) + {Addr(blocks, k, j)} {
      var a, b :| 0 <= a < |blocks| && 0 <= b < |blocks[a].pages| && (a < k || (a == k && b < j + 1))
        && x == Addr(blocks, a, b);
      assert (a == k && b == j) || Addr(blocks, a, b) in PagesBefore(blocks, k, j);
    }
    assert Addr(blocks, k, j) in PagesBefore(blocks, k, j + 1);
  }

  lemma PagesJoin(blocks: seq<RamBlock>, k: nat)
    requires k < |blocks|
    ensures PagesBefore(blocks, k, |blocks[k].pages|) == PagesBefore(blocks, k + 1, 0)
  {
  }

  lemma PageIsNew(blocks: seq<RamBlock>, k: nat, j: nat)
    requires Apart(blocks) && IsSlot(blocks, k, j)
    ensures Addr(blocks, k, j) !in PagesBefore(blocks, k, j)
  {
    if Addr(blocks, k, j) in PagesBefore(blocks, k, j) {
      var a, b :| 0 <= a < |blocks| && 0 <= b < |blocks[a].pages| && (a < k || (a == k && b < j))
        && Addr(blocks, k, j) == Addr(blocks, a, b);
      AddrInjective(blocks, k, j, a, b);
    }
  }

  predicate DirtyBefore(blocks: seq<RamBlock>, k: nat, j: nat, dirty: set<nat>, n: nat)
  {
    |PagesBefore(blocks, k, j) * dirty| == n
  }

  /** `n` of them are dirty.  The quantifier keeps the set from being unfolded wherever this is known. */
  ghost predicate CountedTo(blocks: seq<RamBlock>, k: nat, j: nat, dirty: set<nat>, n: nat)
  {
    forall d :: d == dirty ==> DirtyBefore(blocks, k, j, d, n)
  }

  lemma CountBegins(blocks: seq<RamBlock>, dirty: set<nat>)
    ensures CountedTo(blocks, 0, 0, dirty, 0)
  {
    assert PagesBefore(blocks, 0, 0) * dirty == {};
    assert DirtyBefore(blocks, 0, 0, dirty, 0);
  }

  lemma OneMore(before: set<nat>, addr: nat, dirty: set<nat>)
    requires addr !in before
    ensures |(before + {addr}) * dirty| == |before * dirty| + (if addr in dirty then 1 else 0)
  {
    assert (before + {addr}) * dirty == if addr in dirty then before * dirty + {addr} else before * dirty;
  }

  lemma CountGrows(blocks: seq<RamBlock>, k: nat, j: nat, dirty: set<nat>, n: nat)
    requires Apart(blocks) && IsSlot(blocks, k, j) && CountedTo(blocks, k, j, dirty, n)
    ensures CountedTo(blocks, k, j + 1, dirty, if Addr(blocks, k, j) in dirty then n + 1 else n)
  {
    PagesGrow(blocks, k, j);
    PageIsNew(blocks, k, j);
    OneMore(PagesBefore(blocks, k, j), Addr(blocks, k, j), dirty);
    assert DirtyBefore(blocks, k, j, dirty, n);
    assert DirtyBefore(blocks, k, j + 1, dirty, if Addr(blocks, k, j) in dirty then n + 1 else n);
  }

  lemma CountJoins(blocks: seq<RamBlock>, k: nat, dirty: set<nat>, n: nat)
    requires k < |blocks| && CountedTo(blocks, k, |blocks[k].pages|, dirty, n)
    ensures CountedTo(blocks, k + 1, 0, dirty, n)
  {
    PagesJoin(blocks, k);
    assert DirtyBefore(blocks, k, |blocks[k].pages|, dirty, n);
    assert DirtyBefore(blocks, k + 1, 0, dirty, n);
  }

  lemma CountEnds(blocks: seq<RamBlock>, dirty: set<nat>, n: nat)
    requires CountedTo(blocks, |blocks|, 0, dirty, n)
    ensures n == |Pages(blocks) * dirty|
  {
    assert DirtyBefore(blocks, |blocks|, 0, dirty, n);
    assert PagesBefore(blocks, |blocks|, 0) == Pages(blocks);
  }

  /** `r` after `file` has been written and `n` counted. */
  function WithFile(file: seq<u8>, n: nat, r: Sent): Sent
  {
    Sent(r.sender, file + r.bytes, n + r.count)
  }

  ghost predicate RoundIs(s: Sender, ws: seq<Write>, r: Sent)
  {
    Valid(GuestWrites(s, ws)) && r == SaveBlock(GuestWrites(s, ws))
  }

  /** One round, after the writes `ws`, is `r`.  The quantifier keeps it from being unfolded wherever this
      is known; `assert RoundIs(...)` brings it back. */
  ghost predicate FirstRound(s: Sender, ws: seq<Write>, r: Sent)
  {
    forall x :: x == s ==> RoundIs(x, ws, r)
  }

  lemma RoundsStep(s: Sender, script: seq<seq<Write>>, file: seq<u8>, n: nat) returns (first: Sent)
    requires Valid(s) && script != []
    ensures FirstRound(s, script[0], first) && Valid(first.sender)
    ensures WithFile(file, n, Rounds(s, script)) == if first.count == 0 then WithFile(file, n, first)
      else WithFile(file + first.bytes, n + first.count, Rounds(first.sender, script[1..]))
  {
    WritesKeepValid(s, script[0]);
    first := SaveBlock(GuestWrites(s, script[0]));
    SaveBlockClearsOne(GuestWrites(s, script[0]));
    assert RoundIs(s, script[0], first);
    if first.count != 0 { Associative(file, first.bytes, Rounds(first.sender, script[1..]).bytes); }
  }

  lemma ListStep(file: seq<u8>, blocks: seq<RamBlock>)
    requires blocks != [] && Named(blocks) && TotalBytes(blocks) < TWO64
    ensures file + BlockList(blocks)
         == file + Counted(blocks[0].idstr) + Be64(blocks[0].Length()) + BlockList(blocks[1..])
  {
    Regroup(file, Counted(blocks[0].idstr), Be64(blocks[0].Length()), BlockList(blocks[1..]));
    Associative(Counted(blocks[0].idstr), Be64(blocks[0].Length()), BlockList(blocks[1..]));
  }

  lemma FlushStep(s: Sender, file: seq<u8>, n: nat)
    requires Valid(s)
    ensures var first := SaveBlock(s);
      && Valid(first.sender) && (first.count != 0 ==> |first.sender.dirty| < |s.dirty|)
      && WithFile(file, n, Flush(s)) == if first.count == 0 then WithFile(file, n, first)
          else WithFile(file + first.bytes, n + first.count, Flush(first.sender))
  {
    SaveBlockClearsOne(s);
    var first := SaveBlock(s);
    if first.count != 0 { Associative(file, first.bytes, Flush(first.sender).bytes); }
  }
}
