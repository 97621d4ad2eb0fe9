/**
  Both sides of RAM migration together: whatever the guest writes while stages 1 and 2 run, after
  stage 3 the receiver that has loaded the stream holds the sender's memory.
 */
module RamMigration {
  import opened Bits
  import opened Wire
  import opened RamStream
  import opened RamSave

  // ---------- what every step keeps ----------

  /** The receiver's block for block `k` of the sender. */
  function Peer(d: Dest, blocks: seq<RamBlock>, k: int): int
    requires 0 <= k < |blocks|
  {
    Find(d.blocks, blocks[k].idstr)
  }

  /** Page `j` of block `k` has arrived, as it is now. */
  predicate SamePage(d: Dest, blocks: seq<RamBlock>, k: int, j: int)
    requires Known(d.blocks, blocks) && IsSlot(blocks, k, j)
  {
    assert KnownAs(d.blocks, blocks[k]);
    d.blocks[Peer(d, blocks, k)].pages[j] == blocks[k].pages[j]
  }

  predicate Pending(s: Sender, k: int, j: int)
    requires IsSlot(s.blocks, k, j)
  {
    Addr(s.blocks, k, j) in s.dirty + s.log
  }

  /** Every page that will not be sent again has arrived, and the block a CONTINUE record would refer
      to is the one the receiver has in mind. */
  ghost predicate Agree(s: Sender, d: Dest)
  {
    && Known(d.blocks, s.blocks)
    && (forall k, j :: IsSlot(s.blocks, k, j) && !Pending(s, k, j) ==> SamePage(d, s.blocks, k, j))
    && (s.last >= 0 ==> s.last < |s.blocks| && d.cur == Peer(d, s.blocks, s.last))
  }

  lemma {:induction false} FindByName(a: seq<RamBlock>, b: seq<RamBlock>, id: seq<u8>)
    requires |a| == |b| && forall k :: 0 <= k < |a| ==> a[k].idstr == b[k].idstr
    ensures Find(a, id) == Find(b, id)
  {
    if a == [] {
    } else {
      FindByName(a[1..], b[1..], id);
    }
  }

  lemma KnownAcross(dst: seq<RamBlock>, src: seq<RamBlock>, dst': seq<RamBlock>, src': seq<RamBlock>)
    requires Known(dst, src) && SameShape(dst, dst') && SameShape(src, src')
    ensures Known(dst', src')
    ensures forall k :: 0 <= k < |src| ==> Find(dst', src'[k].idstr) == Find(dst, src[k].idstr)
  {
    forall k | 0 <= k < |src|
      ensures KnownAs(dst', src'[k]) && Find(dst', src'[k].idstr) == Find(dst, src[k].idstr)
    {
      assert KnownAs(dst, src[k]);
      FindByName(dst, dst', src[k].idstr);
    }
  }

  // ---------- guest writes and synchronisation ----------

  lemma WriteKeepsAgree(s: Sender, w: Write, d: Dest)
    requires Apart(s.blocks) && Agree(s, d)
    ensures Agree(GuestWrite(s, w), d)
  {
    var t := GuestWrite(s, w);
    WriteKeepsValid(s, w);
    KnownAcross(d.blocks, s.blocks, d.blocks, t.blocks);
    forall k, j | IsSlot(t.blocks, k, j) && !Pending(t, k, j) ensures SamePage(d, t.blocks, k, j) {
      assert IsSlot(s.blocks, k, j) && !Pending(s, k, j);
      assert SamePage(d, s.blocks, k, j);
    }
  }

  lemma {:induction false} WritesKeepAgree(s: Sender, ws: seq<Write>, d: Dest)
    requires Valid(s) && Agree(s, d)
    ensures Valid(GuestWrites(s, ws)) && Agree(GuestWrites(s, ws), d)
    decreases |ws|
  {
    if ws == [] {
    } else {
      WriteKeepsValid(s, ws[0]);
      WriteKeepsAgree(s, ws[0], d);
      WritesKeepAgree(GuestWrite(s, ws[0]), ws[1..], d);
    }
  }

  lemma SyncKeepsAgree(s: Sender, d: Dest)
    requires Agree(s, d)
    ensures Agree(Sync(s), d)
  {
    var t := Sync(s);
    forall k, j | IsSlot(t.blocks, k, j) && !Pending(t, k, j) ensures SamePage(d, t.blocks, k, j) {
      assert !Pending(s, k, j);
    }
  }

  // ---------- ram_save_block ----------

  /** What the receiver does with the record of page `j` of block `k`. */
  function Deliver(s: Sender, d: Dest, k: int, j: int): Dest
    requires IsSlot(s.blocks, k, j) && Known(d.blocks, s.blocks)
  {
    assert KnownAs(d.blocks, s.blocks[k]);
    WritePage(d, Peer(d, s.blocks, k), j, s.blocks[k].pages[j])
  }

  /** The receiver resolves a record, with or without the CONTINUE flag, to the sender's block. */
  lemma RecordArrives(s: Sender, d: Dest, k: int, j: int)
    requires Valid(s) && Agree(s, d) && IsSlot(s.blocks, k, j)
    ensures Plays(d, RecordOf(s, k, j), Deliver(s, d, k, j))
  {
    assert KnownAs(d.blocks, s.blocks[k]);
    BlockFits(s.blocks, k);
    var r := RecordOf(s, k, j);
    PageRecordLoads(d, k == s.last, s.blocks[k].idstr, Peer(d, s.blocks, k), j, s.blocks[k].pages[j], []);
    assert r + [] == r;
  }

  lemma PeersDiffer(s: Sender, d: Dest, k: int, a: int)
    requires Apart(s.blocks) && Known(d.blocks, s.blocks) && 0 <= k < |s.blocks| && 0 <= a < |s.blocks| && k != a
    ensures Peer(d, s.blocks, k) != Peer(d, s.blocks, a)
  {
    assert KnownAs(d.blocks, s.blocks[k]) && KnownAs(d.blocks, s.blocks[a]);
    assert Disjoint(s.blocks[if k < a then k else a], s.blocks[if k < a then a else k]);
  }

  lemma DeliverKeepsAgree(s: Sender, d: Dest, k: int, j: int)
    requires Valid(s) && Agree(s, d) && IsSlot(s.blocks, k, j)
    ensures Agree(Clear(s, k, j), Deliver(s, d, k, j))
  {
    var t, e := Clear(s, k, j), Deliver(s, d, k, j);
    assert SameShape(d.blocks, e.blocks);
    KnownAcross(d.blocks, s.blocks, e.blocks, t.blocks);
    forall a, b | IsSlot(t.blocks, a, b) && !Pending(t, a, b) ensures SamePage(e, t.blocks, a, b) {
      if a != k { PeersDiffer(s, d, k, a); }
      if a != k || b != j {
        assert !Pending(s, a, b) by { if Addr(s.blocks, a, b)
          == Addr(s.blocks, k, j) { AddrInjective(s.blocks, a, b, k, j); } }
        assert SamePage(d, s.blocks, a, b);
      }
    }
  }

  lemma SaveBlockKeepsAgree(s: Sender, d: Dest) returns (e: Dest)
    requires Valid(s) && Agree(s, d)
    ensures Plays(d, SaveBlock(s).bytes, e) && Valid(SaveBlock(s).sender) && Agree(SaveBlock(s).sender, e)
  {
    SaveBlockClearsOne(s);
    PickIsDirty(s);
    if Pick(s).Nowhere? {
      e := d;
    } else {
      var k, j := Pick(s).block, Pick(s).page;
      RecordArrives(s, d, k, j);
      DeliverKeepsAgree(s, d, k, j);
      e := Deliver(s, d, k, j);
    }
  }

  // ---------- the loops ----------

  lemma {:induction false} RoundsKeepAgree(s: Sender, script: seq<seq<Write>>, d: Dest) returns (e: Dest)
    requires Valid(s) && Agree(s, d)
    ensures Plays(d, Rounds(s, script).bytes, e) && Valid(Rounds(s, script).sender)
    ensures Agree(Rounds(s, script).sender, e)
    decreases |script|
  {
    if script == [] {
      e := d;
    } else {
      WritesKeepAgree(s, script[0], d);
      var t := GuestWrites(s, script[0]);
      e := SaveBlockKeepsAgree(t, d);
      var first := SaveBlock(t);
      if first.count != 0 {
        var m := e;
        e := RoundsKeepAgree(first.sender, script[1..], m);
        PlaysTwo(d, first.bytes, m, Rounds(first.sender, script[1..]).bytes, e);
      }
    }
  }

  lemma {:induction false} FlushKeepsAgree(s: Sender, d: Dest) returns (e: Dest)
    requires Valid(s) && Agree(s, d)
    ensures Plays(d, Flush(s).bytes, e) && Valid(Flush(s).sender) && Agree(Flush(s).sender, e)
    ensures NoneDirty(Flush(s).sender) && Flush(s).sender.log == s.log && Flush(s).sender.blocks == s.blocks
    decreases |s.dirty|
  {
    SaveBlockClearsOne(s);
    e := SaveBlockKeepsAgree(s, d);
    var first := SaveBlock(s);
    if first.count != 0 {
      var m := e;
      e := FlushKeepsAgree(first.sender, m);
      PlaysTwo(d, first.bytes, m, Flush(first.sender).bytes, e);
    }
  }

  lemma {:induction false} QuietRounds(s: Sender, turns: nat)
    requires Valid(s)
    ensures Rounds(s, Quiet(turns)).sender.log == s.log && Rounds(s, Quiet(turns)).sender.blocks == s.blocks
    decreases turns
  {
    if turns == 0 {
    } else {
      SaveBlockClearsOne(s);
      assert Quiet(turns)[1..] == Quiet(turns - 1);
      if SaveBlock(s).count != 0 { QuietRounds(SaveBlock(s).sender, turns - 1); }
    }
  }

  // ---------- the stages ----------

  /** `bytes` is one section: loading it takes `d` to `e`, and reads nothing beyond it. */
  ghost predicate Section(d: Dest, bytes: seq<u8>, e: Dest)
  {
    forall rest :: LoadSection(d, bytes + rest) == Loaded(e, rest, true)
  }

  lemma SectionOf(d: Dest, bytes: seq<u8>, e: Dest)
    requires Plays(d, bytes, e)
    ensures Section(d, bytes + EosRecord(), e)
  {
    forall rest ensures LoadSection(d, bytes + EosRecord() + rest) == Loaded(e, rest, true) {
      SectionLoads(d, bytes, e, rest);
    }
  }

  lemma SortKeepsKnown(dst: seq<RamBlock>, src: seq<RamBlock>)
    ensures Known(dst, SortByAddress(src)) <==> Known(dst, src)
  {
    var r := SortByAddress(src);
    SameMembers(r, src);
    if Known(dst, src) { forall i | 0 <= i < |r| ensures KnownAs(dst, r[i]) { assert r[i] in r; } }
    if Known(dst, r) { forall i | 0 <= i < |src| ensures KnownAs(dst, src[i]) { assert src[i] in src; } }
  }

  lemma SizePlays(d: Dest, src: seq<RamBlock>)
    requires Named(src) && TotalBytes(src) < TWO64 && Known(d.blocks, src)
    ensures Plays(d, SizeRecord(src), d)
  {
    SizeRecordLoads(d, src, []);
    assert SizeRecord(src) + [] == SizeRecord(src);
  }

  /** The receiver's blocks have the contents of the sender's. */
  predicate Copied(d: Dest, blocks: seq<RamBlock>)
  {
    && Known(d.blocks, blocks)
    && forall k :: 0 <= k < |blocks| ==>
      (assert KnownAs(d.blocks, blocks[k]); d.blocks[Peer(d, blocks, k)].pages == blocks[k].pages)
  }

  lemma CopiedWhenNothingPends(s: Sender, d: Dest)
    requires Agree(s, d) && NoneDirty(s) && s.log == {}
    ensures Copied(d, s.blocks)
  {
    forall k | 0 <= k < |s.blocks|
      ensures KnownAs(d.blocks, s.blocks[k]) && d.blocks[Peer(d, s.blocks, k)].pages == s.blocks[k].pages
    {
      assert KnownAs(d.blocks, s.blocks[k]);
      forall j | 0 <= j < |s.blocks[k].pages|
        ensures d.blocks[Peer(d, s.blocks, k)].pages[j] == s.blocks[k].pages[j]
      {
        assert IsSlot(s.blocks, k, j) && !Pending(s, k, j);
        assert SamePage(d, s.blocks, k, j);
      }
    }
  }

  /** What a stage needs the receiver to be like. */
  ghost predicate Ready(s: Sender, stage: nat, d: Dest)
  {
    CanRun(s, stage) && if stage == 1 then Known(d.blocks, s.blocks) else Agree(s, d)
  }

  lemma PrepareAgrees(s: Sender, stage: nat, d: Dest)
    requires Ready(s, stage, d)
    ensures Valid(Prepare(s, stage)) && Agree(Prepare(s, stage), d) && Plays(d, Opening(Prepare(s, stage), stage), d)
  {
    PrepareIsValid(s, stage);
    if stage == 1 {
      SortKeepsKnown(d.blocks, s.blocks);
      SizePlays(d, Prepare(s, stage).blocks);
    } else {
      SyncKeepsAgree(s, d);
    }
  }

  lemma ClosingAgrees(s: Sender, stage: nat, d: Dest) returns (e: Dest)
    requires Valid(s) && Agree(s, d)
    ensures var f := Closing(s, stage); Plays(d, f.bytes, e) && Valid(f.sender) && Agree(f.sender, e)
    ensures stage == 3 ==> NoneDirty(Closing(s, stage).sender)
    ensures Closing(s, stage).sender.log == s.log && Closing(s, stage).sender.blocks == s.blocks
  {
    if stage == 3 { e := FlushKeepsAgree(s, d); } else { e := d; }
  }

  /** Loading the section of any stage restores agreement; after a stage 3 during which the guest does
      not run, the memories are the same. */
  lemma StageLoads(s: Sender, stage: nat, script: seq<seq<Write>>, d: Dest) returns (e: Dest)
    requires Ready(s, stage, d)
    ensures var r := Stage(s, stage, script); Section(d, r.bytes, e) && Valid(r.sender) && Agree(r.sender, e)
    ensures stage == 3 && script == Quiet(|script|) ==>
      Stage(s, stage, script).sender.blocks == s.blocks && Copied(e, s.blocks)
  {
    PrepareAgrees(s, stage, d);
    var t := Prepare(s, stage);
    var r := Rounds(t, script);
    var m := RoundsKeepAgree(t, script, d);
    e := ClosingAgrees(r.sender, stage, m);
    var f := Closing(r.sender, stage);
    PlaysTwo(d, Opening(t, stage), d, r.bytes, m);
    PlaysTwo(d, Opening(t, stage) + r.bytes, m, f.bytes, e);
    SectionOf(d, Opening(t, stage) + r.bytes + f.bytes, e);
    if stage == 3 && script == Quiet(|script|) {
      QuietRounds(t, |script|);
      CopiedWhenNothingPends(f.sender, e);
    }
  }

  /** A receiver that lacks a block, or has it with another length, refuses the stream. */
  lemma FirstStageRefused(s: Sender, script: seq<seq<Write>>, d: Dest, rest: seq<u8>)
    requires WellFormed(s.blocks) && !Known(d.blocks, s.blocks)
    ensures LoadSection(d, Stage(s, 1, script).bytes + rest) == Invalid
  {
    var t := Prepare(s, 1);
    PrepareIsValid(s, 1);
    RoundsKeepValid(t, script);
    SortKeepsKnown(d.blocks, s.blocks);
    var a, b, c := Rounds(t, script).bytes, Closing(Rounds(t, script).sender, 1).bytes, EosRecord();
    SizeRecordLoads(d, t.blocks, a + b + c + rest);
    RegroupFive(SizeRecord(t.blocks), a, b, c, rest);
    RefusedAtOnce(d, Stage(s, 1, script).bytes + rest);
  }

  lemma RefusedAtOnce(d: Dest, s: seq<u8>)
    requires LoadRecord(d, s) == Invalid
    ensures LoadSection(d, s) == Invalid
  {
  }

  // ---------- a whole migration ----------

  /** Loading section after section until the stream ends. */
  lemma {:induction false} SectionIsRead(d: Dest, s: seq<u8>)
    ensures LoadSection(d, s).Loaded? ==> |LoadSection(d, s).rest| < |s|
    decreases |s|
  {
    RecordIsRead(d, s);
    var r := LoadRecord(d, s);
    if r.Loaded? && !r.eos { SectionIsRead(r.dest, r.rest); }
  }

  function LoadStream(d: Dest, s: seq<u8>): Load
    decreases |s|
  {
    if s == [] then Loaded(d, [], true)
    else
      SectionIsRead(d, s);
      match LoadSection(d, s)
      case Loaded(e, rest, _) => LoadStream(e, rest)
      case bad => bad
  }

  lemma SectionThen(d: Dest, bytes: seq<u8>, e: Dest, rest: seq<u8>)
    requires Section(d, bytes, e)
    ensures LoadStream(d, bytes + rest) == LoadStream(e, rest)
  {
    assert LoadSection(d, bytes + rest) == Loaded(e, rest, true);
    SectionIsRead(d, bytes + rest);
  }

  /** Stage 2 once: what the guest writes before it, and its script. */
  datatype Round = Round(before: seq<Write>, script: seq<seq<Write>>)

  function Then(first: Sent, others: Sent): Sent
  {
    Sent(others.sender, first.bytes + others.bytes, first.count + others.count)
  }

  /** Stage 2 as often as `rounds` says, then the last guest writes and stage 3. */
  function Rest(s: Sender, rounds: seq<Round>, final: seq<Write>, turns: nat): Sent
    requires Valid(s)
    decreases |rounds|
  {
    if rounds == [] then
      WritesKeepValid(s, final);
      Stage(GuestWrites(s, final), 3, Quiet(turns))
    else
      WritesKeepValid(s, rounds[0].before);
      StageKeepsValid(GuestWrites(s, rounds[0].before), 2, rounds[0].script);
      var first := Stage(GuestWrites(s, rounds[0].before), 2, rounds[0].script);
      Then(first, Rest(first.sender, rounds[1..], final, turns))
  }

  function Migration(s: Sender, script: seq<seq<Write>>, rounds: seq<Round>, final: seq<Write>, turns: nat): Sent
    requires WellFormed(s.blocks)
  {
    StageKeepsValid(s, 1, script);
    var first := Stage(s, 1, script);
    Then(first, Rest(first.sender, rounds, final, turns))
  }

  lemma {:induction false} RestArrives(s: Sender, rounds: seq<Round>, final: seq<Write>, turns: nat, d: Dest)
    returns (e: Dest)
    requires Valid(s) && Agree(s, d)
    ensures var r := Rest(s, rounds, final, turns);
      LoadStream(d, r.bytes) == Loaded(e, [], true) && Copied(e, r.sender.blocks)
    decreases |rounds|
  {
    if rounds == [] {
      WritesKeepAgree(s, final, d);
      var t := GuestWrites(s, final);
      e := StageLoads(t, 3, Quiet(turns), d);
      var bytes := Stage(t, 3, Quiet(turns)).bytes;
      SectionThen(d, bytes, e, []);
      assert bytes + [] == bytes;
    } else {
      WritesKeepAgree(s, rounds[0].before, d);
      var t := GuestWrites(s, rounds[0].before);
      var m := StageLoads(t, 2, rounds[0].script, d);
      var first := Stage(t, 2, rounds[0].script);
      e := RestArrives(first.sender, rounds[1..], final, turns, m);
      SectionThen(d, first.bytes, m, Rest(first.sender, rounds[1..], final, turns).bytes);
    }
  }

  /** Live migration copies RAM.  For all guest writes before, between and during the stages, for all
      turns the rate limiter grants, and for every receiver: if the receiver has the sender's blocks,
      loading the stream to its end succeeds and leaves each of them with the sender's final contents;
      if it lacks one, loading is refused. */
  lemma MigrationCopiesRam(s: Sender, script: seq<seq<Write>>, rounds: seq<Round>, final: seq<Write>, turns: nat,
                           d: Dest)
    requires WellFormed(s.blocks)
    ensures var r := Migration(s, script, rounds, final, turns); var loaded := LoadStream(d, r.bytes);
      if Known(d.blocks, s.blocks) then loaded.Loaded? && loaded.rest == [] && Copied(loaded.dest, r.sender.blocks)
      else loaded == Invalid
  {
    StageKeepsValid(s, 1, script);
    var first := Stage(s, 1, script);
    var others := Rest(first.sender, rounds, final, turns);
    if Known(d.blocks, s.blocks) {
      var m := StageLoads(s, 1, script, d);
      var e := RestArrives(first.sender, rounds, final, turns, m);
      SectionThen(d, first.bytes, m, others.bytes);
    } else {
      FirstStageRefused(s, script, d, others.bytes);
    }
  }
}
