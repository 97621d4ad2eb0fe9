/**
  ram_load as a program over the receiver's memory and the incoming file, proved to do what
  RamStream says of a section.
 */
module RamLoader {
  import opened Bits
  import opened Wire
  import opened RamStream

  datatype Status = Ok | EInval | Faulted | Ended

  function StatusOf(r: Load): Status
  {
    match r
    case Loaded(_, _, _) => Ok
    case Invalid => EInval
    case Fault => Faulted
    case Truncated => Ended
  }

  class Receiver {
    var blocks: seq<RamBlock>
    /** The static `block` of host_from_stream_offset, as an index; -1 for NULL. */
    var block: int
    /** What is still to be read. */
    var file: seq<u8>

    ghost function State(): Dest
      reads this
    {
      Dest(blocks, block)
    }

    constructor (blocks: seq<RamBlock>, file: seq<u8>)
      ensures this.blocks == blocks && block == -1 && this.file == file
    {
      this.blocks, block, this.file := blocks, -1, file;
    }

    /** The QLIST_FOREACH of host_from_stream_offset and ram_load. */
    method Lookup(id: seq<u8>) returns (k: int)
      ensures k == Find(blocks, CString(id))
    {
      k := 0;
      while k < |blocks|
        invariant 0 <= k <= |blocks|
        invariant Find(blocks, CString(id)) == var r := Find(blocks[k..], CString(id)); if r < 0 then -1 else k + r
      {
        if blocks[k].idstr == CString(id) { return k; }
        assert blocks[k..][1..] == blocks[k + 1..];
        k := k + 1;
      }
      k := -1;
    }

    /** The loop that compares the sender's block list with ours. */
    method CheckList(total: u64) returns (r: Read<bool>)
      modifies this`file
      ensures r == CheckBlocks(blocks, old(file), total)
      ensures r.Got? && r.value ==> file == r.rest
    {
      var left: u64 := total;
      while left != 0
        invariant CheckBlocks(blocks, old(file), total) == CheckBlocks(blocks, file, left)
        decreases |file|
      {
        var id := TakeCounted(file);
        if id.Short? { return Short; }
        var length := TakeBe64(id.rest);
        if length.Short? { return Short; }
        var k := Lookup(id.value);
        if k < 0 || blocks[k].Length() != length.value { return Got(false, length.rest); }
        left := Minus(left, length.value);
        file := length.rest;
      }
      r := Got(true, file);
    }

    /** host_from_stream_offset, up to the block. */
    method HostBlock(flags: nat) returns (r: Read<int>)
      modifies this`file, this`block
      ensures r == TargetBlock(old(State()), old(file), flags)
      ensures r.Got? ==> block == r.value && file == r.rest
    {
      if HasFlag(flags, FLAG_CONTINUE) { return Got(block, file); }
      var id := TakeCounted(file);
      if id.Short? { return Short; }
      file := id.rest;
      block := Lookup(id.value);
      r := Got(block, file);
    }

    method StorePage(j: nat, p: Page)
      requires 0 <= block < |blocks| && j < |blocks[block].pages|
      modifies this`blocks
      ensures State() == WritePage(old(State()), block, j, p)
    {
      blocks := blocks[block := blocks[block].(pages := blocks[block].pages[j := p])];
    }

    /** The COMPRESS and PAGE branches of the loop. */
    method LoadBody(offset: nat, flags: nat) returns (status: Status)
      modifies this
      ensures var r := LoadPage(old(State()), old(file), offset, flags);
        status == StatusOf(r)
          && (r.Loaded? ==> State() == r.dest && file == r.rest && r.eos == HasFlag(flags, FLAG_EOS))
    {
      status := Ok;
      if HasFlag(flags, FLAG_COMPRESS) {
        var host := HostBlock(flags);
        if host.Short? { return Ended; }
        if !(0 <= block < |blocks|) { return EInval; }
        var ch := TakeByte(file);
        if ch.Short? { return Ended; }
        if offset / PAGE >= |blocks[block].pages| { return Faulted; }
        file := ch.rest;
        StorePage(offset / PAGE, seq(PAGE, _ => ch.value));
      } else if HasFlag(flags, FLAG_PAGE) {
        var host := HostBlock(flags);
        if host.Short? { return Ended; }
        if !(0 <= block < |blocks|) || offset / PAGE >= |blocks[block].pages| { return Faulted; }
        var p := Take(file, PAGE);
        if p.Short? { return Ended; }
        file := p.rest;
        StorePage(offset / PAGE, p.value);
      }
    }

    /** ram_load reads one section. */
    method Load() returns (status: Status)
      modifies this
      ensures var r := LoadSection(old(State()), old(file));
        status == StatusOf(r) && (r.Loaded? ==> State() == r.dest && file == r.rest)
    {
      var more := true;
      while more
        invariant more ==> LoadSection(old(State()), old(file)) == LoadSection(State(), file)
        invariant !more ==> LoadSection(old(State()), old(file)) == Loaded(State(), file, true)
        decreases more, |file|
      {
        RecordIsRead(State(), file);
        ghost var d, s := State(), file;
        var addr := TakeBe64(file);
        if addr.Short? { return Ended; }
        file := addr.rest;
        var flags, offset := FlagsOf(addr.value), OffsetOf(addr.value);
        if HasFlag(flags, FLAG_MEM_SIZE) {
          var known := CheckList(offset);
          if known.Short? { return Ended; }
          if !known.value { return EInval; }
        }
        status := LoadBody(offset, flags);
        if status != Ok { return; }
        assert LoadRecord(d, s) == Loaded(State(), file, HasFlag(flags, FLAG_EOS));
        more := !HasFlag(flags, FLAG_EOS);
      }
      status := Ok;
    }
  }
}
