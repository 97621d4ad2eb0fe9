/**
  What the receiver makes of a stream: loading it section by section is replaying its records, and
  each chunk is as the last record for it says.
 */
module BlockStream {
  import opened Bits
  import opened BlockProtocol

  // ---------- sections ----------

  lemma ReplayOneMore(d0: map<Name, seq<Sector>>, out: seq<Record>, r: Record)
    requires Framed(out) && (r.Block? ==> |r.buf| == CHUNK) && Replay(d0, out).Disks?
    ensures Replay(d0, out + [r]) == LoadRecord(Replay(d0, out).disks, r)
  {
    assert (out + [r])[..|out + [r]| - 1] == out;
  }

  lemma {:induction false} ReplayFromFront(d: map<Name, seq<Sector>>, r: Record, x: seq<Record>)
    requires Framed(x) && (r.Block? ==> |r.buf| == CHUNK)
    ensures Framed([r] + x)
    ensures Replay(d, [r] + x) == match LoadRecord(d, r) case Disks(e) => Replay(e, x) case bad => bad
    decreases |x|
  {
    if x == [] {
      assert [r] + x == [] + [r];
      ReplayOneMore(d, [], r);
    } else {
      var y := x[..|x| - 1];
      ReplayFromFront(d, r, y);
      assert ([r] + x)[..|[r] + x| - 1] == [r] + y;
    }
  }

  /** A stream that stops at the end of a section. */
  predicate Closed(records: seq<Record>)
  {
    records == [] || records[|records| - 1].Eos?
  }

  /** Loading section by section is replaying, for a stream that stops at the end of a section; any
      other stream is an error. */
  lemma {:induction false} StreamIsReplayed(d: map<Name, seq<Sector>>, records: seq<Record>)
    requires Framed(records)
    ensures LoadStream(d, records) == if Replay(d, records).Disks? && !Closed(records) then Failed
      else Replay(d, records)
    decreases |records|
  {
    if records == [] {
    } else {
      var r, rest := records[0], records[1..];
      assert records == [r] + rest;
      ReplayFromFront(d, r, rest);
      if LoadRecord(d, r).Disks? {
        var e := LoadRecord(d, r).disks;
        StreamIsReplayed(e, rest);
        assert LoadSection(d, records) == if r.Eos? then Section(Disks(e), rest) else LoadSection(e, rest);
        assert rest != [] ==> Closed(records) == Closed(rest);
      }
    }
  }

  // ---------- the last record of a chunk ----------

  /** What the last record for a chunk carries. */
  function LastRecord(out: seq<Record>, name: Name, c: nat): (r: Option<seq<Sector>>)
  {
    if out == [] then None
    else
      var x := out[|out| - 1];
      if x.Block? && x.name == name && x.sector == CHUNK * c then Some(x.buf) else LastRecord(out[..|out| - 1], name, c)
  }

  lemma LastRecordOneMore(out: seq<Record>, x: Record, name: Name, c: nat)
    ensures LastRecord(out + [x], name, c)
         == if x.Block? && x.name == name && x.sector == CHUNK * c then Some(x.buf) else LastRecord(out, name, c)
  {
    assert (out + [x])[..|out + [x]| - 1] == out;
  }

  /** A buffer holds the sectors of a chunk. */
  predicate Shows(buf: seq<Sector>, disk: seq<Sector>, c: nat)
    requires |buf| == CHUNK && IsChunk(|disk|, c)
  {
    forall o :: 0 <= o < Sectors(|disk|, c) ==> buf[o] == At(disk, c, o)
  }

  /** Two buffers of a chunk hold the same sectors. */
  predicate SameSectors(a: seq<Sector>, b: seq<Sector>, total: nat, c: nat)
    requires |a| == |b| == CHUNK && IsChunk(total, c)
  {
    forall o :: 0 <= o < Sectors(total, c) ==> a[o] == b[o]
  }

  /** Every record is of a whole chunk of a disk that the receiver has. */
  predicate OnChunks(out: seq<Record>, d: map<Name, seq<Sector>>)
  {
    forall i :: 0 <= i < |out| && out[i].Block? ==> out[i].name in d && ForChunk(out[i], |d[out[i].name]|)
  }

  predicate ForChunk(r: Record, total: nat)
    requires r.Block?
  {
    |r.buf| == CHUNK && r.sector == CHUNK * (r.sector / CHUNK) < total
  }

  /** The receiver's chunk, when all records are of whole chunks: what the last record for it carries,
      and what it was before the migration if there is none. */
  predicate ChunkIs(before: seq<Sector>, after: seq<Sector>, last: Option<seq<Sector>>, c: nat)
    requires |before| == |after| && IsChunk(|before|, c) && (last.Some? ==> |last.value| == CHUNK)
  {
    if last.Some? then Shows(last.value, after, c) else SameChunk(after, before, c)
  }

  lemma OverwriteElsewhere(disk: seq<Sector>, c: nat, buf: seq<Sector>, a: nat)
    requires IsChunk(|disk|, c) && |buf| == CHUNK
    ensures IsChunk(|disk|, a) && a != c ==> SameChunk(Overwrite(disk, CHUNK * c, buf), disk, a)
    ensures Shows(buf, Overwrite(disk, CHUNK * c, buf), c)
  {
  }

  lemma OneRecordMore(before: seq<Sector>, was: seq<Sector>, last: Option<seq<Sector>>, x: Record, c: nat)
    requires |before| == |was| && IsChunk(|before|, c) && (last.Some? ==> |last.value| == CHUNK)
    requires ChunkIs(before, was, last, c)
    requires x.Block? && ForChunk(x, |was|)
    ensures ChunkIs(before, Overwrite(was, x.sector, x.buf), if x.sector == CHUNK * c then Some(x.buf) else last, c)
  {
    OverwriteElsewhere(was, x.sector / CHUNK, x.buf, c);
  }

  /** The disks after a stream of whole chunks: none is refused, and sizes stay. */
  lemma {:induction false} ReceiverKeeps(d0: map<Name, seq<Sector>>, out: seq<Record>)
    requires OnChunks(out, d0)
    ensures Framed(out) && Replay(d0, out).Disks? && Replay(d0, out).disks.Keys == d0.Keys
    ensures forall n :: n in d0 ==> |Replay(d0, out).disks[n]| == |d0[n]|
    decreases |out|
  {
    if out == [] {
    } else {
      var front, x := out[..|out| - 1], out[|out| - 1];
      assert out == front + [x];
      ReceiverKeeps(d0, front);
      ReplayOneMore(d0, front, x);
    }
  }

  /** And chunks are as the last records for them say. */
  lemma {:induction false} ReceiverHolds(d0: map<Name, seq<Sector>>, out: seq<Record>, name: Name, c: nat)
    requires OnChunks(out, d0) && name in d0 && IsChunk(|d0[name]|, c)
    ensures Framed(out) && Replay(d0, out).Disks? && name in Replay(d0, out).disks
    ensures |Replay(d0, out).disks[name]| == |d0[name]|
    ensures LastRecord(out, name, c).Some? ==> |LastRecord(out, name, c).value| == CHUNK
    ensures ChunkIs(d0[name], Replay(d0, out).disks[name], LastRecord(out, name, c), c)
    decreases |out|
  {
    ReceiverKeeps(d0, out);
    if out == [] {
    } else {
      var front, x := out[..|out| - 1], out[|out| - 1];
      assert out == front + [x];
      ReceiverHolds(d0, front, name, c);
      ReplayOneMore(d0, front, x);
      LastRecordOneMore(front, x, name, c);
      var d := Replay(d0, front).disks;
      if x.Block? && x.name == name { OneRecordMore(d0[name], d[name], LastRecord(front, name, c), x, c); }
    }
  }
}
