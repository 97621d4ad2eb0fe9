/**
  block_load as a program over the receiver's disks, proved to do what replaying the records of a
  section says.
 */
module BlockLoader {
  import opened BlockProtocol
  import opened BlockStream

  /** One turn of the loop for a block record.  `total` is the size of the device of the previous
      record, and is asked for again only when the device changes. */
  method LoadBlock(d: map<Name, seq<Sector>>, rec: Record, prev: Option<Name>, total: int)
    returns (r: Loading, total': int)
    requires rec.Block? && |rec.buf| == CHUNK
    requires prev.Some? ==> prev.value in d && total == |d[prev.value]| > 0
    ensures r == LoadRecord(d, rec)
    ensures r.Disks? ==> rec.name in r.disks && total' == |r.disks[rec.name]| > 0
  {
    total' := total;
    if rec.name !in d { return Unknown, total'; }
    if prev != Some(rec.name) {
      total' := |d[rec.name]|;
      if total' <= 0 { return Unknown, total'; }
    }
    if rec.sector > total' { return Failed, total'; }
    var nr := if total' - rec.sector < CHUNK then total' - rec.sector else CHUNK;
    var disk := d[rec.name];
    r := Disks(d[rec.name := disk[..rec.sector] + rec.buf[..nr] + disk[rec.sector + nr..]]);
  }

  /** block_load: one section, and how much of the stream it leaves. */
  method Load(disks: map<Name, seq<Sector>>, records: seq<Record>) returns (r: Loading, rest: seq<Record>)
    requires Framed(records)
    ensures Section(r, rest) == LoadSection(disks, records)
  {
    var d := disks;
    var i := 0;
    var prev: Option<Name>, total := None, 0;
    while i < |records|
      invariant 0 <= i <= |records|
      invariant LoadSection(disks, records) == LoadSection(d, records[i..])
      invariant prev.Some? ==> prev.value in d && total == |d[prev.value]| > 0
    {
      var rec := records[i];
      assert records[i..][1..] == records[i + 1..];
      if rec.Block? {
        var loaded;
        loaded, total := LoadBlock(d, rec, prev, total);
        if !loaded.Disks? { return loaded, []; }
        prev, d := Some(rec.name), loaded.disks;
      }
      if rec.Eos? { return Disks(d), records[i + 1..]; }
      i := i + 1;
    }
    r, rest := Failed, [];
  }

  /** The calls of block_load for a whole stream: together they replay it. */
  method LoadAll(disks: map<Name, seq<Sector>>, records: seq<Record>) returns (r: Loading)
    requires Framed(records)
    ensures r == LoadStream(disks, records)
    ensures Closed(records) ==> r == Replay(disks, records)
  {
    var rest := records;
    r := Disks(disks);
    while rest != []
      invariant Framed(rest) && r.Disks? && LoadStream(disks, records) == LoadStream(r.disks, rest)
      decreases |rest|
    {
      r, rest := Load(r.disks, rest);
      if !r.Disks? { break; }
    }
    StreamIsReplayed(disks, records);
  }
}
