/**
  What every step of the block migration protocol keeps, and what follows when the migration ends:
  the receiver's disks are the sender's.
 */
module BlockAgreement {
  import opened BlockProtocol
  import opened BlockStream

  // ---------- structure ----------

  /** The cursor of a device is at the start of a chunk or at the end, where the bulk phase is over. */
  predicate GoodDevice(d: Device)
  {
    && |d.disk| > 0 && d.curSector <= |d.disk|
    && (d.curSector == |d.disk| || CHUNK * BulkChunk(d) == d.curSector)
    && (d.bulkCompleted <==> d.curSector == |d.disk|)
    && (forall c :: c in d.dirty ==> IsChunk(|d.disk|, c)) && (forall c :: c in d.writing ==> IsChunk(|d.disk|, c))
  }

  /** A block is a read of a chunk that the bulk cursor has passed. */
  predicate GoodBlk(s: Mig, b: Blk)
  {
    && OnDisk(s, b) && CHUNK * b.chunk < s.devs[b.dev].curSector
    && forall o: nat :: o in b.got ==> o < Sectors(|s.devs[b.dev].disk|, b.chunk)
  }

  predicate GoodReads(s: Mig)
  {
    forall i :: 0 <= i < |s.inflight| ==> GoodBlk(s, s.inflight[i])
  }

  predicate GoodQueue(s: Mig)
  {
    forall i :: 0 <= i < |s.queue| ==> GoodBlk(s, s.queue[i]) && HasAll(s.queue[i], |s.devs[s.queue[i].dev].disk|)
  }

  /** A chunk in the in-flight bitmap is being read. */
  predicate Reading(s: Mig, v: nat, c: nat)
  {
    exists i :: 0 <= i < |s.inflight| && SameKey(s.inflight[i], v, c)
  }

  predicate AioIsReading(s: Mig)
  {
    forall v, c :: 0 <= v < |s.devs| && c in s.devs[v].aio ==> Reading(s, v, c)
  }

  /** Names differ, the end of the bulk phase is the end for every device, records have full buffers. */
  predicate Marked(s: Mig)
  {
    && (forall u, v :: 0 <= u < v < |s.devs| ==> s.devs[u].name != s.devs[v].name)
    && (s.bulkCompleted ==> forall v :: 0 <= v < |s.devs| ==> s.devs[v].bulkCompleted)
    && Framed(s.out)
  }

  predicate Structured(s: Mig)
  {
    && (forall v :: 0 <= v < |s.devs| ==> GoodDevice(s.devs[v]))
    && GoodReads(s) && GoodQueue(s) && AioIsReading(s) && Marked(s)
  }

  /** Devices keep their names and sizes, and their cursors do not go back. */
  predicate Onward(s: Mig, t: Mig)
  {
    && |t.devs| == |s.devs|
    && forall v :: 0 <= v < |s.devs| ==>
      && t.devs[v].name == s.devs[v].name && |t.devs[v].disk| == |s.devs[v].disk|
      && s.devs[v].curSector <= t.devs[v].curSector
  }

  lemma GoodBlkKept(s: Mig, t: Mig, b: Blk)
    requires Onward(s, t) && GoodBlk(s, b)
    ensures GoodBlk(t, b)
  {
  }

  lemma StepIsOnward(rules: Rules, s: Mig, e: Step)
    requires Structured(s) && Enabled(rules, s, e)
    ensures Onward(s, Apply(s, e))
  {
  }

  lemma BulkKeepsDevice(d: Device)
    requires GoodDevice(d) && d.curSector < |d.disk|
    ensures var c := BulkChunk(d); var end := CHUNK * c + Sectors(|d.disk|, c);
      && d.curSector < end && CHUNK * c == d.curSector
      && GoodDevice(d.(curSector := end, bulkCompleted := end >= |d.disk|))
  {
    var c := BulkChunk(d);
    var end := CHUNK * c + Sectors(|d.disk|, c);
    assert end == |d.disk| || end == CHUNK * (c + 1);
  }

  lemma DeviceKept(s: Mig, e: Step, v: nat)
    requires Enabled(Rules(false, false), s, e) && v < |s.devs| && GoodDevice(s.devs[v])
    ensures GoodDevice(Apply(s, e).devs[v])
  {
    if e.Bulk? && e.dev == v { BulkKeepsDevice(s.devs[v]); }
  }

  lemma DevicesKept(rules: Rules, s: Mig, e: Step)
    requires Structured(s) && Enabled(rules, s, e)
    ensures forall v :: 0 <= v < |Apply(s, e).devs| ==> GoodDevice(Apply(s, e).devs[v])
  {
    forall v | 0 <= v < |Apply(s, e).devs| ensures GoodDevice(Apply(s, e).devs[v]) { DeviceKept(s, e, v); }
  }

  lemma MarksKept(rules: Rules, s: Mig, e: Step)
    requires Structured(s) && Enabled(rules, s, e)
    ensures Marked(Apply(s, e))
  {
  }

  lemma ReadsKept(rules: Rules, s: Mig, e: Step)
    requires Structured(s) && Enabled(rules, s, e)
    ensures GoodReads(Apply(s, e))
  {
    StepIsOnward(rules, s, e);
    if e.Fetch? { FetchReads(s, e); }
    else if e.Bulk? || e.Dirty? { SubmitReads(s, e); }
    else { OldReads(s, e); }
  }

  lemma FetchReads(s: Mig, e: Step)
    requires GoodReads(s) && e.Fetch? && Enabled(Rules(false, false), s, e)
    ensures GoodReads(Apply(s, e))
  {
    assert GoodBlk(s, s.inflight[e.read]);
  }

  lemma SubmitReads(s: Mig, e: Step)
    requires Structured(s) && (e.Bulk? || e.Dirty?) && Enabled(Rules(false, false), s, e) && Onward(s, Apply(s, e))
    ensures GoodReads(Apply(s, e))
  {
    var t := Apply(s, e);
    assert GoodDevice(s.devs[e.dev]);
    if e.Bulk? { BulkKeepsDevice(s.devs[e.dev]); }
    forall i | 0 <= i < |t.inflight| ensures GoodBlk(t, t.inflight[i]) {
      if i < |s.inflight| { GoodBlkKept(s, t, s.inflight[i]); }
    }
  }

  lemma OldReads(s: Mig, e: Step)
    requires GoodReads(s) && !e.Fetch? && !e.Bulk? && !e.Dirty? && Enabled(Rules(false, false), s, e)
    requires Onward(s, Apply(s, e))
    ensures GoodReads(Apply(s, e))
  {
    var t := Apply(s, e);
    forall i | 0 <= i < |t.inflight| ensures GoodBlk(t, t.inflight[i]) {
      GoodBlkKept(s, t, s.inflight[if e.Complete? && i >= e.read then i + 1 else i]);
    }
  }

  lemma QueueKept(rules: Rules, s: Mig, e: Step)
    requires Structured(s) && Enabled(rules, s, e)
    ensures GoodQueue(Apply(s, e))
  {
    var t := Apply(s, e);
    StepIsOnward(rules, s, e);
    forall i | 0 <= i < |t.queue|
      ensures GoodBlk(t, t.queue[i]) && HasAll(t.queue[i], |t.devs[t.queue[i].dev].disk|)
    {
      var b := t.queue[i];
      if e.Complete? && i == |s.queue| {
        GoodBlkKept(s, t, s.inflight[e.read]);
      } else {
        assert b == s.queue[if e.Send? then i + 1 else i];
        GoodBlkKept(s, t, b);
      }
    }
  }

  lemma AioKept(rules: Rules, s: Mig, e: Step)
    requires Structured(s) && Enabled(rules, s, e)
    ensures AioIsReading(Apply(s, e))
  {
    var t := Apply(s, e);
    forall v, c | 0 <= v < |t.devs| && c in t.devs[v].aio ensures Reading(t, v, c) { StillReading(s, e, v, c); }
  }

  lemma StillReading(s: Mig, e: Step, v: nat, c: nat)
    requires AioIsReading(s) && Enabled(Rules(false, false), s, e)
    requires v < |Apply(s, e).devs| && c in Apply(s, e).devs[v].aio
    ensures Reading(Apply(s, e), v, c)
  {
    var t := Apply(s, e);
    if e.Dirty? && e.dev == v && e.chunk == c {
      assert SameKey(t.inflight[|s.inflight|], v, c);
    } else {
      assert Reading(s, v, c);
      var i :| 0 <= i < |s.inflight| && SameKey(s.inflight[i], v, c);
      var k := if e.Complete? && e.read < i then i - 1 else i;
      assert e.Complete? ==> i != e.read;
      assert SameKey(t.inflight[k], v, c);
    }
  }

  lemma StructureKept(rules: Rules, s: Mig, e: Step)
    requires Structured(s) && Enabled(rules, s, e)
    ensures Structured(Apply(s, e)) && Onward(s, Apply(s, e))
  {
    StepIsOnward(rules, s, e);
    DevicesKept(rules, s, e);
    MarksKept(rules, s, e);
    ReadsKept(rules, s, e);
    QueueKept(rules, s, e);
    AioKept(rules, s, e);
  }

  // ---------- what is on its way ----------

  /** The blocks on their way, in the order in which they will reach the stream. */
  function Pipe(s: Mig): seq<Blk>
  {
    s.queue + s.inflight
  }

  /** The last block for a chunk. */
  function Last(p: seq<Blk>, v: nat, c: nat): (r: Option<Blk>)
    ensures r.Some? ==> SameKey(r.value, v, c) && r.value in p
  {
    if p == [] then None
    else if SameKey(p[|p| - 1], v, c) then Some(p[|p| - 1])
    else Last(p[..|p| - 1], v, c)
  }

  lemma {:induction false} LastOfTwo(p: seq<Blk>, q: seq<Blk>, v: nat, c: nat)
    ensures Last(p + q, v, c) == if Last(q, v, c).Some? then Last(q, v, c) else Last(p, v, c)
    decreases |q|
  {
    if q == [] {
      assert p + q == p;
    } else {
      assert (p + q)[..|p + q| - 1] == p + q[..|q| - 1];
      LastOfTwo(p, q[..|q| - 1], v, c);
    }
  }

  lemma LastOfOne(b: Blk, v: nat, c: nat)
    ensures Last([b], v, c) == if SameKey(b, v, c) then Some(b) else None
  {
    assert [b][..0] == [];
  }

  lemma {:induction false} NoLast(p: seq<Blk>, v: nat, c: nat)
    requires forall j :: 0 <= j < |p| ==> !SameKey(p[j], v, c)
    ensures Last(p, v, c) == None
  {
    if p == [] {
    } else {
      NoLast(p[..|p| - 1], v, c);
    }
  }

  /** Taking a block out of the middle and putting it in front changes no chunk's last block, if no
      block of the same chunk was before it. */
  lemma LastAfterComplete(queue: seq<Blk>, flight: seq<Blk>, i: nat, v: nat, c: nat)
    requires i < |flight|
    requires forall j :: 0 <= j < i ==> !SameKey(flight[j], flight[i].dev, flight[i].chunk)
    ensures Last(queue + [flight[i]] + (flight[..i] + flight[i + 1..]), v, c) == Last(queue + flight, v, c)
  {
    var before, b, after := flight[..i], flight[i], flight[i + 1..];
    assert flight == before + [b] + after;
    LastOfTwo(queue + [b], before + after, v, c);
    LastOfTwo(queue, [b], v, c);
    LastOfTwo(before, after, v, c);
    LastOfTwo(queue, flight, v, c);
    LastOfTwo(before + [b], after, v, c);
    LastOfTwo(before, [b], v, c);
    LastOfOne(b, v, c);
    if SameKey(b, v, c) { NoLast(before, v, c); }
  }

  /** A block that changes keeps its place. */
  lemma LastAfterFetch(p: seq<Blk>, i: nat, b: Blk, v: nat, c: nat)
    requires i < |p| && b.dev == p[i].dev && b.chunk == p[i].chunk
    ensures Last(p[i := b], v, c) == Last(p, v, c) || (Last(p, v, c) == Some(p[i]) && Last(p[i := b], v, c) == Some(b))
  {
    var before, after := p[..i], p[i + 1..];
    assert p == before + [p[i]] + after && p[i := b] == before + [b] + after;
    LastOfTwo(before + [p[i]], after, v, c);
    LastOfTwo(before + [b], after, v, c);
    LastOfTwo(before, [p[i]], v, c);
    LastOfTwo(before, [b], v, c);
    LastOfOne(p[i], v, c);
    LastOfOne(b, v, c);
  }

  /** What a block has picked up is what the disk holds. */
  predicate Carries(b: Blk, disk: seq<Sector>)
    requires IsChunk(|disk|, b.chunk) && |b.buf| == CHUNK
  {
    forall o: nat :: o in b.got ==> o < Sectors(|disk|, b.chunk) && b.buf[o] == At(disk, b.chunk, o)
  }

  /** A chunk the bulk phase has passed and that nothing marks or will mark for another read. */
  predicate Settled(d: Device, c: nat)
  {
    CHUNK * c < d.curSector && c !in d.dirty && c !in d.writing
  }

  /** The receiver has a disk of the right size for every device. */
  predicate Fits(s: Mig, d: map<Name, seq<Sector>>)
  {
    forall v :: 0 <= v < |s.devs| ==> s.devs[v].name in d && |d[s.devs[v].name]| == |s.devs[v].disk|
  }

  /** The last block on its way for a chunk carries the chunk; if there is none, it has arrived. */
  predicate UnderWay(s: Mig, d: map<Name, seq<Sector>>, v: nat, c: nat)
    requires Structured(s) && Fits(s, d) && v < |s.devs| && IsChunk(|s.devs[v].disk|, c)
  {
    match Last(Pipe(s), v, c)
    case Some(b) => PipeIsGood(s, b); Carries(b, s.devs[v].disk)
    case None => SameChunk(d[s.devs[v].name], s.devs[v].disk, c)
  }

  lemma PipeIsGood(s: Mig, b: Blk)
    requires Structured(s) && b in Pipe(s)
    ensures GoodBlk(s, b)
  {
  }

  ghost predicate Agree(s: Mig, d: map<Name, seq<Sector>>)
    requires Structured(s) && Fits(s, d)
  {
    forall v, c: nat :: 0 <= v < |s.devs| && CHUNK * c < |s.devs[v].disk| && Settled(s.devs[v], c) ==>
      UnderWay(s, d, v, c)
  }

  // ---------- guest steps ----------

  lemma DataKeepsAgree(s: Mig, e: Step, d: map<Name, seq<Sector>>)
    requires Structured(s) && Fits(s, d) && Agree(s, d) && e.GuestData? && Enabled(ALL_RULES, s, e)
    requires Structured(Apply(s, e)) && Fits(Apply(s, e), d)
    ensures Agree(Apply(s, e), d)
  {
    var t := Apply(s, e);
    forall v, c: nat | 0 <= v < |t.devs| && CHUNK * c < |t.devs[v].disk| && Settled(t.devs[v], c)
      ensures UnderWay(t, d, v, c)
    {
      assert Settled(s.devs[v], c);
      assert UnderWay(s, d, v, c);
      if v == e.dev {
        assert c != e.chunk;
        OtherChunk(s.devs[v].disk, e.chunk, e.offset, e.data, c);
      }
    }
  }

  /** A write to one chunk leaves the others alone. */
  lemma OtherChunk(disk: seq<Sector>, c: nat, o: nat, x: Sector, a: nat)
    requires IsChunk(|disk|, c) && o < Sectors(|disk|, c) && IsChunk(|disk|, a) && a != c
    ensures SameChunk(disk[CHUNK * c + o := x], disk, a)
  {
  }

  lemma MarkKeepsAgree(s: Mig, e: Step, d: map<Name, seq<Sector>>)
    requires Structured(s) && Fits(s, d) && Agree(s, d) && e.GuestMark? && Enabled(ALL_RULES, s, e)
    requires Structured(Apply(s, e)) && Fits(Apply(s, e), d)
    ensures Agree(Apply(s, e), d)
  {
    var t := Apply(s, e);
    forall v, c: nat | 0 <= v < |t.devs| && CHUNK * c < |t.devs[v].disk| && Settled(t.devs[v], c)
      ensures UnderWay(t, d, v, c)
    {
      assert Settled(s.devs[v], c);
      assert UnderWay(s, d, v, c);
    }
  }

  // ---------- steps of a read ----------

  lemma FetchKeepsAgree(s: Mig, e: Step, d: map<Name, seq<Sector>>)
    requires Structured(s) && Fits(s, d) && Agree(s, d) && e.Fetch? && Enabled(ALL_RULES, s, e)
    requires Structured(Apply(s, e)) && Fits(Apply(s, e), d)
    ensures Agree(Apply(s, e), d)
  {
    var t := Apply(s, e);
    var k := |s.queue| + e.read;
    assert Pipe(s)[k] == s.inflight[e.read] && Pipe(t) == Pipe(s)[k := t.inflight[e.read]];
    forall v, c: nat | 0 <= v < |t.devs| && CHUNK * c < |t.devs[v].disk| && Settled(t.devs[v], c)
      ensures UnderWay(t, d, v, c)
    {
      assert Settled(s.devs[v], c);
      assert UnderWay(s, d, v, c);
      LastAfterFetch(Pipe(s), k, t.inflight[e.read], v, c);
      if Last(Pipe(t), v, c) != Last(Pipe(s), v, c) { FetchedCarries(s.inflight[e.read], s.devs[v].disk, e.offset); }
    }
  }

  lemma FetchedCarries(b: Blk, disk: seq<Sector>, o: nat)
    requires IsChunk(|disk|, b.chunk) && |b.buf| == CHUNK && Carries(b, disk) && o < Sectors(|disk|, b.chunk)
    ensures Carries(b.(buf := b.buf[o := At(disk, b.chunk, o)], got := b.got + {o}), disk)
  {
  }

  lemma CompleteKeepsAgree(s: Mig, e: Step, d: map<Name, seq<Sector>>)
    requires Structured(s) && Fits(s, d) && Agree(s, d) && e.Complete? && Enabled(ALL_RULES, s, e)
    requires Structured(Apply(s, e)) && Fits(Apply(s, e), d)
    ensures Agree(Apply(s, e), d)
  {
    var t := Apply(s, e);
    forall v, c: nat | 0 <= v < |t.devs| && CHUNK * c < |t.devs[v].disk| && Settled(t.devs[v], c)
      ensures UnderWay(t, d, v, c)
    {
      assert Settled(s.devs[v], c);
      assert UnderWay(s, d, v, c);
      LastAfterComplete(s.queue, s.inflight, e.read, v, c);
    }
  }

  /** A new read is the last block of its chunk, and has picked up nothing yet. */
  lemma SubmitKeepsUnderWay(s: Mig, t: Mig, d: map<Name, seq<Sector>>, b: Blk, v: nat, c: nat)
    requires Structured(s) && Structured(t) && Fits(s, d) && Fits(t, d) && Onward(s, t)
    requires t.queue == s.queue && t.inflight == s.inflight + [b] && b.got == {}
    requires v < |s.devs| && IsChunk(|s.devs[v].disk|, c) && t.devs[v].disk == s.devs[v].disk
    requires !SameKey(b, v, c) ==> UnderWay(s, d, v, c)
    ensures UnderWay(t, d, v, c)
  {
    assert Pipe(t) == Pipe(s) + [b];
    LastOfTwo(Pipe(s), [b], v, c);
    LastOfOne(b, v, c);
  }

  lemma BulkKeepsAgree(s: Mig, e: Step, d: map<Name, seq<Sector>>)
    requires Structured(s) && Fits(s, d) && Agree(s, d) && e.Bulk? && Enabled(ALL_RULES, s, e)
    requires Structured(Apply(s, e)) && Fits(Apply(s, e), d)
    ensures Agree(Apply(s, e), d)
  {
    var t := Apply(s, e);
    var b := t.inflight[|s.inflight|];
    BulkKeepsDevice(s.devs[e.dev]);
    forall v, c: nat | 0 <= v < |t.devs| && CHUNK * c < |t.devs[v].disk| && Settled(t.devs[v], c)
      ensures UnderWay(t, d, v, c)
    {
      if !SameKey(b, v, c) {
        assert Settled(s.devs[v], c);
        assert UnderWay(s, d, v, c);
      }
      SubmitKeepsUnderWay(s, t, d, b, v, c);
    }
  }

  lemma DirtyKeepsAgree(s: Mig, e: Step, d: map<Name, seq<Sector>>)
    requires Structured(s) && Fits(s, d) && Agree(s, d) && e.Dirty? && Enabled(ALL_RULES, s, e)
    requires Structured(Apply(s, e)) && Fits(Apply(s, e), d)
    ensures Agree(Apply(s, e), d)
  {
    var t := Apply(s, e);
    var b := t.inflight[|s.inflight|];
    forall v, c: nat | 0 <= v < |t.devs| && CHUNK * c < |t.devs[v].disk| && Settled(t.devs[v], c)
      ensures UnderWay(t, d, v, c)
    {
      if !SameKey(b, v, c) {
        assert Settled(s.devs[v], c);
        assert UnderWay(s, d, v, c);
      }
      SubmitKeepsUnderWay(s, t, d, b, v, c);
    }
  }

  // ---------- steps that write to the stream ----------

  /** A record of chunk `c` of device `v` that carries the chunk. */
  function Arrived(s: Mig, d: map<Name, seq<Sector>>, v: nat, c: nat, buf: seq<Sector>): map<Name, seq<Sector>>
    requires Fits(s, d) && v < |s.devs| && IsChunk(|s.devs[v].disk|, c) && |buf| == CHUNK
  {
    d[s.devs[v].name := Overwrite(d[s.devs[v].name], CHUNK * c, buf)]
  }

  lemma ArrivedChunks(s: Mig, d: map<Name, seq<Sector>>, v: nat, c: nat, buf: seq<Sector>, u: nat, a: nat)
    requires Structured(s) && Fits(s, d) && v < |s.devs| && IsChunk(|s.devs[v].disk|, c) && |buf| == CHUNK
    requires u < |s.devs| && IsChunk(|s.devs[u].disk|, a)
    ensures Fits(s, Arrived(s, d, v, c, buf))
    ensures u != v || a != c ==> SameChunk(Arrived(s, d, v, c, buf)[s.devs[u].name], d[s.devs[u].name], a)
    ensures u == v && a == c ==> forall o :: 0 <= o < Sectors(|s.devs[v].disk|, c) ==>
      At(Arrived(s, d, v, c, buf)[s.devs[v].name], c, o) == buf[o]
  {
    var name := s.devs[v].name;
    assert u != v ==> s.devs[u].name != name;
    OverwriteElsewhere(d[name], c, buf, a);
  }

  lemma SendKeepsAgree(s: Mig, e: Step, d: map<Name, seq<Sector>>)
    requires Structured(s) && Fits(s, d) && Agree(s, d) && e.Send? && Enabled(ALL_RULES, s, e)
    requires Structured(Apply(s, e))
    ensures var b := s.queue[0]; var f := Arrived(s, d, b.dev, b.chunk, b.buf);
      Fits(Apply(s, e), f) && Agree(Apply(s, e), f)
  {
    var t, b := Apply(s, e), s.queue[0];
    var f := Arrived(s, d, b.dev, b.chunk, b.buf);
    ArrivedChunks(s, d, b.dev, b.chunk, b.buf, b.dev, b.chunk);
    assert Pipe(s) == [b] + Pipe(t);
    forall v, c: nat | 0 <= v < |t.devs| && CHUNK * c < |t.devs[v].disk| && Settled(t.devs[v], c)
      ensures UnderWay(t, f, v, c)
    {
      assert UnderWay(s, d, v, c);
      LastOfTwo([b], Pipe(t), v, c);
      LastOfOne(b, v, c);
      ArrivedChunks(s, d, b.dev, b.chunk, b.buf, v, c);
    }
  }

  lemma SyncKeepsAgree(s: Mig, e: Step, d: map<Name, seq<Sector>>)
    requires Structured(s) && Fits(s, d) && Agree(s, d) && e.Sync? && Enabled(ALL_RULES, s, e)
    requires Structured(Apply(s, e))
    ensures var f := Arrived(s, d, e.dev, e.chunk, Filled(s.devs[e.dev].disk, e.chunk, e.buf));
      Fits(Apply(s, e), f) && Agree(Apply(s, e), f)
  {
    var t, buf := Apply(s, e), Filled(s.devs[e.dev].disk, e.chunk, e.buf);
    var f := Arrived(s, d, e.dev, e.chunk, buf);
    ArrivedChunks(s, d, e.dev, e.chunk, buf, e.dev, e.chunk);
    forall v, c: nat | 0 <= v < |t.devs| && CHUNK * c < |t.devs[v].disk| && Settled(t.devs[v], c)
      ensures UnderWay(t, f, v, c)
    {
      ArrivedChunks(s, d, e.dev, e.chunk, buf, v, c);
      if v != e.dev || c != e.chunk {
        assert Settled(s.devs[v], c);
        assert UnderWay(s, d, v, c);
      }
    }
  }

  // ---------- every step, every run ----------

  /** Replaying what has been sent gives disks with which the state agrees. */
  ghost predicate Inv(s: Mig, d0: map<Name, seq<Sector>>)
  {
    && Structured(s) && Replay(d0, s.out).Disks?
    && Fits(s, Replay(d0, s.out).disks) && Agree(s, Replay(d0, s.out).disks)
  }

  lemma StepKeepsInv(s: Mig, e: Step, d0: map<Name, seq<Sector>>)
    requires Inv(s, d0) && Enabled(ALL_RULES, s, e)
    ensures Inv(Apply(s, e), d0)
  {
    StructureKept(ALL_RULES, s, e);
    if e.Sync? || e.Send? || e.Note? {
      RecordKeepsInv(s, e, d0);
    } else {
      StepIsSilent(s, e);
      SilentKeepsAgree(s, e, Replay(d0, s.out).disks);
    }
  }

  lemma StepIsSilent(s: Mig, e: Step)
    requires Enabled(ALL_RULES, s, e) && !e.Sync? && !e.Send? && !e.Note?
    ensures Apply(s, e).out == s.out
  {
  }

  lemma SilentKeepsAgree(s: Mig, e: Step, d: map<Name, seq<Sector>>)
    requires Structured(s) && Fits(s, d) && Agree(s, d)
    requires Enabled(ALL_RULES, s, e) && !e.Sync? && !e.Send? && !e.Note?
    requires Structured(Apply(s, e)) && Fits(Apply(s, e), d)
    ensures Agree(Apply(s, e), d)
  {
    match e
    case GuestData(_, _, _, _) => DataKeepsAgree(s, e, d);
    case GuestMark(_, _) => MarkKeepsAgree(s, e, d);
    case Fetch(_, _) => FetchKeepsAgree(s, e, d);
    case Complete(_) => CompleteKeepsAgree(s, e, d);
    case Bulk(_, _) => BulkKeepsAgree(s, e, d);
    case BulkDone => QuietKeepsAgree(s, Apply(s, e), d);
    case Dirty(_, _, _) => DirtyKeepsAgree(s, e, d);
  }

  /** A step that sends record `r` keeps the invariant if it agrees with the disks after the record. */
  lemma OneMoreRecord(s: Mig, t: Mig, r: Record, d0: map<Name, seq<Sector>>, f: map<Name, seq<Sector>>)
    requires Inv(s, d0) && Structured(t) && t.out == s.out + [r] && (r.Block? ==> |r.buf| == CHUNK)
    requires LoadRecord(Replay(d0, s.out).disks, r) == Disks(f) && Fits(t, f) && Agree(t, f)
    ensures Inv(t, d0)
  {
    ReplayOneMore(d0, s.out, r);
  }

  lemma SyncKeepsInv(s: Mig, e: Step, d0: map<Name, seq<Sector>>)
    requires Inv(s, d0) && Enabled(ALL_RULES, s, e) && e.Sync? && Structured(Apply(s, e))
    ensures Inv(Apply(s, e), d0)
  {
    var d, buf := Replay(d0, s.out).disks, Filled(s.devs[e.dev].disk, e.chunk, e.buf);
    SyncKeepsAgree(s, e, d);
    OneMoreRecord(s, Apply(s, e), Block(s.devs[e.dev].name, CHUNK * e.chunk, buf), d0,
      Arrived(s, d, e.dev, e.chunk, buf));
  }

  lemma SendKeepsInv(s: Mig, e: Step, d0: map<Name, seq<Sector>>)
    requires Inv(s, d0) && Enabled(ALL_RULES, s, e) && e.Send? && Structured(Apply(s, e))
    ensures Inv(Apply(s, e), d0)
  {
    var d, b := Replay(d0, s.out).disks, s.queue[0];
    SendKeepsAgree(s, e, d);
    OneMoreRecord(s, Apply(s, e), Block(s.devs[b.dev].name, CHUNK * b.chunk, b.buf), d0,
      Arrived(s, d, b.dev, b.chunk, b.buf));
  }

  lemma NoteKeepsInv(s: Mig, e: Step, d0: map<Name, seq<Sector>>)
    requires Inv(s, d0) && Enabled(ALL_RULES, s, e) && e.Note? && Structured(Apply(s, e))
    ensures Inv(Apply(s, e), d0)
  {
    QuietKeepsAgree(s, Apply(s, e), Replay(d0, s.out).disks);
    OneMoreRecord(s, Apply(s, e), e.record, d0, Replay(d0, s.out).disks);
  }

  lemma RecordKeepsInv(s: Mig, e: Step, d0: map<Name, seq<Sector>>)
    requires Inv(s, d0) && Enabled(ALL_RULES, s, e) && (e.Sync? || e.Send? || e.Note?)
    requires Structured(Apply(s, e))
    ensures Inv(Apply(s, e), d0)
  {
    match e
    case Sync(_, _, _) => SyncKeepsInv(s, e, d0);
    case Send => SendKeepsInv(s, e, d0);
    case Note(_) => NoteKeepsInv(s, e, d0);
  }

  lemma QuietKeepsAgree(s: Mig, t: Mig, d: map<Name, seq<Sector>>)
    requires Structured(s) && Structured(t) && Fits(s, d) && Agree(s, d)
    requires t.devs == s.devs && t.queue == s.queue && t.inflight == s.inflight
    ensures Fits(t, d) && Agree(t, d)
  {
    forall v, c: nat | 0 <= v < |t.devs| && CHUNK * c < |t.devs[v].disk| && Settled(t.devs[v], c)
      ensures UnderWay(t, d, v, c)
    {
      assert UnderWay(s, d, v, c);
    }
  }

  lemma {:induction false} RunKeepsInv(s: Mig, steps: seq<Step>, d0: map<Name, seq<Sector>>)
    requires Inv(s, d0) && Run(ALL_RULES, s, steps).Reached?
    ensures Inv(Run(ALL_RULES, s, steps).state, d0)
    decreases |steps|
  {
    if steps == [] {
    } else {
      RunKeepsInv(s, steps[..|steps| - 1], d0);
      StepKeepsInv(Run(ALL_RULES, s, steps[..|steps| - 1]).state, steps[|steps| - 1], d0);
    }
  }

  /** The end of a migration: the bulk phase is over, nothing is on its way, no chunk is dirty or
      being written. */
  predicate Finished(s: Mig)
  {
    && s.bulkCompleted && s.inflight == [] && s.queue == []
    && forall v :: 0 <= v < |s.devs| ==> s.devs[v].dirty == {} && s.devs[v].writing == multiset{}
  }

  /** The receiver's disks are the sender's. */
  predicate Copied(s: Mig, d: map<Name, seq<Sector>>)
  {
    forall v :: 0 <= v < |s.devs| ==> s.devs[v].name in d && d[s.devs[v].name] == s.devs[v].disk
  }

  lemma FinishedIsCopied(s: Mig, d0: map<Name, seq<Sector>>)
    requires Inv(s, d0) && Finished(s)
    ensures Copied(s, Replay(d0, s.out).disks)
  {
    var d := Replay(d0, s.out).disks;
    forall v | 0 <= v < |s.devs| ensures s.devs[v].name in d && d[s.devs[v].name] == s.devs[v].disk {
      var disk := s.devs[v].disk;
      forall c: nat | IsChunk(|disk|, c) ensures SameChunk(d[s.devs[v].name], disk, c) {
        assert Settled(s.devs[v], c);
        assert UnderWay(s, d, v, c);
      }
      SameDisk(d[s.devs[v].name], disk);
    }
  }

  // ---------- the beginning ----------

  /** A block driver: only writable ones with at least one sector are migrated. */
  datatype Drive = Drive(name: Name, readOnly: bool, disk: seq<Sector>)

  function InitDevices(drives: seq<Drive>): seq<Device>
  {
    if drives == [] then []
    else
      var d := drives[0];
      (if d.readOnly || |d.disk| == 0 then [] else [Device(d.name, d.disk, {}, multiset{}, {}, 0, false)])
      + InitDevices(drives[1..])
  }

  /** init_blk_migration and set_dirty_tracking */
  function Init(drives: seq<Drive>): Mig
  {
    Mig(InitDevices(drives), [], [], [], 0, 0, 0, 0, false, [])
  }

  predicate Distinct(drives: seq<Drive>)
  {
    forall i, j :: 0 <= i < j < |drives| ==> drives[i].name != drives[j].name
  }

  /** Every migrated device is one of the drives, at its beginning. */
  lemma {:induction false} InitDevice(drives: seq<Drive>, v: nat) returns (i: nat)
    requires v < |InitDevices(drives)|
    ensures i < |drives| && !drives[i].readOnly && |drives[i].disk| > 0
    ensures InitDevices(drives)[v] == Device(drives[i].name, drives[i].disk, {}, multiset{}, {}, 0, false)
  {
    if drives[0].readOnly || |drives[0].disk| == 0 {
      i := InitDevice(drives[1..], v);
      i := i + 1;
    } else if v == 0 {
      i := 0;
    } else {
      i := InitDevice(drives[1..], v - 1);
      i := i + 1;
    }
  }

  lemma {:induction false} InitDistinct(drives: seq<Drive>, u: nat, v: nat)
    requires Distinct(drives) && u < v < |InitDevices(drives)|
    ensures InitDevices(drives)[u].name != InitDevices(drives)[v].name
  {
    if drives[0].readOnly || |drives[0].disk| == 0 {
      InitDistinct(drives[1..], u, v);
    } else if u > 0 {
      InitDistinct(drives[1..], u - 1, v - 1);
    } else {
      var i := InitDevice(drives[1..], v - 1);
      assert drives[1..][i] == drives[i + 1];
    }
  }

  lemma InitHasInv(drives: seq<Drive>, d0: map<Name, seq<Sector>>)
    requires Distinct(drives) && Fits(Init(drives), d0)
    ensures Inv(Init(drives), d0)
  {
    var s := Init(drives);
    forall v | 0 <= v < |s.devs| ensures GoodDevice(s.devs[v]) && s.devs[v].curSector == 0 && s.devs[v].aio == {} {
      var _ := InitDevice(drives, v);
    }
    forall u, v | 0 <= u < v < |s.devs| ensures s.devs[u].name != s.devs[v].name { InitDistinct(drives, u, v); }
  }

  /** Full block migration copies the disks: for every run of guest writes, reads and sends, in any
      order the rules allow, that ends finished, the replayed stream gives each device its final
      contents; and so does loading it section by section, once the last section has ended. */
  lemma MigrationCopiesDisks(drives: seq<Drive>, steps: seq<Step>, d0: map<Name, seq<Sector>>)
    requires Distinct(drives) && Fits(Init(drives), d0)
    requires var r := Run(ALL_RULES, Init(drives), steps); r.Reached? && Finished(r.state)
    ensures var s := Run(ALL_RULES, Init(drives), steps).state;
      Framed(s.out) && Replay(d0, s.out).Disks? && Copied(s, Replay(d0, s.out).disks)
    ensures var s := Run(ALL_RULES, Init(drives), steps).state;
      Closed(s.out) ==> LoadStream(d0, s.out).Disks? && Copied(s, LoadStream(d0, s.out).disks)
  {
    InitHasInv(drives, d0);
    RunKeepsInv(Init(drives), steps, d0);
    FinishedIsCopied(Run(ALL_RULES, Init(drives), steps).state, d0);
    StreamIsReplayed(d0, Run(ALL_RULES, Init(drives), steps).state.out);
  }
}
