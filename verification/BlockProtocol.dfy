/**
  Live block migration as a protocol: guest writes, asynchronous reads of dirty chunks, the queue of
  completed reads, and the records that reach the receiver.  A run is a sequence of steps; whatever
  the order of the steps, every chunk that is neither dirty nor being written is on its way.
 */
module BlockProtocol {
  import opened Bits

  /** BDRV_SECTORS_PER_DIRTY_CHUNK */
  const CHUNK: nat := 2048

  datatype Option<T> = None | Some(value: T)

  type Sector = seq<u8>
  type Name = seq<u8>

  // ---------- chunks of a disk ----------

  predicate IsChunk(total: nat, c: nat)
  {
    CHUNK * c < total
  }

  /** The number of sectors of chunk `c`; the last chunk may be short. */
  function Sectors(total: nat, c: nat): nat
    requires IsChunk(total, c)
  {
    if total - CHUNK * c < CHUNK then total - CHUNK * c else CHUNK
  }

  /** Sector `o` of chunk `c`. */
  function At(disk: seq<Sector>, c: nat, o: nat): Sector
    requires IsChunk(|disk|, c) && o < Sectors(|disk|, c)
  {
    disk[CHUNK * c + o]
  }

  predicate SameChunk(a: seq<Sector>, b: seq<Sector>, c: nat)
    requires |a| == |b| && IsChunk(|a|, c)
  {
    forall o :: 0 <= o < Sectors(|a|, c) ==> At(a, c, o) == At(b, c, o)
  }

  lemma SameDisk(a: seq<Sector>, b: seq<Sector>)
    requires |a| == |b| && forall c: nat :: IsChunk(|a|, c) ==> SameChunk(a, b, c)
    ensures a == b
  {
    forall i | 0 <= i < |a| ensures a[i] == b[i] {
      var c, o := i / CHUNK, i % CHUNK;
      assert IsChunk(|a|, c) && SameChunk(a, b, c);
      assert At(a, c, o) == At(b, c, o);
    }
  }

  // ---------- the state ----------

  /** A device being migrated.  `writing` holds a chunk once for each guest write whose data is on the
      disk but which has not yet set the dirty bit; `aio` is the in-flight bitmap. */
  datatype Device = Device(name: Name, disk: seq<Sector>, dirty: set<nat>, writing: multiset<nat>, aio: set<nat>,
                           curSector: nat, bulkCompleted: bool)

  /** A BlkMigBlock: a read of one chunk, and which sectors of it are in the buffer already. */
  datatype Blk = Blk(id: nat, dev: nat, chunk: nat, buf: seq<Sector>, got: set<nat>)

  datatype Record = Block(name: Name, sector: nat, buf: seq<Sector>) | Progress(percent: int) | Eos

  datatype Mig = Mig(devs: seq<Device>, inflight: seq<Blk>, queue: seq<Blk>, sent: seq<nat>, next: nat,
                     submitted: int, readDone: int, transferred: int, bulkCompleted: bool, out: seq<Record>)

  predicate SameKey(b: Blk, v: nat, c: nat)
  {
    b.dev == v && b.chunk == c
  }

  predicate HasAll(b: Blk, total: nat)
    requires IsChunk(total, b.chunk)
  {
    forall o :: 0 <= o < Sectors(total, b.chunk) ==> o in b.got
  }

  // ---------- the receiver ----------

  datatype Loading = Disks(disks: map<Name, seq<Sector>>) | Unknown | Failed

  /** What block_load writes for a record at `sector`: a chunk, or what is left of the device. */
  function Overwrite(disk: seq<Sector>, sector: nat, buf: seq<Sector>): (r: seq<Sector>)
    requires sector <= |disk| && |buf| == CHUNK
    ensures |r| == |disk|
  {
    var nr := if |disk| - sector < CHUNK then |disk| - sector else CHUNK;
    disk[..sector] + buf[..nr] + disk[sector + nr..]
  }

  /** One turn of the loop of block_load. */
  function LoadRecord(d: map<Name, seq<Sector>>, r: Record): Loading
    requires r.Block? ==> |r.buf| == CHUNK
  {
    match r
    case Progress(_) => Disks(d)
    case Eos => Disks(d)
    case Block(name, sector, buf) =>
      if name !in d || |d[name]| == 0 then Unknown
      else if sector > |d[name]| then Failed
      else Disks(d[name := Overwrite(d[name], sector, buf)])
  }

  predicate Framed(out: seq<Record>)
  {
    forall i :: 0 <= i < |out| && out[i].Block? ==> |out[i].buf| == CHUNK
  }

  function Replay(d: map<Name, seq<Sector>>, out: seq<Record>): Loading
    requires Framed(out)
    decreases |out|
  {
    if out == [] then Disks(d)
    else match Replay(d, out[..|out| - 1])
      case Disks(e) => LoadRecord(e, out[|out| - 1])
      case bad => bad
  }

  /** What one call of block_load makes of a stream: the disks, and what it has not read. */
  datatype Section = Section(loading: Loading, rest: seq<Record>)

  /** block_load: records up to the first end of a section.  A stream that stops before that is an
      error. */
  function LoadSection(d: map<Name, seq<Sector>>, records: seq<Record>): (s: Section)
    requires Framed(records)
    ensures Framed(s.rest) && (s.loading.Disks? ==> |s.rest| < |records|)
    decreases |records|
  {
    if records == [] then Section(Failed, [])
    else match LoadRecord(d, records[0])
      case Disks(e) => if records[0].Eos? then Section(Disks(e), records[1..]) else LoadSection(e, records[1..])
      case bad => Section(bad, [])
  }

  /** A whole stream, one section after another. */
  function LoadStream(d: map<Name, seq<Sector>>, records: seq<Record>): Loading
    requires Framed(records)
    decreases |records|
  {
    if records == [] then Disks(d)
    else
      var s := LoadSection(d, records);
      if s.loading.Disks? then LoadStream(s.loading.disks, s.rest) else s.loading
  }

  // ---------- the steps ----------

  datatype Step =
    | GuestData(dev: nat, chunk: nat, offset: nat, data: Sector)  // a guest write reaches the disk
    | GuestMark(dev: nat, chunk: nat)                             // and then sets the dirty bit
    | Fetch(read: nat, offset: nat)                               // a read picks up one sector
    | Complete(read: nat)                                         // blk_mig_read_cb
    | Bulk(dev: nat, buf: seq<Sector>)                            // mig_save_device_bulk
    | BulkDone
    | Dirty(dev: nat, chunk: nat, buf: seq<Sector>)               // mig_save_device_dirty, asynchronous
    | Sync(dev: nat, chunk: nat, buf: seq<Sector>)                // the same, synchronous
    | Send                                                        // one turn of flush_blks
    | Note(record: Record)                                        // progress, end of section

  /** The chunk at which the bulk cursor of a device stands. */
  function BulkChunk(d: Device): nat
  {
    d.curSector / CHUNK
  }

  /** What is supposed of the surroundings.  `fifo`: reads of one chunk complete in the order of
      submission.  `flushed`: the queue is empty when chunks are sent synchronously. */
  datatype Rules = Rules(fifo: bool, flushed: bool)

  const ALL_RULES := Rules(true, true)

  /** When a step can happen. */
  predicate Enabled(rules: Rules, s: Mig, e: Step)
  {
    match e
    case GuestData(v, c, o, _) => v < |s.devs| && IsChunk(|s.devs[v].disk|, c) && o < Sectors(|s.devs[v].disk|, c)
    case GuestMark(v, c) => v < |s.devs| && c in s.devs[v].writing
    case Fetch(i, o) => i < |s.inflight| && OnDisk(s, s.inflight[i])
      && o < Sectors(|s.devs[s.inflight[i].dev].disk|, s.inflight[i].chunk)
    case Complete(i) =>
      && i < |s.inflight| && OnDisk(s, s.inflight[i]) && HasAll(s.inflight[i], |s.devs[s.inflight[i].dev].disk|)
      && (rules.fifo ==> forall j :: 0 <= j < i ==> !SameKey(s.inflight[j], s.inflight[i].dev, s.inflight[i].chunk))
    case Bulk(v, buf) =>
      && !s.bulkCompleted && |buf| == CHUNK && v < |s.devs|
      && !s.devs[v].bulkCompleted && s.devs[v].curSector < |s.devs[v].disk|
      && forall u :: 0 <= u < v ==> s.devs[u].bulkCompleted
    case BulkDone => !s.bulkCompleted && forall u :: 0 <= u < |s.devs| ==> s.devs[u].bulkCompleted
    case Dirty(v, c, buf) =>
      && s.bulkCompleted && |buf| == CHUNK && v < |s.devs| && IsChunk(|s.devs[v].disk|, c)
      && c in s.devs[v].dirty && c !in s.devs[v].aio
    case Sync(v, c, buf) =>
      && s.bulkCompleted && |buf| == CHUNK && v < |s.devs| && IsChunk(|s.devs[v].disk|, c)
      && c in s.devs[v].dirty && s.inflight == [] && (rules.flushed ==> s.queue == [])
    case Send => s.queue != [] && s.queue[0].dev < |s.devs|
    case Note(r) => !r.Block?
  }

  predicate OnDisk(s: Mig, b: Blk)
  {
    b.dev < |s.devs| && IsChunk(|s.devs[b.dev].disk|, b.chunk) && |b.buf| == CHUNK
  }

  function SetDev(s: Mig, v: nat, d: Device): Mig
    requires v < |s.devs|
  {
    s.(devs := s.devs[v := d])
  }

  /** A read of chunk `c` is submitted. */
  function Submit(s: Mig, v: nat, c: nat, buf: seq<Sector>): Mig
  {
    s.(inflight := s.inflight + [Blk(s.next, v, c, buf, {})], next := s.next + 1, submitted := s.submitted + 1)
  }

  /** The buffer of a synchronous read. */
  function Filled(disk: seq<Sector>, c: nat, buf: seq<Sector>): (r: seq<Sector>)
    requires IsChunk(|disk|, c) && |buf| == CHUNK
    ensures |r| == CHUNK
  {
    disk[CHUNK * c..CHUNK * c + Sectors(|disk|, c)] + buf[Sectors(|disk|, c)..]
  }

  function Apply(s: Mig, e: Step): Mig
    requires Enabled(Rules(false, false), s, e)
  {
    match e
    case GuestData(v, c, o, x) =>
      var d := s.devs[v];
      SetDev(s, v, d.(disk := d.disk[CHUNK * c + o := x], writing := d.writing + multiset{c}))
    case GuestMark(v, c) =>
      var d := s.devs[v];
      SetDev(s, v, d.(dirty := d.dirty + {c}, writing := d.writing - multiset{c}))
    case Fetch(i, o) =>
      var b := s.inflight[i];
      var x := At(s.devs[b.dev].disk, b.chunk, o);
      s.(inflight := s.inflight[i := b.(buf := b.buf[o := x], got := b.got + {o})])
    case Complete(i) =>
      var b := s.inflight[i];
      var d := s.devs[b.dev];
      SetDev(s, b.dev, d.(aio := d.aio - {b.chunk}))
        .(inflight := s.inflight[..i] + s.inflight[i + 1..], queue := s.queue + [b],
          submitted := s.submitted - 1, readDone := s.readDone + 1)
    case Bulk(v, buf) =>
      var d := s.devs[v];
      var c := BulkChunk(d);
      var end := CHUNK * c + Sectors(|d.disk|, c);
      Submit(SetDev(s, v, d.(dirty := d.dirty - {c}, curSector := end, bulkCompleted := end >= |d.disk|)), v, c, buf)
    case BulkDone => s.(bulkCompleted := true)
    case Dirty(v, c, buf) =>
      var d := s.devs[v];
      Submit(SetDev(s, v, d.(dirty := d.dirty - {c}, aio := d.aio + {c})), v, c, buf)
    case Sync(v, c, buf) =>
      var d := s.devs[v];
      SetDev(s, v, d.(dirty := d.dirty - {c}))
        .(out := s.out + [Block(d.name, CHUNK * c, Filled(d.disk, c, buf))])
    case Send =>
      var b := s.queue[0];
      s.(queue := s.queue[1..], sent := s.sent + [b.id], readDone := s.readDone - 1, transferred := s.transferred + 1,
         out := s.out + [Block(s.devs[b.dev].name, CHUNK * b.chunk, b.buf)])
    case Note(r) => s.(out := s.out + [r])
  }

  datatype Outcome = Reached(state: Mig) | Stuck

  /** Taking steps one after another, each when it can happen. */
  function Run(rules: Rules, s: Mig, steps: seq<Step>): Outcome
    decreases |steps|
  {
    if steps == [] then Reached(s)
    else match Run(rules, s, steps[..|steps| - 1])
      case Stuck => Stuck
      case Reached(t) =>
        var e := steps[|steps| - 1];
        if Enabled(rules, t, e) then Reached(Apply(t, e)) else Stuck
  }
}
