/**
  The order in which reads complete.  Whatever it is, the block that was submitted last for a chunk
  carries the chunk; so a finished migration has copied the disks exactly when the record sent last for
  each chunk holds what the block submitted last holds.
 */
module BlockOrder {
  import opened BlockProtocol
  import opened BlockStream
  import opened BlockAgreement
  import opened BlockAccounting

  /** A read of a chunk: the number of its block, or -1 for a synchronous read; its buffer; and which
      sectors of that have been picked up. */
  datatype Read = Read(id: int, buf: seq<Sector>, got: set<nat>)

  /** The sectors 0 to `n - 1`. */
  function All(n: nat): (r: set<nat>)
    ensures forall o :: o in r <==> 0 <= o < n
  {
    if n == 0 then {} else All(n - 1) + {n - 1}
  }

  /** The read of chunk `c` of device `v` that was submitted last, after one more step. */
  function LatestAfter(s: Mig, e: Step, last: Option<Read>, v: nat, c: nat): Option<Read>
    requires Enabled(Rules(false, false), s, e)
  {
    match e
    case Bulk(u, buf) => if u == v && BulkChunk(s.devs[u]) == c then Some(Read(s.next, buf, {})) else last
    case Dirty(u, a, buf) => if u == v && a == c then Some(Read(s.next, buf, {})) else last
    case Sync(u, a, buf) =>
      if u == v && a == c
      then Some(Read(-1, Filled(s.devs[u].disk, a, buf), All(Sectors(|s.devs[u].disk|, a))))
      else last
    case Fetch(i, o) =>
      var b := s.inflight[i];
      if last.Some? && last.value.id == b.id && o < |last.value.buf|
      then
        var x := At(s.devs[b.dev].disk, b.chunk, o);
        Some(last.value.(buf := last.value.buf[o := x], got := last.value.got + {o}))
      else last
    case _ => last
  }

  /** The read of a chunk that a run submits last, with what it has picked up by the end of the run. */
  function Latest(rules: Rules, s: Mig, steps: seq<Step>, v: nat, c: nat): Option<Read>
    requires Run(rules, s, steps).Reached?
    decreases |steps|
  {
    if steps == [] then None
    else
      var front := steps[..|steps| - 1];
      LatestAfter(Run(rules, s, front).state, steps[|steps| - 1], Latest(rules, s, front, v, c), v, c)
  }

  // ---------- what every step keeps ----------

  /** The latest read of a chunk is in flight as it stands, or has all its sectors; what it has picked up
      is on the disk, unless the chunk has been written since. */
  ghost predicate Fresh(s: Mig, r: Read, v: nat, c: nat)
    requires v < |s.devs| && IsChunk(|s.devs[v].disk|, c)
  {
    && |r.buf| == CHUNK && r.id < s.next
    && (forall i :: 0 <= i < |s.inflight| && s.inflight[i].id == r.id ==>
      SameKey(s.inflight[i], v, c) && s.inflight[i].buf == r.buf && s.inflight[i].got == r.got)
    && (Flies(s, r.id) || forall o :: 0 <= o < Sectors(|s.devs[v].disk|, c) ==> o in r.got)
    && (Settled(s.devs[v], c) ==> forall o :: o in r.got && 0 <= o < Sectors(|s.devs[v].disk|, c) ==>
      r.buf[o] == At(s.devs[v].disk, c, o))
  }

  predicate Flies(s: Mig, id: int)
  {
    exists i :: 0 <= i < |s.inflight| && s.inflight[i].id == id
  }

  /** Blocks in flight are in the order of their numbers. */
  predicate Numbered(s: Mig)
  {
    && (forall i :: 0 <= i < |s.inflight| ==> s.inflight[i].id < s.next)
    && (forall i, j :: 0 <= i < j < |s.inflight| ==> s.inflight[i].id < s.inflight[j].id)
  }

  /** Chunk `c` of device `v`, if the bulk phase has passed it, has been read. */
  ghost predicate Tracked(s: Mig, last: Option<Read>, v: nat, c: nat)
    requires v < |s.devs| && IsChunk(|s.devs[v].disk|, c)
  {
    && (CHUNK * c < s.devs[v].curSector ==> last.Some?)
    && (last.Some? ==> Fresh(s, last.value, v, c))
  }

  lemma NumbersKept(s: Mig, e: Step)
    requires Numbered(s) && Enabled(Rules(false, false), s, e)
    ensures Numbered(Apply(s, e))
  {
    if e.Complete? {
      var t := Apply(s, e);
      forall i, j | 0 <= i < j < |t.inflight| ensures t.inflight[i].id < t.inflight[j].id {
        assert t.inflight[i] == s.inflight[if i < e.read then i else i + 1];
        assert t.inflight[j] == s.inflight[if j < e.read then j else j + 1];
      }
    }
  }

  /** The steps that touch no read. */
  lemma QuietTracked(s: Mig, e: Step, last: Option<Read>, v: nat, c: nat)
    requires Numbered(s) && Enabled(Rules(false, false), s, e) && v < |s.devs| && IsChunk(|s.devs[v].disk|, c)
    requires Tracked(s, last, v, c) && (e.Send? || e.Note? || e.BulkDone? || e.GuestMark?)
    ensures Tracked(Apply(s, e), last, v, c)
  {
    var t := Apply(s, e);
    assert t.inflight == s.inflight && t.devs[v].disk == s.devs[v].disk && t.devs[v].curSector == s.devs[v].curSector;
    assert Settled(t.devs[v], c) ==> Settled(s.devs[v], c);
    assert forall id :: Flies(t, id) == Flies(s, id);
  }

  lemma DataTracked(s: Mig, e: Step, last: Option<Read>, v: nat, c: nat)
    requires Numbered(s) && Enabled(Rules(false, false), s, e) && v < |s.devs| && IsChunk(|s.devs[v].disk|, c)
    requires Tracked(s, last, v, c) && e.GuestData?
    ensures Tracked(Apply(s, e), last, v, c)
  {
    var t := Apply(s, e);
    assert t.inflight == s.inflight && forall id :: Flies(t, id) == Flies(s, id);
    if v == e.dev && c != e.chunk { OtherChunk(s.devs[v].disk, e.chunk, e.offset, e.data, c); }
  }

  lemma FetchTracked(s: Mig, e: Step, last: Option<Read>, v: nat, c: nat)
    requires Numbered(s) && Enabled(Rules(false, false), s, e) && v < |s.devs| && IsChunk(|s.devs[v].disk|, c)
    requires Tracked(s, last, v, c) && e.Fetch?
    ensures Tracked(Apply(s, e), LatestAfter(s, e, last, v, c), v, c)
  {
    if last.Some? {
      if last.value.id == s.inflight[e.read].id {
        OwnFetch(s, e, last.value, v, c);
      } else {
        OtherFetch(s, e, last.value, v, c);
      }
    }
  }

  lemma FetchFlies(s: Mig, e: Step, id: int)
    requires Enabled(Rules(false, false), s, e) && e.Fetch?
    ensures Flies(Apply(s, e), id) <==> Flies(s, id)
  {
    var t := Apply(s, e);
    assert forall j :: 0 <= j < |s.inflight| ==> t.inflight[j].id == s.inflight[j].id;
    if Flies(s, id) {
      var j :| 0 <= j < |s.inflight| && s.inflight[j].id == id;
      assert t.inflight[j].id == id;
    }
  }

  lemma OtherFetch(s: Mig, e: Step, r: Read, v: nat, c: nat)
    requires Enabled(Rules(false, false), s, e) && v < |s.devs| && IsChunk(|s.devs[v].disk|, c)
    requires Fresh(s, r, v, c) && e.Fetch? && r.id != s.inflight[e.read].id
    ensures Fresh(Apply(s, e), r, v, c)
  {
    FetchFlies(s, e, r.id);
  }

  /** The latest read picks up a sector. */
  lemma OwnFetch(s: Mig, e: Step, r: Read, v: nat, c: nat)
    requires Numbered(s) && Enabled(Rules(false, false), s, e) && v < |s.devs| && IsChunk(|s.devs[v].disk|, c)
    requires Fresh(s, r, v, c) && e.Fetch? && r.id == s.inflight[e.read].id
    ensures Fresh(Apply(s, e), LatestAfter(s, e, Some(r), v, c).value, v, c)
  {
    FetchFlies(s, e, r.id);
    assert SameKey(s.inflight[e.read], v, c);
    assert LatestAfter(s, e, Some(r), v, c)
        == Some(r.(buf := r.buf[e.offset := At(s.devs[v].disk, c, e.offset)], got := r.got + {e.offset}));
  }

  lemma CompleteTracked(s: Mig, e: Step, last: Option<Read>, v: nat, c: nat)
    requires Numbered(s) && Enabled(Rules(false, false), s, e) && v < |s.devs| && IsChunk(|s.devs[v].disk|, c)
    requires Tracked(s, last, v, c) && e.Complete?
    ensures Tracked(Apply(s, e), last, v, c)
  {
    var t := Apply(s, e);
    assert t.devs[v] == s.devs[v].(aio := t.devs[v].aio);
    if last.Some? { CompleteFresh(s, t, e.read, last.value, v, c); }
  }

  /** A read that completes has all its sectors; the others stay in flight. */
  lemma CompleteFresh(s: Mig, t: Mig, k: nat, r: Read, v: nat, c: nat)
    requires v < |s.devs| == |t.devs| && IsChunk(|s.devs[v].disk|, c) && t.devs[v] == s.devs[v].(aio := t.devs[v].aio)
    requires k < |s.inflight| && t.inflight == s.inflight[..k] + s.inflight[k + 1..] && t.next == s.next
    requires SameKey(s.inflight[k], v, c) ==> HasAll(s.inflight[k], |s.devs[v].disk|)
    requires Fresh(s, r, v, c)
    ensures Fresh(t, r, v, c)
  {
    assert forall i :: 0 <= i < |t.inflight| ==> t.inflight[i] == s.inflight[if i < k then i else i + 1];
    if Flies(s, r.id) && s.inflight[k].id != r.id {
      var j :| 0 <= j < |s.inflight| && s.inflight[j].id == r.id;
      assert t.inflight[if j < k then j else j - 1].id == r.id;
    }
  }

  /** A new block leaves the reads of other chunks alone. */
  lemma SubmitFresh(s: Mig, t: Mig, b: Blk, r: Read, v: nat, c: nat)
    requires v < |s.devs| == |t.devs| && IsChunk(|s.devs[v].disk|, c) && t.devs[v].disk == s.devs[v].disk
    requires t.inflight == s.inflight + [b] && b.id == s.next && t.next == s.next + 1
    requires Settled(t.devs[v], c) ==> Settled(s.devs[v], c)
    requires Fresh(s, r, v, c)
    ensures Fresh(t, r, v, c)
  {
    if Flies(s, r.id) {
      var j :| 0 <= j < |s.inflight| && s.inflight[j].id == r.id;
      assert t.inflight[j].id == r.id;
    }
  }

  lemma SubmitTracked(s: Mig, e: Step, last: Option<Read>, v: nat, c: nat)
    requires Numbered(s) && Enabled(Rules(false, false), s, e) && v < |s.devs| && IsChunk(|s.devs[v].disk|, c)
    requires Tracked(s, last, v, c) && (e.Bulk? || e.Dirty?) && GoodDevice(s.devs[e.dev])
    ensures Tracked(Apply(s, e), LatestAfter(s, e, last, v, c), v, c)
  {
    var t := Apply(s, e);
    var b := t.inflight[|s.inflight|];
    if e.Bulk? { BulkKeepsDevice(s.devs[e.dev]); }
    if SameKey(b, v, c) {
      assert Flies(t, s.next);
    } else if last.Some? {
      SubmitFresh(s, t, b, last.value, v, c);
    }
  }

  lemma SyncTracked(s: Mig, e: Step, last: Option<Read>, v: nat, c: nat)
    requires Numbered(s) && Enabled(Rules(false, false), s, e) && v < |s.devs| && IsChunk(|s.devs[v].disk|, c)
    requires Tracked(s, last, v, c) && e.Sync?
    ensures Tracked(Apply(s, e), LatestAfter(s, e, last, v, c), v, c)
  {
    var t := Apply(s, e);
    assert t.inflight == s.inflight && forall id :: Flies(t, id) == Flies(s, id);
  }

  lemma StepTracked(s: Mig, e: Step, last: Option<Read>, v: nat, c: nat)
    requires Structured(s) && Numbered(s) && Enabled(Rules(false, false), s, e) && v < |s.devs|
    requires IsChunk(|s.devs[v].disk|, c)
    requires Tracked(s, last, v, c)
    ensures v < |Apply(s, e).devs| && IsChunk(|Apply(s, e).devs[v].disk|, c)
    ensures Tracked(Apply(s, e), LatestAfter(s, e, last, v, c), v, c)
  {
    StepIsOnward(Rules(false, false), s, e);
    match e
    case GuestData(_, _, _, _) => DataTracked(s, e, last, v, c);
    case Fetch(_, _) => FetchTracked(s, e, last, v, c);
    case Complete(_) => CompleteTracked(s, e, last, v, c);
    case Bulk(u, _) => assert GoodDevice(s.devs[u]); SubmitTracked(s, e, last, v, c);
    case Dirty(u, _, _) => assert GoodDevice(s.devs[u]); SubmitTracked(s, e, last, v, c);
    case Sync(_, _, _) => SyncTracked(s, e, last, v, c);
    case _ => QuietTracked(s, e, last, v, c);
  }

  // ---------- what has been sent ----------

  /** A chunk the bulk phase has passed is on its way or has been sent. */
  predicate OnItsWay(s: Mig, v: nat, c: nat)
    requires v < |s.devs|
  {
    CHUNK * c < s.devs[v].curSector ==>
      Waits(s.queue, v, c) || Waits(s.inflight, v, c) || LastRecord(s.out, s.devs[v].name, c).Some?
  }

  predicate Waits(p: seq<Blk>, v: nat, c: nat)
  {
    exists i :: 0 <= i < |p| && SameKey(p[i], v, c)
  }

  lemma StillWaits(p: seq<Blk>, i: nat, v: nat, c: nat)
    requires i < |p| && Waits(p, v, c) && !SameKey(p[i], v, c)
    ensures Waits(p[..i] + p[i + 1..], v, c)
  {
    var j :| 0 <= j < |p| && SameKey(p[j], v, c);
    assert SameKey((p[..i] + p[i + 1..])[if j < i then j else j - 1], v, c);
  }

  lemma WaitsToo(p: seq<Blk>, b: Blk, v: nat, c: nat)
    ensures Waits(p + [b], v, c) <==> Waits(p, v, c) || SameKey(b, v, c)
  {
    if Waits(p, v, c) {
      var j :| 0 <= j < |p| && SameKey(p[j], v, c);
      assert SameKey((p + [b])[j], v, c);
    } else if SameKey(b, v, c) {
      assert SameKey((p + [b])[|p|], v, c);
    }
  }

  lemma ReadStepOnItsWay(s: Mig, e: Step, v: nat, c: nat)
    requires Structured(s) && Enabled(Rules(false, false), s, e) && v < |s.devs| && OnItsWay(s, v, c)
    requires e.Complete? || e.Fetch? || e.Bulk? || e.Dirty?
    ensures OnItsWay(Apply(s, e), v, c)
  {
    var t := Apply(s, e);
    if e.Complete? {
      var b := s.inflight[e.read];
      WaitsToo(s.queue, b, v, c);
      if Waits(s.inflight, v, c) && !SameKey(b, v, c) { StillWaits(s.inflight, e.read, v, c); }
    } else if e.Fetch? {
      if Waits(s.inflight, v, c) {
        var j :| 0 <= j < |s.inflight| && SameKey(s.inflight[j], v, c);
        assert SameKey(t.inflight[j], v, c);
      }
    } else {
      if e.Bulk? { BulkKeepsDevice(s.devs[e.dev]); }
      WaitsToo(s.inflight, t.inflight[|s.inflight|], v, c);
    }
  }

  lemma StepOnItsWay(s: Mig, e: Step, v: nat, c: nat)
    requires Structured(s) && Enabled(Rules(false, false), s, e) && v < |s.devs| && OnItsWay(s, v, c)
    ensures v < |Apply(s, e).devs| && OnItsWay(Apply(s, e), v, c)
  {
    var t := Apply(s, e);
    if e.Complete? || e.Fetch? || e.Bulk? || e.Dirty? {
      ReadStepOnItsWay(s, e, v, c);
    } else if e.Send? || e.Sync? || e.Note? {
      LastRecordOneMore(s.out, t.out[|s.out|], s.devs[v].name, c);
      if e.Send? && Waits(s.queue, v, c) && !SameKey(s.queue[0], v, c) { StillWaits(s.queue, 0, v, c); }
    }
  }

  /** The records sent are of whole chunks. */
  lemma StepOnChunks(s: Mig, e: Step, d0: map<Name, seq<Sector>>)
    requires Structured(s) && Enabled(Rules(false, false), s, e) && Fits(s, d0) && OnChunks(s.out, d0)
    ensures OnChunks(Apply(s, e).out, d0)
  {
    if e.Send? { assert GoodBlk(s, s.queue[0]); }
  }

  // ---------- every run ----------

  ghost predicate Kept(s: Mig, last: Option<Read>, v: nat, c: nat)
  {
    && Structured(s) && Numbered(s)
    && v < |s.devs| && IsChunk(|s.devs[v].disk|, c) && OnItsWay(s, v, c) && Tracked(s, last, v, c)
  }

  lemma {:induction false} RunOnChunks(rules: Rules, drives: seq<Drive>, steps: seq<Step>, d0: map<Name, seq<Sector>>)
    requires Distinct(drives) && Fits(Init(drives), d0) && Run(rules, Init(drives), steps).Reached?
    ensures var s := Run(rules, Init(drives), steps).state;
      Structured(s) && Onward(Init(drives), s) && Fits(s, d0) && OnChunks(s.out, d0)
    decreases |steps|
  {
    if steps == [] {
      InitStructured(drives);
    } else {
      var front, e := steps[..|steps| - 1], steps[|steps| - 1];
      RunOnChunks(rules, drives, front, d0);
      var s := Run(rules, Init(drives), front).state;
      StepOnChunks(s, e, d0);
      StructureKept(rules, s, e);
    }
  }

  lemma {:induction false} RunTracked(rules: Rules, drives: seq<Drive>, steps: seq<Step>, v: nat, c: nat)
    requires Distinct(drives) && Run(rules, Init(drives), steps).Reached?
    requires v < |Init(drives).devs| && IsChunk(|Init(drives).devs[v].disk|, c)
    ensures Kept(Run(rules, Init(drives), steps).state, Latest(rules, Init(drives), steps, v, c), v, c)
    decreases |steps|
  {
    if steps == [] {
      InitStructured(drives);
      var _ := InitDevice(drives, v);
    } else {
      var front, e := steps[..|steps| - 1], steps[|steps| - 1];
      RunTracked(rules, drives, front, v, c);
      var s := Run(rules, Init(drives), front).state;
      StepTracked(s, e, Latest(rules, Init(drives), front, v, c), v, c);
      StepOnItsWay(s, e, v, c);
      NumbersKept(s, e);
      StructureKept(rules, s, e);
    }
  }

  /** What was sent last for a chunk is what was submitted last for it. */
  predicate LatestSentLast(out: seq<Record>, name: Name, total: nat, last: Option<Read>, c: nat)
    requires IsChunk(total, c)
  {
    && last.Some? && |last.value.buf| == CHUNK
    && var sent := LastRecord(out, name, c);
      sent.Some? && |sent.value| == CHUNK && SameSectors(sent.value, last.value.buf, total, c)
  }

  /** At the end of a run, a chunk has arrived exactly when what was sent last is what was submitted last. */
  lemma ArrivedIffSentLast(s: Mig, last: Option<Read>, d0: map<Name, seq<Sector>>, v: nat, c: nat)
    requires Kept(s, last, v, c) && Finished(s) && Fits(s, d0) && OnChunks(s.out, d0)
    ensures var dev := s.devs[v];
      && Replay(d0, s.out).Disks? && dev.name in Replay(d0, s.out).disks
      && |Replay(d0, s.out).disks[dev.name]| == |dev.disk|
      && (SameChunk(Replay(d0, s.out).disks[dev.name], dev.disk, c)
          <==> LatestSentLast(s.out, dev.name, |dev.disk|, last, c))
  {
    ReceiverHolds(d0, s.out, s.devs[v].name, c);
    assert Settled(s.devs[v], c);
    LatestShows(s, last.value, v, c);
    SentDecides(Replay(d0, s.out).disks[s.devs[v].name], s.devs[v].disk, LastRecord(s.out, s.devs[v].name, c).value,
                last.value.buf, c);
  }

  lemma LatestShows(s: Mig, r: Read, v: nat, c: nat)
    requires v < |s.devs| && IsChunk(|s.devs[v].disk|, c) && Fresh(s, r, v, c) && s.inflight == []
    requires Settled(s.devs[v], c)
    ensures Shows(r.buf, s.devs[v].disk, c)
  {
  }

  lemma SentDecides(after: seq<Sector>, disk: seq<Sector>, sent: seq<Sector>, buf: seq<Sector>, c: nat)
    requires |after| == |disk| && IsChunk(|disk|, c) && |sent| == |buf| == CHUNK && Shows(sent, after, c)
    requires Shows(buf, disk, c)
    ensures SameChunk(after, disk, c) <==> SameSectors(sent, buf, |disk|, c)
  {
    if SameChunk(after, disk, c) {
      forall o | 0 <= o < Sectors(|disk|, c) ensures sent[o] == buf[o] { assert At(after, c, o) == At(disk, c, o); }
    } else {
      var o :| 0 <= o < Sectors(|disk|, c) && At(after, c, o) != At(disk, c, o);
      assert sent[o] != buf[o];
    }
  }

  /** For chunk `c` of device `v`, the record that a run sends last holds the sectors of the read that it
      submits last. */
  predicate SentLast(rules: Rules, drives: seq<Drive>, steps: seq<Step>, v: nat, c: nat)
    requires Run(rules, Init(drives), steps).Reached?
  {
    var s := Run(rules, Init(drives), steps).state;
    && v < |s.devs| && IsChunk(|s.devs[v].disk|, c)
    && LatestSentLast(s.out, s.devs[v].name, |s.devs[v].disk|, Latest(rules, Init(drives), steps, v, c), c)
  }

  /** Under any rules, and so in any order of completion: a migration that ends finished has copied the
      disks if and only if, for every chunk, the record sent last holds the sectors of the read
      submitted last. */
  lemma CopiedIffLatestSentLast(rules: Rules, drives: seq<Drive>, steps: seq<Step>, d0: map<Name, seq<Sector>>)
    requires Distinct(drives) && Fits(Init(drives), d0) && Run(rules, Init(drives), steps).Reached?
    requires Finished(Run(rules, Init(drives), steps).state)
    ensures var s := Run(rules, Init(drives), steps).state;
      && Framed(s.out) && Replay(d0, s.out).Disks?
      && (Copied(s, Replay(d0, s.out).disks)
        <==> forall v, c: nat :: 0 <= v < |s.devs| && CHUNK * c < |s.devs[v].disk| ==>
          SentLast(rules, drives, steps, v, c))
  {
    RunOnChunks(rules, drives, steps, d0);
    var s := Run(rules, Init(drives), steps).state;
    ReceiverKeeps(d0, s.out);
    var d := Replay(d0, s.out).disks;
    forall v, c: nat | 0 <= v < |s.devs| && CHUNK * c < |s.devs[v].disk|
      ensures SameChunk(d[s.devs[v].name], s.devs[v].disk, c) <==> SentLast(rules, drives, steps, v, c)
    {
      RunTracked(rules, drives, steps, v, c);
      ArrivedIffSentLast(s, Latest(rules, Init(drives), steps, v, c), d0, v, c);
    }
    CopiedByChunks(s, d);
  }

  lemma CopiedByChunks(s: Mig, d: map<Name, seq<Sector>>)
    requires Fits(s, d)
    ensures Copied(s, d) <==> forall v, c: nat :: 0 <= v < |s.devs| && CHUNK * c < |s.devs[v].disk| ==>
      SameChunk(d[s.devs[v].name], s.devs[v].disk, c)
  {
    if forall v, c: nat :: 0 <= v < |s.devs| && CHUNK * c < |s.devs[v].disk| ==>
      SameChunk(d[s.devs[v].name], s.devs[v].disk, c) {
      forall v | 0 <= v < |s.devs| ensures d[s.devs[v].name] == s.devs[v].disk {
        SameDisk(d[s.devs[v].name], s.devs[v].disk);
      }
    }
  }
}
