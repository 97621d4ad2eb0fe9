/**
  Why the two rules are there.  If reads of one chunk complete out of order, a finished migration can
  leave stale data behind.  If the flush before stage 3 leaves blocks in the queue, the copy is right
  exactly when the chunks they hold had arrived already or are sent again.
 */
module BlockHypotheses {
  import opened BlockProtocol
  import opened BlockStream
  import opened BlockAgreement
  import opened BlockAccounting
  import opened BlockOrder

  // ---------- completion out of order ----------

  const OLD: Sector := [1]
  const NEW: Sector := [2]
  const UNORDERED := Rules(false, true)

  /** `s` goes to `t` by step `e`. */
  predicate Goes(rules: Rules, s: Mig, e: Step, t: Mig)
  {
    Enabled(rules, s, e) && Apply(s, e) == t
  }

  lemma RunOn(rules: Rules, s: Mig, steps: seq<Step>, t: Mig, e: Step, u: Mig)
    requires Run(rules, s, steps) == Reached(t) && Goes(rules, t, e, u)
    ensures Run(rules, s, steps + [e]) == Reached(u)
  {
    assert (steps + [e])[..|steps + [e]| - 1] == steps;
  }

  /** A device of one sector, past its bulk phase. */
  function Disk(x: Sector, dirty: set<nat>, writing: multiset<nat>, aio: set<nat>): Device
  {
    Device([7], [x], dirty, writing, aio, 1, true)
  }

  function World(d: Device, inflight: seq<Blk>, queue: seq<Blk>, sent: seq<nat>, next: nat, out: seq<Record>): Mig
  {
    Mig([d], inflight, queue, sent, next, |inflight|, |queue|, |sent|, true, out)
  }

  function Picked(id: nat, junk: seq<Sector>, x: Sector): Blk
    requires |junk| == CHUNK
  {
    Blk(id, 0, 0, junk[0 := x], {0})
  }

  lemma SmallSets(none: set<nat>, one: set<nat>, zero: multiset<nat>, single: multiset<nat>)
    requires none == {} && one == {0} && zero == multiset{} && single == multiset{0}
    ensures none - {0} == none && one - {0} == none && none + {0} == one
    ensures zero + multiset{0} == single && single - multiset{0} == zero
  {
  }

  /** The only device changes. */
  lemma OneDevice(d: Device, e: Device)
    ensures [d][0 := e] == [e]
  {
  }

  /** The bulk read picks up the old contents, and is left in flight. */
  lemma BulkPhase(rules: Rules, junk: seq<Sector>) returns (steps: seq<Step>)
    requires |junk| == CHUNK
    ensures Run(rules, Init([Drive([7], false, [OLD])]), steps)
         == Reached(World(Disk(OLD, {}, multiset{}, {}), [Picked(0, junk, OLD)], [], [], 1, []))
  {
    SmallSets({}, {0}, multiset{}, multiset{0});
    var drive := Drive([7], false, [OLD]);
    var s0 := Mig([Device([7], [OLD], {}, multiset{}, {}, 0, false)], [], [], [], 0, 0, 0, 0, false, []);
    assert [drive][1..] == [];
    assert InitDevices([drive]) == [s0.devs[0]] + InitDevices([]);
    assert Init([drive]).devs == s0.devs;
    var d := Disk(OLD, {}, multiset{}, {});
    OneDevice(s0.devs[0], d);
    assert BulkChunk(s0.devs[0]) == 0;
    var s1 := Mig([d], [Blk(0, 0, 0, junk, {})], [], [], 1, 1, 0, 0, false, []);
    assert Apply(s0, Bulk(0, junk)).devs == [d] && Apply(s0, Bulk(0, junk)).inflight == s1.inflight;
    RunOn(rules, s0, [], s0, Bulk(0, junk), s1);
    var s2 := s1.(inflight := [Picked(0, junk, OLD)]);
    assert Apply(s1, Fetch(0, 0)).inflight == s2.inflight;
    RunOn(rules, s0, [] + [Bulk(0, junk)], s1, Fetch(0, 0), s2);
    RunOn(rules, s0, [] + [Bulk(0, junk)] + [Fetch(0, 0)], s2, BulkDone, s2.(bulkCompleted := true));
    steps := [] + [Bulk(0, junk)] + [Fetch(0, 0)] + [BulkDone];
  }

  lemma RunOnFour(s: Mig, steps: seq<Step>, s1: Mig, e1: Step, s2: Mig, e2: Step, s3: Mig, e3: Step, s4: Mig, e4: Step,
                  s5: Mig)
    requires Run(UNORDERED, s, steps) == Reached(s1)
    requires Goes(UNORDERED, s1, e1, s2) && Goes(UNORDERED, s2, e2, s3) && Goes(UNORDERED, s3, e3, s4)
    requires Goes(UNORDERED, s4, e4, s5)
    ensures Run(UNORDERED, s, steps + [e1] + [e2] + [e3] + [e4]) == Reached(s5)
  {
    RunOn(UNORDERED, s, steps, s1, e1, s2);
    RunOn(UNORDERED, s, steps + [e1], s2, e2, s3);
    RunOn(UNORDERED, s, steps + [e1] + [e2], s3, e3, s4);
    RunOn(UNORDERED, s, steps + [e1] + [e2] + [e3], s4, e4, s5);
  }

  /** The chunk is written, and read again while the first read is still in flight. */
  lemma ReadAgain(s0: Mig, steps: seq<Step>, junk: seq<Sector>) returns (more: seq<Step>)
    requires |junk| == CHUNK
    requires Run(UNORDERED, s0, steps)
      == Reached(World(Disk(OLD, {}, multiset{}, {}), [Picked(0, junk, OLD)], [], [], 1, []))
    ensures Run(UNORDERED, s0, more)
         == Reached(World(Disk(NEW, {}, multiset{}, {0}), [Picked(0, junk, OLD), Picked(1, junk, NEW)], [], [], 2, []))
  {
    var first := Picked(0, junk, OLD);
    var s1 := World(Disk(OLD, {}, multiset{}, {}), [first], [], [], 1, []);
    var s2 := World(Disk(NEW, {}, multiset{0}, {}), [first], [], [], 1, []);
    var s3 := World(Disk(NEW, {0}, multiset{}, {}), [first], [], [], 1, []);
    var s4 := World(Disk(NEW, {}, multiset{}, {0}), [first, Blk(1, 0, 0, junk, {})], [], [], 2, []);
    var s5 := World(Disk(NEW, {}, multiset{}, {0}), [first, Picked(1, junk, NEW)], [], [], 2, []);
    Written(first);
    ReadStarts(first, junk);
    ReadPicksUp(first, junk);
    RunOnFour(s0, steps, s1, GuestData(0, 0, 0, NEW), s2, GuestMark(0, 0), s3, Dirty(0, 0, junk), s4, Fetch(1, 0), s5);
    more := steps + [GuestData(0, 0, 0, NEW)] + [GuestMark(0, 0)] + [Dirty(0, 0, junk)] + [Fetch(1, 0)];
  }

  lemma Written(b: Blk)
    ensures Goes(UNORDERED, World(Disk(OLD, {}, multiset{}, {}), [b], [], [], 1, []), GuestData(0, 0, 0, NEW),
                 World(Disk(NEW, {}, multiset{0}, {}), [b], [], [], 1, []))
    ensures Goes(UNORDERED, World(Disk(NEW, {}, multiset{0}, {}), [b], [], [], 1, []), GuestMark(0, 0),
                 World(Disk(NEW, {0}, multiset{}, {}), [b], [], [], 1, []))
  {
    SmallSets({}, {0}, multiset{}, multiset{0});
    assert [OLD][0 := NEW] == [NEW];
    OneDevice(Disk(OLD, {}, multiset{}, {}), Disk(NEW, {}, multiset{0}, {}));
    OneDevice(Disk(NEW, {}, multiset{0}, {}), Disk(NEW, {0}, multiset{}, {}));
  }

  lemma ReadStarts(b: Blk, junk: seq<Sector>)
    requires |junk| == CHUNK
    ensures Goes(UNORDERED, World(Disk(NEW, {0}, multiset{}, {}), [b], [], [], 1, []), Dirty(0, 0, junk),
                 World(Disk(NEW, {}, multiset{}, {0}), [b, Blk(1, 0, 0, junk, {})], [], [], 2, []))
  {
    SmallSets({}, {0}, multiset{}, multiset{0});
    OneDevice(Disk(NEW, {0}, multiset{}, {}), Disk(NEW, {}, multiset{}, {0}));
    assert [b] + [Blk(1, 0, 0, junk, {})] == [b, Blk(1, 0, 0, junk, {})];
  }

  lemma ReadPicksUp(b: Blk, junk: seq<Sector>)
    requires |junk| == CHUNK
    ensures Goes(UNORDERED, World(Disk(NEW, {}, multiset{}, {0}), [b, Blk(1, 0, 0, junk, {})], [], [], 2, []),
                 Fetch(1, 0),
                 World(Disk(NEW, {}, multiset{}, {0}), [b, Picked(1, junk, NEW)], [], [], 2, []))
  {
    SmallSets({}, {0}, multiset{}, multiset{0});
    assert [b, Blk(1, 0, 0, junk, {})][1 := Picked(1, junk, NEW)] == [b, Picked(1, junk, NEW)];
  }

  /** A block of the only chunk, complete. */
  predicate Whole(b: Blk)
  {
    SameKey(b, 0, 0) && 0 in b.got && |b.buf| == CHUNK
  }

  /** The second read completes first, and both are sent in that order. */
  lemma CompleteSwapped(s0: Mig, steps: seq<Step>, a: Blk, b: Blk) returns (more: seq<Step>)
    requires Whole(a) && Whole(b)
    requires Run(UNORDERED, s0, steps) == Reached(World(Disk(NEW, {}, multiset{}, {0}), [a, b], [], [], 2, []))
    ensures Run(UNORDERED, s0, more)
         == Reached(World(Disk(NEW, {}, multiset{}, {}), [], [], [b.id, a.id], 2,
                          [Block([7], 0, b.buf), Block([7], 0, a.buf)]))
  {
    var d := Disk(NEW, {}, multiset{}, {});
    SecondCompletes(a, b);
    FirstCompletes(a, b);
    FirstSent(a, b);
    SecondSent(a, b);
    RunOnFour(s0, steps, World(Disk(NEW, {}, multiset{}, {0}), [a, b], [], [], 2, []),
              Complete(1), World(d, [a], [b], [], 2, []), Complete(0), World(d, [], [b, a], [], 2, []),
              Send, World(d, [], [a], [b.id], 2, [Block([7], 0, b.buf)]),
              Send, World(d, [], [], [b.id, a.id], 2, [Block([7], 0, b.buf), Block([7], 0, a.buf)]));
    more := steps + [Complete(1)] + [Complete(0)] + [Send] + [Send];
  }

  lemma SecondCompletes(a: Blk, b: Blk)
    requires Whole(a) && Whole(b)
    ensures Goes(UNORDERED, World(Disk(NEW, {}, multiset{}, {0}), [a, b], [], [], 2, []), Complete(1),
                 World(Disk(NEW, {}, multiset{}, {}), [a], [b], [], 2, []))
  {
    SmallSets({}, {0}, multiset{}, multiset{0});
    OneDevice(Disk(NEW, {}, multiset{}, {0}), Disk(NEW, {}, multiset{}, {}));
    assert [a, b][..1] + [a, b][2..] == [a] && [] + [b] == [b];
  }

  lemma FirstCompletes(a: Blk, b: Blk)
    requires Whole(a)
    ensures Goes(UNORDERED, World(Disk(NEW, {}, multiset{}, {}), [a], [b], [], 2, []), Complete(0),
                 World(Disk(NEW, {}, multiset{}, {}), [], [b, a], [], 2, []))
  {
    SmallSets({}, {0}, multiset{}, multiset{0});
    OneDevice(Disk(NEW, {}, multiset{}, {}), Disk(NEW, {}, multiset{}, {}));
    assert [a][..0] + [a][1..] == [] && [b] + [a] == [b, a];
  }

  lemma FirstSent(a: Blk, b: Blk)
    requires Whole(b)
    ensures Goes(UNORDERED, World(Disk(NEW, {}, multiset{}, {}), [], [b, a], [], 2, []), Send,
                 World(Disk(NEW, {}, multiset{}, {}), [], [a], [b.id], 2, [Block([7], 0, b.buf)]))
  {
    assert [b, a][1..] == [a] && [] + [b.id] == [b.id] && [] + [Block([7], 0, b.buf)] == [Block([7], 0, b.buf)];
  }

  lemma SecondSent(a: Blk, b: Blk)
    requires Whole(a)
    ensures Goes(UNORDERED, World(Disk(NEW, {}, multiset{}, {}), [], [a], [b.id], 2, [Block([7], 0, b.buf)]), Send,
                 World(Disk(NEW, {}, multiset{}, {}), [], [], [b.id, a.id], 2,
                       [Block([7], 0, b.buf), Block([7], 0, a.buf)]))
  {
    assert [a][1..] == [] && [b.id] + [a.id] == [b.id, a.id];
    assert [Block([7], 0, b.buf)] + [Block([7], 0, a.buf)] == [Block([7], 0, b.buf), Block([7], 0, a.buf)];
  }

  lemma StaleWins(junk: seq<Sector>)
    requires |junk| == CHUNK
    ensures var out := [Block([7], 0, junk[0 := NEW]), Block([7], 0, junk[0 := OLD])];
      Replay(map[[7] := [OLD]], out) == Disks(map[[7] := [OLD]])
  {
    var d, e := map[[7] := [OLD]], map[[7] := [NEW]];
    var first, second := Block([7], 0, junk[0 := NEW]), Block([7], 0, junk[0 := OLD]);
    assert Overwrite([OLD], 0, junk[0 := NEW]) == [NEW] && Overwrite([NEW], 0, junk[0 := OLD]) == [OLD];
    ReplayOneMore(d, [], first);
    assert [] + [first] == [first];
    assert LoadRecord(d, first) == Disks(e);
    ReplayOneMore(d, [first], second);
    assert [first] + [second] == [first, second];
    assert LoadRecord(e, second) == Disks(d);
  }

  /** Without the order of completion a migration can finish and leave the old contents behind. */
  lemma OutOfOrderLosesData(junk: seq<Sector>) returns (steps: seq<Step>, s: Mig)
    requires |junk| == CHUNK
    ensures Run(UNORDERED, Init([Drive([7], false, [OLD])]), steps) == Reached(s) && Finished(s) && Framed(s.out)
    ensures Replay(map[[7] := [OLD]], s.out) == Disks(map[[7] := [OLD]]) && !Copied(s, map[[7] := [OLD]])
  {
    var s0 := Init([Drive([7], false, [OLD])]);
    steps := BulkPhase(UNORDERED, junk);
    steps := ReadAgain(s0, steps, junk);
    var a, b := Picked(0, junk, OLD), Picked(1, junk, NEW);
    steps := CompleteSwapped(s0, steps, a, b);
    s := World(Disk(NEW, {}, multiset{}, {}), [], [], [b.id, a.id], 2, [Block([7], 0, b.buf), Block([7], 0, a.buf)]);
    StaleWins(junk);
    assert s.devs[0].disk == [NEW] && [NEW][0] != [OLD][0];
  }

  // ---------- blocks left in the queue ----------

  const UNFLUSHED := Rules(true, false)

  /** Stage 3 after its flush: chunks are sent synchronously, and records without data are written. */
  predicate StageThree(steps: seq<Step>)
  {
    forall i :: 0 <= i < |steps| ==> steps[i].Sync? || steps[i].Note?
  }

  /** From `s` to `t` the disks stand still and chunks only become clean; at the receiver, with disks
      `d` before and `f` after, those chunks are up to date and the clean ones are as they were. */
  ghost predicate Resent(s: Mig, d: map<Name, seq<Sector>>, t: Mig, f: map<Name, seq<Sector>>)
    requires Fits(s, d)
  {
    && |t.devs| == |s.devs| && Fits(t, f)
    && forall v :: 0 <= v < |s.devs| ==>
      && t.devs[v].name == s.devs[v].name && t.devs[v].disk == s.devs[v].disk && t.devs[v].dirty <= s.devs[v].dirty
      && forall c: nat :: CHUNK * c < |s.devs[v].disk| ==>
        ChunkResent(s.devs[v], t.devs[v], d[s.devs[v].name], f[s.devs[v].name], c)
  }

  predicate ChunkResent(a: Device, b: Device, before: seq<Sector>, after: seq<Sector>, c: nat)
    requires |a.disk| == |before| == |after| && CHUNK * c < |a.disk|
  {
    && (c !in a.dirty ==> SameChunk(after, before, c))
    && (c in a.dirty && c !in b.dirty ==> SameChunk(after, a.disk, c))
  }

  lemma SyncResends(s: Mig, d: map<Name, seq<Sector>>, t: Mig, f: map<Name, seq<Sector>>, e: Step)
    requires Fits(s, d) && Resent(s, d, t, f) && Structured(t) && e.Sync? && Enabled(UNFLUSHED, t, e)
    ensures var g := Arrived(t, f, e.dev, e.chunk, BlockProtocol.Filled(t.devs[e.dev].disk, e.chunk, e.buf));
      Resent(s, d, Apply(t, e), g)
  {
    var u, buf := Apply(t, e), BlockProtocol.Filled(t.devs[e.dev].disk, e.chunk, e.buf);
    var g := Arrived(t, f, e.dev, e.chunk, buf);
    ArrivedChunks(t, f, e.dev, e.chunk, buf, e.dev, e.chunk);
    forall v, c: nat | 0 <= v < |s.devs| && CHUNK * c < |s.devs[v].disk|
      ensures ChunkResent(s.devs[v], u.devs[v], d[s.devs[v].name], g[s.devs[v].name], c)
    {
      assert ChunkResent(s.devs[v], t.devs[v], d[s.devs[v].name], f[s.devs[v].name], c);
      ArrivedChunks(t, f, e.dev, e.chunk, buf, v, c);
    }
  }

  lemma NoteResends(s: Mig, d: map<Name, seq<Sector>>, t: Mig, f: map<Name, seq<Sector>>, u: Mig)
    requires Fits(s, d) && Resent(s, d, t, f) && u.devs == t.devs
    ensures Resent(s, d, u, f)
  {
  }

  /** One more record, after which the receiver has disks `g`. */
  lemma OneMoreResent(s: Mig, d: map<Name, seq<Sector>>, t: Mig, u: Mig, r: Record, d0: map<Name, seq<Sector>>,
                      g: map<Name, seq<Sector>>)
    requires Fits(s, d) && Framed(t.out) && Replay(d0, t.out).Disks? && (r.Block? ==> |r.buf| == CHUNK)
    requires u.out == t.out + [r] && LoadRecord(Replay(d0, t.out).disks, r) == Disks(g) && Resent(s, d, u, g)
    ensures Framed(u.out) && Replay(d0, u.out).Disks? && Resent(s, d, u, Replay(d0, u.out).disks)
  {
    ReplayOneMore(d0, t.out, r);
  }

  /** The state `t` has been reached from `s` by stage 3, which sends only good records. */
  ghost predicate Resending(s: Mig, t: Mig, d0: map<Name, seq<Sector>>)
  {
    && Structured(t) && Framed(s.out) && Framed(t.out) && Replay(d0, s.out).Disks? && Replay(d0, t.out).Disks?
    && Fits(s, Replay(d0, s.out).disks) && Resent(s, Replay(d0, s.out).disks, t, Replay(d0, t.out).disks)
  }

  lemma SyncStep(s: Mig, t: Mig, e: Step, d0: map<Name, seq<Sector>>)
    requires Resending(s, t, d0) && e.Sync? && Enabled(UNFLUSHED, t, e) && Structured(Apply(t, e))
    ensures Resending(s, Apply(t, e), d0)
  {
    var d, f := Replay(d0, s.out).disks, Replay(d0, t.out).disks;
    var buf := BlockProtocol.Filled(t.devs[e.dev].disk, e.chunk, e.buf);
    SyncResends(s, d, t, f, e);
    OneMoreResent(s, d, t, Apply(t, e), Block(t.devs[e.dev].name, CHUNK * e.chunk, buf), d0,
      Arrived(t, f, e.dev, e.chunk, buf));
  }

  lemma NoteStep(s: Mig, t: Mig, e: Step, d0: map<Name, seq<Sector>>)
    requires Resending(s, t, d0) && e.Note? && Enabled(UNFLUSHED, t, e) && Structured(Apply(t, e))
    ensures Resending(s, Apply(t, e), d0)
  {
    var d, f := Replay(d0, s.out).disks, Replay(d0, t.out).disks;
    NoteResends(s, d, t, f, Apply(t, e));
    OneMoreResent(s, d, t, Apply(t, e), e.record, d0, f);
  }

  lemma {:induction false} StageThreeResends(s: Mig, steps: seq<Step>, d0: map<Name, seq<Sector>>)
    requires Inv(s, d0) && StageThree(steps) && Run(UNFLUSHED, s, steps).Reached?
    ensures Resending(s, Run(UNFLUSHED, s, steps).state, d0)
    decreases |steps|
  {
    if steps == [] {
    } else {
      StageThreeResends(s, steps[..|steps| - 1], d0);
      var t, e := Run(UNFLUSHED, s, steps[..|steps| - 1]).state, steps[|steps| - 1];
      assert steps[|steps| - 1].Sync? || steps[|steps| - 1].Note?;
      StructureKept(UNFLUSHED, t, e);
      if e.Sync? { SyncStep(s, t, e, d0); } else { NoteStep(s, t, e, d0); }
    }
  }

  predicate IsClean(s: Mig, v: int, c: nat)
  {
    0 <= v < |s.devs| && CHUNK * c < |s.devs[v].disk| && c !in s.devs[v].dirty
  }

  /** The receiver with disks `d` has chunk `c` of device `v`. */
  predicate Has(s: Mig, d: map<Name, seq<Sector>>, v: int, c: nat)
  {
    && 0 <= v < |s.devs| && CHUNK * c < |s.devs[v].disk|
    && s.devs[v].name in d && |d[s.devs[v].name]| == |s.devs[v].disk| && SameChunk(d[s.devs[v].name], s.devs[v].disk, c)
  }

  lemma CopiedHas(s: Mig, d: map<Name, seq<Sector>>, t: Mig, f: map<Name, seq<Sector>>, v: nat, c: nat)
    requires Structured(s) && Fits(s, d) && Resent(s, d, t, f) && Copied(t, f) && IsClean(s, v, c)
    ensures Has(s, d, v, c)
  {
    assert ChunkResent(s.devs[v], t.devs[v], d[s.devs[v].name], f[s.devs[v].name], c);
    SameChunkTurns(f[s.devs[v].name], d[s.devs[v].name], c);
  }

  lemma DeviceCopied(s: Mig, d: map<Name, seq<Sector>>, t: Mig, f: map<Name, seq<Sector>>, v: nat)
    requires Structured(s) && Fits(s, d) && Resent(s, d, t, f) && v < |s.devs| && t.devs[v].dirty == {}
    requires forall c: nat :: IsClean(s, v, c) ==> Has(s, d, v, c)
    ensures f[t.devs[v].name] == t.devs[v].disk
  {
    forall c: nat | IsChunk(|s.devs[v].disk|, c) ensures SameChunk(f[s.devs[v].name], s.devs[v].disk, c) {
      assert ChunkResent(s.devs[v], t.devs[v], d[s.devs[v].name], f[s.devs[v].name], c);
      if c !in s.devs[v].dirty {
        assert IsClean(s, v, c) && Has(s, d, v, c);
        SameChunkJoins(f[s.devs[v].name], d[s.devs[v].name], s.devs[v].disk, c);
      }
    }
    SameDisk(f[s.devs[v].name], s.devs[v].disk);
  }

  /** Chunks that are not dirty, whether or not blocks for them are left, decide the copy. */
  lemma CopiedIffCleanArrived(s: Mig, d: map<Name, seq<Sector>>, t: Mig, f: map<Name, seq<Sector>>)
    requires Structured(s) && Fits(s, d) && Resent(s, d, t, f)
    requires forall v :: 0 <= v < |t.devs| ==> t.devs[v].dirty == {}
    ensures Copied(t, f) <==> forall v, c: nat :: IsClean(s, v, c) ==> Has(s, d, v, c)
  {
    if Copied(t, f) {
      forall v, c: nat | IsClean(s, v, c) ensures Has(s, d, v, c) { CopiedHas(s, d, t, f, v, c); }
    } else if forall v, c: nat :: IsClean(s, v, c) ==> Has(s, d, v, c) {
      forall v | 0 <= v < |t.devs| ensures t.devs[v].name in f && f[t.devs[v].name] == t.devs[v].disk {
        DeviceCopied(s, d, t, f, v);
      }
    }
  }

  lemma SameChunkTurns(a: seq<Sector>, b: seq<Sector>, c: nat)
    requires |a| == |b| && IsChunk(|a|, c) && SameChunk(a, b, c)
    ensures SameChunk(b, a, c)
  {
  }

  lemma SameChunkJoins(a: seq<Sector>, b: seq<Sector>, x: seq<Sector>, c: nat)
    requires |a| == |b| == |x| && IsChunk(|a|, c) && SameChunk(a, b, c) && SameChunk(b, x, c)
    ensures SameChunk(a, x, c)
  {
    forall o | 0 <= o < Sectors(|a|, c) ensures At(a, c, o) == At(x, c, o) { assert At(a, c, o) == At(b, c, o); }
  }

  // ---------- what the sender can tell ----------

  /** A clean chunk with a block left in the queue. */
  predicate IsLeftover(s: Mig, v: int, c: nat)
  {
    0 <= v < |s.devs| && CHUNK * c < |s.devs[v].disk| && c !in s.devs[v].dirty && Last(s.queue, v, c).Some?
  }

  /** The last record already sent for a chunk holds what the last block left for it holds. */
  predicate LeftoverSent(s: Mig, v: nat, c: nat)
    requires v < |s.devs| && IsChunk(|s.devs[v].disk|, c)
  {
    var left, sent := Last(s.queue, v, c), LastRecord(s.out, s.devs[v].name, c);
    && left.Some? && |left.value.buf| == CHUNK && sent.Some? && |sent.value| == CHUNK
    && SameSectors(sent.value, left.value.buf, |s.devs[v].disk|, c)
  }

  /** This is so for every clean chunk with a block left in the queue. */
  ghost predicate LeftoversSent(s: Mig)
  {
    forall v, c: nat :: IsLeftover(s, v, c) ==> LeftoverSent(s, v, c)
  }

  /** A receiver that starts with disks `d0` ends with the sender's. */
  ghost predicate EndsCopied(t: Mig, d0: map<Name, seq<Sector>>)
  {
    Framed(t.out) && Replay(d0, t.out).Disks? && Copied(t, Replay(d0, t.out).disks)
  }

  /** The guest has stopped, its writes are done, and no read is in flight. */
  predicate Quiet(s: Mig)
  {
    s.bulkCompleted && s.inflight == [] && forall v :: 0 <= v < |s.devs| ==> s.devs[v].writing == multiset{}
  }

  /** The block left for a chunk holds the chunk. */
  lemma LeftoverShows(s: Mig, d: map<Name, seq<Sector>>, v: nat, c: nat)
    requires Structured(s) && Fits(s, d) && Agree(s, d) && Quiet(s)
    requires v < |s.devs| && CHUNK * c < |s.devs[v].disk| && c !in s.devs[v].dirty
    ensures match Last(s.queue, v, c)
      case Some(b) => |b.buf| == CHUNK && Shows(b.buf, s.devs[v].disk, c)
      case None => SameChunk(d[s.devs[v].name], s.devs[v].disk, c)
  {
    assert Settled(s.devs[v], c);
    assert UnderWay(s, d, v, c);
    assert Pipe(s) == s.queue;
    if Last(s.queue, v, c).Some? {
      var b := Last(s.queue, v, c).value;
      var i :| 0 <= i < |s.queue| && s.queue[i] == b;
      assert GoodBlk(s, s.queue[i]) && HasAll(s.queue[i], |s.devs[s.queue[i].dev].disk|);
    }
  }

  /** Whether a clean chunk with a block left for it has arrived. */
  lemma LeftoverDecides(s: Mig, d0: map<Name, seq<Sector>>, v: nat, c: nat)
    requires Inv(s, d0) && Quiet(s) && Fits(s, d0) && OnChunks(s.out, d0)
    requires IsLeftover(s, v, c)
    ensures var name, disk := s.devs[v].name, s.devs[v].disk;
      SameChunk(Replay(d0, s.out).disks[name], disk, c)
      <==> if LastRecord(s.out, name, c).Some? then LeftoverSent(s, v, c) else SameChunk(d0[name], disk, c)
  {
    var name, disk, d := s.devs[v].name, s.devs[v].disk, Replay(d0, s.out).disks;
    ReceiverHolds(d0, s.out, name, c);
    LeftoverShows(s, d, v, c);
    if LastRecord(s.out, name, c).Some? {
      SentDecides(d[name], disk, LastRecord(s.out, name, c).value, Last(s.queue, v, c).value.buf, c);
    } else {
      SameChunkTurns(d[name], d0[name], c);
      if SameChunk(d0[name], disk, c) { SameChunkJoins(d[name], d0[name], disk, c); }
      if SameChunk(d[name], disk, c) { SameChunkJoins(d0[name], d[name], disk, c); }
    }
  }

  /** A disk of the same size that differs in every sector. */
  function Spoilt(disk: seq<Sector>): (r: seq<Sector>)
    ensures |r| == |disk|
  {
    seq(|disk|, i requires 0 <= i < |disk| => disk[i] + [0])
  }

  function SpoiltDisks(devs: seq<Device>): map<Name, seq<Sector>>
  {
    if devs == [] then map[]
    else SpoiltDisks(devs[..|devs| - 1])[devs[|devs| - 1].name := Spoilt(devs[|devs| - 1].disk)]
  }

  lemma {:induction false} SpoiltFit(devs: seq<Device>, v: nat)
    requires v < |devs| && forall u, w :: 0 <= u < w < |devs| ==> devs[u].name != devs[w].name
    ensures devs[v].name in SpoiltDisks(devs) && SpoiltDisks(devs)[devs[v].name] == Spoilt(devs[v].disk)
    decreases |devs|
  {
    if v == |devs| - 1 {
    } else {
      SpoiltFit(devs[..|devs| - 1], v);
    }
  }

  lemma SpoiltDiffers(disk: seq<Sector>, c: nat)
    requires IsChunk(|disk|, c)
    ensures !SameChunk(Spoilt(disk), disk, c)
  {
    assert |At(Spoilt(disk), c, 0)| == |At(disk, c, 0)| + 1;
  }

  /** With one receiver: it gets a copy exactly when every clean chunk with a block left had arrived. */
  lemma OneReceiver(s: Mig, steps: seq<Step>, t: Mig, d0: map<Name, seq<Sector>>)
    requires Inv(s, d0) && Quiet(s) && StageThree(steps) && Run(UNFLUSHED, s, steps) == Reached(t)
    requires forall v :: 0 <= v < |t.devs| ==> t.devs[v].dirty == {}
    ensures EndsCopied(t, d0) <==> forall v, c: nat :: IsLeftover(s, v, c) ==> Has(s, Replay(d0, s.out).disks, v, c)
  {
    StageThreeResends(s, steps, d0);
    CopiedIffCleanArrived(s, Replay(d0, s.out).disks, t, Replay(d0, t.out).disks);
    LeftoversDecide(s, Replay(d0, s.out).disks);
  }

  /** The other clean chunks have arrived in any case. */
  lemma LeftoversDecide(s: Mig, d: map<Name, seq<Sector>>)
    requires Structured(s) && Fits(s, d) && Agree(s, d) && Quiet(s)
    ensures (forall v, c: nat :: IsClean(s, v, c) ==> Has(s, d, v, c))
      <==> forall v, c: nat :: IsLeftover(s, v, c) ==> Has(s, d, v, c)
  {
    if forall v, c: nat :: IsClean(s, v, c) ==> Has(s, d, v, c) {
      forall v, c: nat | IsLeftover(s, v, c) ensures Has(s, d, v, c) { assert IsClean(s, v, c); }
    }
    if forall v, c: nat :: IsLeftover(s, v, c) ==> Has(s, d, v, c) {
      forall v, c: nat | IsClean(s, v, c) ensures Has(s, d, v, c) {
        if !IsLeftover(s, v, c) { LeftoverShows(s, d, v, c); }
      }
    }
  }

  lemma ReachedInv(drives: seq<Drive>, before: seq<Step>, s: Mig, d0: map<Name, seq<Sector>>)
    requires Distinct(drives) && Run(ALL_RULES, Init(drives), before) == Reached(s) && Fits(Init(drives), d0)
    ensures Inv(s, d0) && Fits(s, d0) && OnChunks(s.out, d0)
  {
    InitHasInv(drives, d0);
    RunKeepsInv(Init(drives), before, d0);
    RunOnChunks(ALL_RULES, drives, before, d0);
  }

  /** When the flush on entry to stage 3 stops early, the queue it leaves is thrown away.  Every receiver
      gets a copy if and only if, for each clean chunk with a block left in the queue, the last record
      already sent holds what the last block left holds. */
  lemma LeftoverQueue(drives: seq<Drive>, before: seq<Step>, s: Mig, steps: seq<Step>, t: Mig)
    requires Distinct(drives) && Run(ALL_RULES, Init(drives), before) == Reached(s) && Quiet(s)
    requires StageThree(steps) && Run(UNFLUSHED, s, steps) == Reached(t)
    requires forall v :: 0 <= v < |t.devs| ==> t.devs[v].dirty == {}
    ensures (forall d0 :: Fits(Init(drives), d0) ==> EndsCopied(t, d0)) <==> LeftoversSent(s)
  {
    if LeftoversSent(s) {
      forall d0 | Fits(Init(drives), d0) ensures EndsCopied(t, d0) {
        ReachedInv(drives, before, s, d0);
        OneReceiver(s, steps, t, d0);
        forall v, c: nat | IsLeftover(s, v, c) ensures Has(s, Replay(d0, s.out).disks, v, c) {
          LeftoverDecides(s, d0, v, c);
        }
      }
    } else {
      var v, c: nat :| IsLeftover(s, v, c) && !LeftoverSent(s, v, c);
      var d0 := UnluckyReceiver(drives, before, s);
      ReachedInv(drives, before, s, d0);
      OneReceiver(s, steps, t, d0);
      LeftoverDecides(s, d0, v, c);
      SpoiltDiffers(s.devs[v].disk, c);
    }
  }

  /** A receiver whose disks have nothing in common with the sender's. */
  lemma UnluckyReceiver(drives: seq<Drive>, before: seq<Step>, s: Mig) returns (d0: map<Name, seq<Sector>>)
    requires Distinct(drives) && Run(ALL_RULES, Init(drives), before) == Reached(s)
    ensures Fits(Init(drives), d0)
    ensures forall v :: 0 <= v < |s.devs| ==> s.devs[v].name in d0 && d0[s.devs[v].name] == Spoilt(s.devs[v].disk)
  {
    d0 := SpoiltDisks(s.devs);
    RunStructured(ALL_RULES, drives, before);
    forall v | 0 <= v < |s.devs| ensures s.devs[v].name in d0 && d0[s.devs[v].name] == Spoilt(s.devs[v].disk) {
      SpoiltFit(s.devs, v);
    }
  }

  lemma OnlyReadCompletes(b: Blk)
    requires Whole(b)
    ensures Goes(ALL_RULES, World(Disk(OLD, {}, multiset{}, {}), [b], [], [], 1, []), Complete(0),
                 World(Disk(OLD, {}, multiset{}, {}), [], [b], [], 1, []))
  {
    SmallSets({}, {0}, multiset{}, multiset{0});
    OneDevice(Disk(OLD, {}, multiset{}, {}), Disk(OLD, {}, multiset{}, {}));
    assert [b][..0] + [b][1..] == [] && [] + [b] == [b];
  }

  /** Such a loss happens: the only chunk is read in bulk, its block is left in the queue, and stage 3 has
      nothing to send. */
  lemma LeftoverLosesData(junk: seq<Sector>) returns (before: seq<Step>, s: Mig)
    requires |junk| == CHUNK
    ensures Run(ALL_RULES, Init([Drive([7], false, [OLD])]), before) == Reached(s) && Quiet(s)
    ensures |s.devs| == 1 && s.devs[0].dirty == {} && Run(UNFLUSHED, s, []) == Reached(s)
    ensures !LeftoversSent(s) && !EndsCopied(s, map[[7] := [NEW]])
  {
    var s0, b, d := Init([Drive([7], false, [OLD])]), Picked(0, junk, OLD), Disk(OLD, {}, multiset{}, {});
    before := BulkPhase(ALL_RULES, junk);
    var s1 := World(d, [b], [], [], 1, []);
    s := World(d, [], [b], [], 1, []);
    OnlyReadCompletes(b);
    RunOn(ALL_RULES, s0, before, s1, Complete(0), s);
    before := before + [Complete(0)];
    LastOfOne(b, 0, 0);
    assert IsLeftover(s, 0, 0) && !LeftoverSent(s, 0, 0);
    assert s.devs[0].disk[0] != [NEW][0];
  }
}
