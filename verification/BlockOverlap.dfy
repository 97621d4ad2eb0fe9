/**
  Reads of one chunk that overlap.  The bulk phase does not mark the chunks it reads as in flight, so a
  dirty chunk can be read again while its bulk read is still under way.  Where that does not happen, no
  two reads of a chunk are ever in flight together, and the order in which reads complete is free.
 */
module BlockOverlap {
  import opened BlockProtocol
  import opened BlockStream
  import opened BlockAgreement
  import opened BlockAccounting

  /** The numbers of the blocks that the bulk phase of a run submits. */
  function BulkIds(rules: Rules, s: Mig, steps: seq<Step>): set<nat>
    requires Run(rules, s, steps).Reached?
    decreases |steps|
  {
    if steps == [] then {}
    else
      var front := steps[..|steps| - 1];
      BulkIdsAfter(Run(rules, s, front).state, steps[|steps| - 1], BulkIds(rules, s, front))
  }

  function BulkIdsAfter(s: Mig, e: Step, ids: set<nat>): set<nat>
  {
    if e.Bulk? then ids + {s.next} else ids
  }

  /** One of the blocks numbered `ids` is a read of chunk `c` of device `v` that is in flight. */
  predicate Overlaps(s: Mig, ids: set<nat>, v: nat, c: nat)
  {
    exists i :: 0 <= i < |s.inflight| && s.inflight[i].id in ids && SameKey(s.inflight[i], v, c)
  }

  /** No dirty chunk is read while a bulk read of it is in flight. */
  predicate NoOverlap(rules: Rules, s: Mig, steps: seq<Step>)
    requires Run(rules, s, steps).Reached?
    decreases |steps|
  {
    steps == [] ||
    var front, e := steps[..|steps| - 1], steps[|steps| - 1];
    && NoOverlap(rules, s, front)
    && (e.Dirty? ==> !Overlaps(Run(rules, s, front).state, BulkIds(rules, s, front), e.dev, e.chunk))
  }

  // ---------- what every step keeps ----------

  /** Every chunk has at most one read in flight, a bulk read or one that is marked. */
  ghost predicate OneRead(s: Mig, ids: set<nat>)
  {
    && (forall i, j :: 0 <= i < j < |s.inflight| ==>
      !SameKey(s.inflight[j], s.inflight[i].dev, s.inflight[i].chunk))
    && (forall i :: 0 <= i < |s.inflight| ==> IsMarked(s, ids, s.inflight[i]))
  }

  predicate IsMarked(s: Mig, ids: set<nat>, b: Blk)
  {
    b.dev < |s.devs| && (b.id in ids || b.chunk in s.devs[b.dev].aio)
  }

  lemma CompleteOneRead(s: Mig, e: Step, ids: set<nat>)
    requires OneRead(s, ids) && Enabled(Rules(false, false), s, e) && e.Complete?
    ensures OneRead(Apply(s, e), ids)
  {
    var t := Apply(s, e);
    forall i | 0 <= i < |t.inflight|
      ensures t.inflight[i] == s.inflight[if i < e.read then i else i + 1] && IsMarked(t, ids, t.inflight[i])
    {
      var k := if i < e.read then i else i + 1;
      assert IsMarked(s, ids, s.inflight[k]);
      assert !SameKey(s.inflight[k], s.inflight[e.read].dev, s.inflight[e.read].chunk);
    }
  }

  /** A read is submitted of a chunk that has none in flight. */
  lemma SubmitOneRead(s: Mig, t: Mig, b: Blk, ids: set<nat>, ids': set<nat>)
    requires OneRead(s, ids) && t.inflight == s.inflight + [b] && ids <= ids' && IsMarked(t, ids', b)
    requires |t.devs| == |s.devs| && forall v :: 0 <= v < |s.devs| ==> s.devs[v].aio <= t.devs[v].aio
    requires forall i :: 0 <= i < |s.inflight| ==> !SameKey(s.inflight[i], b.dev, b.chunk)
    ensures OneRead(t, ids')
  {
    forall i | 0 <= i < |s.inflight| ensures IsMarked(t, ids', s.inflight[i]) {
      assert IsMarked(s, ids, s.inflight[i]);
    }
  }

  /** The bulk cursor has not been where it is. */
  lemma BulkOneRead(s: Mig, e: Step, ids: set<nat>)
    requires GoodReads(s) && OneRead(s, ids) && Enabled(Rules(false, false), s, e) && e.Bulk?
    requires GoodDevice(s.devs[e.dev])
    ensures OneRead(Apply(s, e), BulkIdsAfter(s, e, ids))
  {
    BulkKeepsDevice(s.devs[e.dev]);
    var b := Blk(s.next, e.dev, BulkChunk(s.devs[e.dev]), e.buf, {});
    forall i | 0 <= i < |s.inflight| ensures !SameKey(s.inflight[i], b.dev, b.chunk) {
      assert GoodBlk(s, s.inflight[i]);
    }
    SubmitOneRead(s, Apply(s, e), b, ids, BulkIdsAfter(s, e, ids));
  }

  /** A dirty chunk is not marked, so a read of it in flight could only be a bulk read. */
  lemma DirtyOneRead(s: Mig, e: Step, ids: set<nat>)
    requires OneRead(s, ids) && Enabled(Rules(false, false), s, e) && e.Dirty?
    requires !Overlaps(s, ids, e.dev, e.chunk)
    ensures OneRead(Apply(s, e), ids)
  {
    var b := Blk(s.next, e.dev, e.chunk, e.buf, {});
    forall i | 0 <= i < |s.inflight| ensures !SameKey(s.inflight[i], b.dev, b.chunk) {
      assert IsMarked(s, ids, s.inflight[i]);
    }
    SubmitOneRead(s, Apply(s, e), b, ids, ids);
  }

  /** The reads in flight are the same, whatever they have picked up, and so are the marks. */
  predicate SameReads(s: Mig, t: Mig)
  {
    && |t.devs| == |s.devs| && |t.inflight| == |s.inflight|
    && (forall v :: 0 <= v < |s.devs| ==> t.devs[v].aio == s.devs[v].aio)
    && (forall i :: 0 <= i < |s.inflight| ==>
      && t.inflight[i].id == s.inflight[i].id
      && t.inflight[i].dev == s.inflight[i].dev && t.inflight[i].chunk == s.inflight[i].chunk)
  }

  /** The other steps submit and complete nothing. */
  lemma OtherSameReads(s: Mig, e: Step)
    requires Enabled(Rules(false, false), s, e) && !e.Complete? && !e.Bulk? && !e.Dirty?
    ensures SameReads(s, Apply(s, e))
  {
  }

  lemma SameReadsOneRead(s: Mig, t: Mig, ids: set<nat>)
    requires OneRead(s, ids) && SameReads(s, t)
    ensures OneRead(t, ids)
  {
    forall i | 0 <= i < |t.inflight| ensures IsMarked(t, ids, t.inflight[i]) {
      assert IsMarked(s, ids, s.inflight[i]);
    }
    forall i, j | 0 <= i < j < |t.inflight| ensures !SameKey(t.inflight[j], t.inflight[i].dev, t.inflight[i].chunk) {
      assert !SameKey(s.inflight[j], s.inflight[i].dev, s.inflight[i].chunk);
    }
  }

  lemma StepOneRead(s: Mig, e: Step, ids: set<nat>)
    requires Structured(s) && OneRead(s, ids) && Enabled(Rules(false, false), s, e)
    requires e.Dirty? ==> !Overlaps(s, ids, e.dev, e.chunk)
    ensures OneRead(Apply(s, e), BulkIdsAfter(s, e, ids))
  {
    match e
    case Complete(_) => CompleteOneRead(s, e, ids);
    case Bulk(v, _) => assert GoodDevice(s.devs[v]); BulkOneRead(s, e, ids);
    case Dirty(_, _, _) => DirtyOneRead(s, e, ids);
    case _ =>
      OtherSameReads(s, e);
      SameReadsOneRead(s, Apply(s, e), ids);
  }

  // ---------- every run ----------

  /** With one read of each chunk in flight there is no order of completion to keep. */
  lemma OrderIsFree(s: Mig, e: Step, ids: set<nat>, flushed: bool)
    requires OneRead(s, ids) && Enabled(Rules(false, flushed), s, e)
    ensures Enabled(Rules(true, flushed), s, e)
  {
    if e.Complete? {
      forall j | 0 <= j < e.read ensures !SameKey(s.inflight[j], s.inflight[e.read].dev, s.inflight[e.read].chunk) {
        assert !SameKey(s.inflight[e.read], s.inflight[j].dev, s.inflight[j].chunk);
      }
    }
  }

  /** A run without overlap, in whatever order its reads complete, is a run in the order of submission. */
  lemma {:induction false} RunIsOrdered(flushed: bool, drives: seq<Drive>, steps: seq<Step>)
    requires Distinct(drives) && Run(Rules(false, flushed), Init(drives), steps).Reached?
    requires NoOverlap(Rules(false, flushed), Init(drives), steps)
    ensures Run(Rules(true, flushed), Init(drives), steps) == Run(Rules(false, flushed), Init(drives), steps)
    ensures OneRead(Run(Rules(false, flushed), Init(drives), steps).state,
                    BulkIds(Rules(false, flushed), Init(drives), steps))
    decreases |steps|
  {
    if steps == [] {
    } else {
      var rules, front, e := Rules(false, flushed), steps[..|steps| - 1], steps[|steps| - 1];
      RunIsOrdered(flushed, drives, front);
      RunStructured(rules, drives, front);
      var s, ids := Run(rules, Init(drives), front).state, BulkIds(rules, Init(drives), front);
      OrderIsFree(s, e, ids, flushed);
      StepOneRead(s, e, ids);
    }
  }

  /** Full block migration copies the disks without any hypothesis on the order in which reads complete,
      if no dirty chunk is read while a bulk read of it is in flight. */
  lemma NoOverlapCopiesDisks(drives: seq<Drive>, steps: seq<Step>, d0: map<Name, seq<Sector>>)
    requires Distinct(drives) && Fits(Init(drives), d0)
    requires var r := Run(Rules(false, true), Init(drives), steps); r.Reached? && Finished(r.state)
    requires NoOverlap(Rules(false, true), Init(drives), steps)
    ensures var s := Run(Rules(false, true), Init(drives), steps).state;
      Framed(s.out) && Replay(d0, s.out).Disks? && Copied(s, Replay(d0, s.out).disks)
  {
    RunIsOrdered(true, drives, steps);
    MigrationCopiesDisks(drives, steps, d0);
  }
}
