/**
  The counters and the cursor of block migration: every asynchronous block is in exactly one place,
  the counters say how many are where, and the bulk phase reads every chunk once.
 */
module BlockAccounting {
  import opened BlockProtocol
  import opened BlockAgreement

  // ---------- where the blocks are ----------

  function Ids(p: seq<Blk>): seq<nat>
  {
    seq(|p|, i requires 0 <= i < |p| => p[i].id)
  }

  /** Blocks 0, 1, 2, ... up to the number submitted. */
  function Issued(n: nat): multiset<nat>
  {
    if n == 0 then multiset{} else Issued(n - 1) + multiset{n - 1}
  }

  lemma {:induction false} IssuedOnce(n: nat, id: nat)
    ensures Issued(n)[id] == if id < n then 1 else 0
  {
    if n == 0 {
    } else {
      IssuedOnce(n - 1, id);
    }
  }

  /** Each block that was ever submitted is in flight, queued or sent, and only once; the counters
      count the blocks in each place. */
  ghost predicate Accounted(s: Mig)
  {
    && multiset(Ids(s.inflight)) + multiset(Ids(s.queue)) + multiset(s.sent) == Issued(s.next)
    && s.submitted == |s.inflight| && s.readDone == |s.queue| && s.transferred == |s.sent|
  }

  lemma IdsOfTwo(p: seq<Blk>, q: seq<Blk>)
    ensures Ids(p + q) == Ids(p) + Ids(q)
  {
  }

  lemma CompleteAccounted(s: Mig, e: Step)
    requires Accounted(s) && e.Complete? && Enabled(Rules(false, false), s, e)
    ensures Accounted(Apply(s, e))
  {
    var before, b, after := s.inflight[..e.read], s.inflight[e.read], s.inflight[e.read + 1..];
    assert s.inflight == before + [b] + after;
    IdsOfTwo(before + [b], after);
    IdsOfTwo(before, [b]);
    IdsOfTwo(before, after);
    IdsOfTwo(s.queue, [b]);
  }

  lemma IdsFromFront(p: seq<Blk>)
    requires p != []
    ensures multiset(Ids(p)) == multiset{p[0].id} + multiset(Ids(p[1..]))
  {
    assert Ids(p) == [p[0].id] + Ids(p[1..]);
  }

  lemma SendAccounted(s: Mig, e: Step)
    requires Accounted(s) && e.Send? && Enabled(Rules(false, false), s, e)
    ensures Accounted(Apply(s, e))
  {
    IdsFromFront(s.queue);
  }

  lemma SubmitAccounted(s: Mig, v: nat, c: nat, buf: seq<Sector>)
    requires Accounted(s)
    ensures Accounted(Submit(s, v, c, buf))
  {
    var b := Blk(s.next, v, c, buf, {});
    IdsOfTwo(s.inflight, [b]);
    assert Ids([b]) == [s.next];
  }

  lemma StepAccounted(s: Mig, e: Step)
    requires Accounted(s) && Enabled(Rules(false, false), s, e)
    ensures Accounted(Apply(s, e))
  {
    if e.Complete? { CompleteAccounted(s, e); }
    else if e.Send? { SendAccounted(s, e); }
    else if e.Bulk? {
      var d := s.devs[e.dev];
      var end := CHUNK * BulkChunk(d) + Sectors(|d.disk|, BulkChunk(d));
      var after := d.(dirty := d.dirty - {BulkChunk(d)}, curSector := end, bulkCompleted := end >= |d.disk|);
      SubmitAccounted(SetDev(s, e.dev, after), e.dev, BulkChunk(d), e.buf);
    } else if e.Dirty? {
      var d := s.devs[e.dev];
      var after := d.(dirty := d.dirty - {e.chunk}, aio := d.aio + {e.chunk});
      SubmitAccounted(SetDev(s, e.dev, after), e.dev, e.chunk, e.buf);
    } else if e.Fetch? {
      assert Ids(Apply(s, e).inflight) == Ids(s.inflight);
    }
  }

  /** The blocks that a run submits. */
  function Submissions(steps: seq<Step>): nat
  {
    if steps == [] then 0
    else Submissions(steps[..|steps| - 1]) + (if steps[|steps| - 1].Bulk? || steps[|steps| - 1].Dirty? then 1 else 0)
  }

  /** In every state of every run, whatever the order of completion: the blocks submitted are each in
      one place, and the three counters add up to their number. */
  lemma {:induction false} RunAccounted(rules: Rules, drives: seq<Drive>, steps: seq<Step>)
    requires Run(rules, Init(drives), steps).Reached?
    ensures var s := Run(rules, Init(drives), steps).state;
      Accounted(s) && s.next == Submissions(steps) && s.submitted + s.readDone + s.transferred == Submissions(steps)
    decreases |steps|
  {
    if steps == [] {
      assert Ids([]) == [];
    } else {
      RunAccounted(rules, drives, steps[..|steps| - 1]);
      var s, e := Run(rules, Init(drives), steps[..|steps| - 1]).state, steps[|steps| - 1];
      StepAccounted(s, e);
    }
    var s := Run(rules, Init(drives), steps).state;
    CountsAddUp(s);
  }

  lemma CountsAddUp(s: Mig)
    requires Accounted(s)
    ensures s.submitted + s.readDone + s.transferred == s.next
  {
    SizeOfIssued(s.next);
    assert |multiset(Ids(s.inflight))| == |s.inflight| && |multiset(Ids(s.queue))| == |s.queue|
      && |multiset(s.sent)| == |s.sent|;
    assert |multiset(Ids(s.inflight)) + multiset(Ids(s.queue)) + multiset(s.sent)|
      == |s.inflight| + |s.queue| + |s.sent|;
  }

  lemma {:induction false} SizeOfIssued(n: nat)
    ensures |Issued(n)| == n
  {
    if n == 0 {
    } else {
      SizeOfIssued(n - 1);
    }
  }

  // ---------- the bulk phase ----------

  /** The chunks of device `v` that the bulk phase of a run reads, in order. */
  function BulkReads(rules: Rules, s: Mig, steps: seq<Step>, v: nat): seq<nat>
    requires Run(rules, s, steps).Reached?
    decreases |steps|
  {
    if steps == [] then []
    else
      var t, e := Run(rules, s, steps[..|steps| - 1]).state, steps[|steps| - 1];
      BulkReads(rules, s, steps[..|steps| - 1], v) + (if e.Bulk? && e.dev == v then [BulkChunk(t.devs[v])] else [])
  }

  /** The chunks 0, 1, 2, ... that lie before the cursor. */
  predicate ReadUpTo(chunks: seq<nat>, d: Device)
  {
    && (forall i :: 0 <= i < |chunks| ==> chunks[i] == i)
    && (if d.curSector == |d.disk| then |chunks| > 0 && CHUNK * (|chunks| - 1) < |d.disk| <= CHUNK * |chunks|
        else d.curSector == CHUNK * |chunks|)
  }

  /** In every state of every run: the cursor is at a chunk boundary or at the end, and the bulk phase
      has read the chunks before it in order, each once. */
  lemma {:induction false} BulkReadsEachOnce(rules: Rules, drives: seq<Drive>, steps: seq<Step>, v: nat)
    requires Distinct(drives) && Run(rules, Init(drives), steps).Reached? && v < |Init(drives).devs|
    ensures var s := Run(rules, Init(drives), steps).state;
      Structured(s) && |s.devs| == |Init(drives).devs| && ReadUpTo(BulkReads(rules, Init(drives), steps, v), s.devs[v])
    decreases |steps|
  {
    if steps == [] {
      InitStructured(drives);
      var i := InitDevice(drives, v);
    } else {
      BulkReadsEachOnce(rules, drives, steps[..|steps| - 1], v);
      var s, e := Run(rules, Init(drives), steps[..|steps| - 1]).state, steps[|steps| - 1];
      StructureKept(rules, s, e);
      if e.Bulk? && e.dev == v { BulkKeepsDevice(s.devs[v]); }
    }
  }

  lemma InitStructured(drives: seq<Drive>)
    requires Distinct(drives)
    ensures Structured(Init(drives))
  {
    var s := Init(drives);
    forall v | 0 <= v < |s.devs| ensures GoodDevice(s.devs[v]) && s.devs[v].aio == {} {
      var _ := InitDevice(drives, v);
    }
    forall u, v | 0 <= u < v < |s.devs| ensures s.devs[u].name != s.devs[v].name { InitDistinct(drives, u, v); }
  }

  lemma {:induction false} RunStructured(rules: Rules, drives: seq<Drive>, steps: seq<Step>)
    requires Distinct(drives) && Run(rules, Init(drives), steps).Reached?
    ensures var s := Run(rules, Init(drives), steps).state; Structured(s) && Onward(Init(drives), s)
    decreases |steps|
  {
    if steps == [] {
      InitStructured(drives);
    } else {
      var front, e := steps[..|steps| - 1], steps[|steps| - 1];
      RunStructured(rules, drives, front);
      StructureKept(rules, Run(rules, Init(drives), front).state, e);
    }
  }

  /** Devices are read in bulk one after another. */
  predicate InOrder(s: Mig)
  {
    forall u, v :: 0 <= u < v < |s.devs| && !s.devs[u].bulkCompleted ==> s.devs[v].curSector == 0
  }

  lemma BulkInOrder(s: Mig, e: Step)
    requires InOrder(s) && e.Bulk? && Enabled(Rules(false, false), s, e)
    ensures InOrder(Apply(s, e))
  {
    var t := Apply(s, e);
    forall u, v | 0 <= u < v < |t.devs| && !t.devs[u].bulkCompleted ensures t.devs[v].curSector == 0 {
      assert v != e.dev;
      assert t.devs[v] == s.devs[v] && !s.devs[u].bulkCompleted;
    }
  }

  /** Other steps move no cursor. */
  lemma OtherInOrder(s: Mig, e: Step)
    requires InOrder(s) && !e.Bulk? && Enabled(Rules(false, false), s, e)
    ensures InOrder(Apply(s, e))
  {
    var t := Apply(s, e);
    assert |t.devs| == |s.devs| && forall v :: 0 <= v < |s.devs| ==>
      t.devs[v].bulkCompleted == s.devs[v].bulkCompleted && t.devs[v].curSector == s.devs[v].curSector;
  }

  lemma {:induction false} RunInOrder(rules: Rules, drives: seq<Drive>, steps: seq<Step>)
    requires Run(rules, Init(drives), steps).Reached?
    ensures InOrder(Run(rules, Init(drives), steps).state)
    decreases |steps|
  {
    if steps == [] {
      var s := Init(drives);
      forall v | 0 <= v < |s.devs| ensures s.devs[v].curSector == 0 { var _ := InitDevice(drives, v); }
    } else {
      var front, e := steps[..|steps| - 1], steps[|steps| - 1];
      RunInOrder(rules, drives, front);
      var s := Run(rules, Init(drives), front).state;
      if e.Bulk? { BulkInOrder(s, e); } else { OtherInOrder(s, e); }
    }
  }
}
