/**
  The sender's functions as programs over block_mig_state.  Each of them is proved to take steps of
  the protocol, so that what holds of every run holds of every sequence of calls.
 */
module BlockSaver {
  import opened Bits
  import opened BlockProtocol
  import opened BlockStream
  import opened BlockAgreement
  import opened BlockAccounting
  import opened BlockProgress
  import opened BlockHypotheses

  // ---------- runs ----------

  lemma RunOneMore(rules: Rules, s: Mig, steps: seq<Step>, e: Step)
    requires Run(rules, s, steps).Reached? && Enabled(rules, Run(rules, s, steps).state, e)
    ensures Run(rules, s, steps + [e]) == Reached(Apply(Run(rules, s, steps).state, e))
  {
    assert (steps + [e])[..|steps + [e]| - 1] == steps;
  }

  ghost predicate RunIs(rules: Rules, drives: seq<Drive>, steps: seq<Step>, s: Mig)
  {
    Run(rules, Init(drives), steps) == Reached(s)
  }

  /** `s` has been reached by steps of the protocol.  The quantifier keeps `Run` from being unfolded in
      every method that knows this; `assert RunIs(...)` brings it back. */
  ghost predicate Reaches(rules: Rules, drives: seq<Drive>, steps: seq<Step>, s: Mig)
  {
    Distinct(drives) && forall r :: r == rules ==> RunIs(r, drives, steps, s)
  }

  lemma ReachesOneMore(rules: Rules, drives: seq<Drive>, steps: seq<Step>, s: Mig, e: Step)
    requires Reaches(rules, drives, steps, s) && Enabled(rules, s, e)
    ensures Reaches(rules, drives, steps + [e], Apply(s, e))
  {
    assert RunIs(rules, drives, steps, s);
    RunOneMore(rules, Init(drives), steps, e);
    assert RunIs(rules, drives, steps + [e], Apply(s, e));
  }

  lemma CountersCount(rules: Rules, drives: seq<Drive>, steps: seq<Step>, s: Mig)
    requires Reaches(rules, drives, steps, s)
    ensures s.submitted == |s.inflight| && s.readDone == |s.queue| && s.transferred == |s.sent|
  {
    assert RunIs(rules, drives, steps, s);
    RunAccounted(rules, drives, steps);
  }

  lemma StateStructured(rules: Rules, drives: seq<Drive>, steps: seq<Step>, s: Mig)
    requires Reaches(rules, drives, steps, s)
    ensures Structured(s)
  {
    assert RunIs(rules, drives, steps, s);
    RunStructured(rules, drives, steps);
  }

  lemma StateInOrder(rules: Rules, drives: seq<Drive>, steps: seq<Step>, s: Mig)
    requires Reaches(rules, drives, steps, s)
    ensures InOrder(s)
  {
    assert RunIs(rules, drives, steps, s);
    RunInOrder(rules, drives, steps);
  }

  lemma ReadsAreGood(rules: Rules, drives: seq<Drive>, steps: seq<Step>, s: Mig, i: nat)
    requires Reaches(rules, drives, steps, s)
    ensures i < |s.inflight| ==> OnDisk(s, s.inflight[i])
    ensures i < |s.queue| ==> OnDisk(s, s.queue[i])
  {
    StateStructured(rules, drives, steps, s);
    assert i < |s.inflight| ==> GoodBlk(s, s.inflight[i]);
    assert i < |s.queue| ==> GoodBlk(s, s.queue[i]);
  }

  /** What happens when the queue is empty for synchronous sends may also happen when it need not be. */
  lemma {:induction false} RulesRelaxed(s: Mig, steps: seq<Step>)
    requires Run(ALL_RULES, s, steps).Reached?
    ensures Run(UNFLUSHED, s, steps) == Run(ALL_RULES, s, steps)
    decreases |steps|
  {
    if steps == [] {
    } else {
      RulesRelaxed(s, steps[..|steps| - 1]);
    }
  }

  lemma ReachesRelaxed(drives: seq<Drive>, steps: seq<Step>, s: Mig)
    requires Reaches(ALL_RULES, drives, steps, s)
    ensures Reaches(UNFLUSHED, drives, steps, s)
  {
    assert RunIs(ALL_RULES, drives, steps, s);
    RulesRelaxed(Init(drives), steps);
    assert RunIs(UNFLUSHED, drives, steps, s);
  }

  lemma {:induction false} RunSplits(rules: Rules, s: Mig, before: seq<Step>, t: Mig, after: seq<Step>)
    requires Run(rules, s, before) == Reached(t)
    ensures Run(rules, s, before + after) == Run(rules, t, after)
    decreases |after|
  {
    if after == [] {
      assert before + after == before;
    } else {
      assert (before + after)[..|before + after| - 1] == before + after[..|after| - 1];
      RunSplits(rules, s, before, t, after[..|after| - 1]);
    }
  }

  // ---------- chunks ----------

  function Range(lo: nat, hi: nat): set<nat>
  {
    if hi <= lo then {} else Range(lo, hi - 1) + {hi - 1}
  }

  /** The chunks that sectors `sector` to `sector + nb - 1` lie in. */
  function ChunksOf(sector: nat, nb: nat): set<nat>
    requires nb > 0
  {
    Range(sector / CHUNK, (sector + nb - 1) / CHUNK + 1)
  }

  /** The device with the in-flight bits of a range of sectors set or cleared. */
  function WithAio(d: Device, sector: nat, nb: nat, on: bool): Device
    requires nb > 0
  {
    d.(aio := if on then d.aio + ChunksOf(sector, nb) else d.aio - ChunksOf(sector, nb))
  }

  lemma ChunkAio(d: Device, c: nat)
    requires IsChunk(|d.disk|, c)
    ensures var nb := Sectors(|d.disk|, c);
      && 0 < nb && ChunksOf(CHUNK * c, nb) == {c}
      && WithAio(d, CHUNK * c, nb, false) == d.(aio := d.aio - {c})
      && WithAio(d, CHUNK * c, nb, true) == d.(aio := d.aio + {c})
  {
    OneChunk(c, Sectors(|d.disk|, c));
  }

  lemma OneChunk(c: nat, nb: nat)
    requires 0 < nb <= CHUNK
    ensures ChunksOf(CHUNK * c, nb) == {c}
  {
    assert CHUNK * c / CHUNK == c && (CHUNK * c + nb - 1) / CHUNK == c;
    assert Range(c, c + 1) == Range(c, c) + {c};
  }

  /** A device after its next chunk has been read in bulk. */
  function AfterBulk(d: Device): Device
    requires d.curSector < |d.disk|
  {
    var c := BulkChunk(d);
    d.(dirty := d.dirty - {c}, curSector := CHUNK * c + Sectors(|d.disk|, c))
  }

  /** What a bulk read does to the state. */
  lemma BulkIs(s: Mig, v: nat, junk: seq<Sector>)
    requires Enabled(Rules(false, false), s, Bulk(v, junk))
    ensures var d := AfterBulk(s.devs[v]);
      Apply(s, Bulk(v, junk)) == s.(
        devs := s.devs[v := d.(bulkCompleted := d.curSector >= |d.disk|)],
        inflight := s.inflight + [Blk(s.next, v, BulkChunk(s.devs[v]), junk, {})],
        next := s.next + 1, submitted := s.submitted + 1)
  {
  }

  /** The bulk phase of device `v`, and no earlier one, is not over. */
  predicate IsFirstOpen(devs: seq<Device>, v: nat)
  {
    v < |devs| && !devs[v].bulkCompleted && forall u :: 0 <= u < v ==> devs[u].bulkCompleted
  }

  function Zeros(n: nat): seq<nat>
  {
    seq(n, _ => 0)
  }

  // ---------- reads ----------

  /** The same reads, perhaps with more data. */
  predicate SameReads(a: seq<Blk>, b: seq<Blk>)
  {
    |a| == |b| && forall j :: 0 <= j < |a| ==>
      a[j].dev == b[j].dev && a[j].chunk == b[j].chunk && |a[j].buf| == |b[j].buf|
  }

  /** No earlier read is of the same chunk. */
  predicate FirstOfChunk(flight: seq<Blk>, i: nat)
  {
    i < |flight| && forall j :: 0 <= j < i ==> !SameKey(flight[j], flight[i].dev, flight[i].chunk)
  }

  /** A step of the rest of the system: the guest's writes, and the reads. */
  predicate Outsider(e: Step)
  {
    e.GuestData? || e.GuestMark? || e.Fetch? || e.Complete?
  }

  // ---------- what becomes dirty, and what becomes clean ----------

  /** From `a` to `b` no cursor has moved, and chunks have become dirty only if `marked` has them. */
  predicate Drifted(a: seq<Device>, b: seq<Device>, marked: set<(nat, nat)>)
  {
    |b| == |a| && forall u :: 0 <= u < |a| ==>
      && |b[u].disk| == |a[u].disk| && b[u].curSector == a[u].curSector && b[u].bulkCompleted == a[u].bulkCompleted
      && a[u].dirty <= b[u].dirty && forall c :: c in b[u].dirty ==> c in a[u].dirty || (u, c) in marked
  }

  lemma DriftsJoin(a: seq<Device>, b: seq<Device>, c: seq<Device>, m: set<(nat, nat)>, m': set<(nat, nat)>)
    requires Drifted(a, b, m) && Drifted(b, c, m') && m <= m'
    ensures Drifted(a, c, m')
  {
  }

  /** From `s` to `t` the rest of the system has taken steps. */
  predicate WentOn(s: Mig, t: Mig, marked: set<(nat, nat)>)
  {
    && Drifted(s.devs, t.devs, marked) && t.out == s.out && t.bulkCompleted == s.bulkCompleted
    && t.transferred == s.transferred && t.submitted + t.readDone == s.submitted + s.readDone
  }

  /** From `a` to `b` chunk `c` of device `v`, which was dirty or became so, has become clean, and no
      other chunk has. */
  predicate Saved(a: seq<Device>, b: seq<Device>, v: nat, c: nat, marked: set<(nat, nat)>)
  {
    && |b| == |a| && v < |a| && (c in a[v].dirty || (v, c) in marked) && c !in b[v].dirty
    && forall u :: 0 <= u < |a| ==>
      && |b[u].disk| == |a[u].disk|
      && (forall k :: k in a[u].dirty ==> k in b[u].dirty || (u == v && k == c))
      && (forall k :: k in b[u].dirty ==> k in a[u].dirty || (u, k) in marked)
  }

  /** The same with the rest of the system at rest: chunk `c` of device `v` became clean if `saved`, and
      nothing else changed. */
  predicate DirtyStep(a: seq<Device>, b: seq<Device>, saved: bool, v: nat, c: nat)
  {
    && |b| == |a| && v < |a| && (saved ==> c in a[v].dirty)
    && forall u :: 0 <= u < |a| ==>
      && |b[u].disk| == |a[u].disk| && b[u].writing == a[u].writing
      && b[u].dirty == if saved && u == v then a[v].dirty - {c} else a[u].dirty
  }

  /** Dirty bits, sizes and unfinished guest writes are as they were. */
  predicate Unchanged(a: seq<Device>, b: seq<Device>)
  {
    && |b| == |a|
    && forall u :: 0 <= u < |a| ==>
      |b[u].disk| == |a[u].disk| && b[u].writing == a[u].writing && b[u].dirty == a[u].dirty
  }

  /** No chunk of device `v` between sectors `from` and `to` is dirty, except those in `marked`. */
  predicate Scanned(d: Device, v: nat, from: nat, to: nat, marked: set<(nat, nat)>)
  {
    forall c :: c in d.dirty && from <= CHUNK * c ==> to <= CHUNK * c || (v, c) in marked
  }

  predicate AllScanned(devs: seq<Device>, from: seq<nat>, to: seq<nat>, marked: set<(nat, nat)>)
  {
    |from| == |to| == |devs| && forall u :: 0 <= u < |devs| ==> Scanned(devs[u], u, from[u], to[u], marked)
  }

  /** Every dirty chunk is in `marked`. */
  predicate OnlyMarked(devs: seq<Device>, marked: set<(nat, nat)>)
  {
    forall u, c :: 0 <= u < |devs| && c in devs[u].dirty ==> (u, c) in marked
  }

  /** Chunks become dirty only if they are in `marked`; any may become clean. */
  predicate NoneNew(a: seq<Device>, b: seq<Device>, marked: set<(nat, nat)>)
  {
    |b| == |a| && forall u, c :: 0 <= u < |a| && c in b[u].dirty ==> c in a[u].dirty || (u, c) in marked
  }

  /** A scan of device `v` goes on, while the others stay where they are. */
  lemma ScansJoin(a: seq<Device>, b: seq<Device>, from: seq<nat>, mid: seq<nat>, to: seq<nat>, v: nat,
                  m: set<(nat, nat)>, m': set<(nat, nat)>)
    requires v < |a| && AllScanned(a, from, mid, m) && m <= m' && NoneNew(a, b, m')
    requires |to| == |mid| && to == mid[v := to[v]] && Scanned(b[v], v, mid[v], to[v], m')
    ensures AllScanned(b, from, to, m')
  {
    forall u | 0 <= u < |b| ensures Scanned(b[u], u, from[u], to[u], m') {
      assert Scanned(a[u], u, from[u], mid[u], m);
    }
  }

  lemma ScansFollow(a: seq<Device>, b: seq<Device>, mid: seq<nat>, to: seq<nat>, m: set<(nat, nat)>,
                    m': set<(nat, nat)>)
    requires AllScanned(a, Zeros(|a|), mid, m) && AllScanned(b, mid, to, m') && m <= m' && NoneNew(a, b, m')
    ensures AllScanned(b, Zeros(|b|), to, m')
  {
    forall u | 0 <= u < |b| ensures Scanned(b[u], u, Zeros(|b|)[u], to[u], m') {
      assert Scanned(a[u], u, 0, mid[u], m) && Scanned(b[u], u, mid[u], to[u], m');
    }
  }

  function DirtyTotal(devs: seq<Device>): nat
  {
    if devs == [] then 0 else |devs[0].dirty| + DirtyTotal(devs[1..])
  }

  lemma {:induction false} OneLessDirty(a: seq<Device>, b: seq<Device>, v: nat, c: nat)
    requires DirtyStep(a, b, true, v, c)
    ensures DirtyTotal(b) == DirtyTotal(a) - 1
    decreases |a|
  {
    if v == 0 {
      SameDirty(a[1..], b[1..]);
    } else {
      assert a[0].dirty == b[0].dirty;
      OneLessDirty(a[1..], b[1..], v - 1, c);
    }
  }

  lemma {:induction false} SameDirty(a: seq<Device>, b: seq<Device>)
    requires |a| == |b| && forall u :: 0 <= u < |a| ==> b[u].dirty == a[u].dirty
    ensures DirtyTotal(a) == DirtyTotal(b)
  {
    if a == [] {
    } else {
      SameDirty(a[1..], b[1..]);
    }
  }

  /** Cursors past the ends of devices that were scanned from the start. */
  lemma NothingDirty(rules: Rules, drives: seq<Drive>, steps: seq<Step>, s: Mig, cursor: seq<nat>,
                     marked: set<(nat, nat)>)
    requires Reaches(rules, drives, steps, s) && AllScanned(s.devs, Zeros(|s.devs|), cursor, marked)
    requires forall v :: 0 <= v < |s.devs| ==> cursor[v] >= |s.devs[v].disk|
    ensures OnlyMarked(s.devs, marked)
  {
    StateStructured(rules, drives, steps, s);
    forall v, c | 0 <= v < |s.devs| && c in s.devs[v].dirty ensures (v, c) in marked {
      assert GoodDevice(s.devs[v]) && Scanned(s.devs[v], v, 0, cursor[v], marked);
    }
  }

  /** Between `h` and `h'` only synchronous sends and records without data. */
  predicate SentOnly(h: seq<Step>, h': seq<Step>)
  {
    h <= h' && StageThree(h'[|h|..])
  }

  lemma SentOnlyJoins(h: seq<Step>, h': seq<Step>, h'': seq<Step>)
    requires SentOnly(h, h') && SentOnly(h', h'')
    ensures SentOnly(h, h'')
  {
    assert h''[|h|..] == h'[|h|..] + h''[|h'|..];
  }

  /** A receiver that starts with disks `d0` and loads the stream section by section ends with the
      sender's disks. */
  ghost predicate Delivers(t: Mig, d0: map<Name, seq<Sector>>)
  {
    Framed(t.out) && LoadStream(d0, t.out).Disks? && Copied(t, LoadStream(d0, t.out).disks)
  }

  /** Every receiver with disks of the right sizes ends with the sender's disks. */
  ghost predicate AllDelivered(drives: seq<Drive>, t: Mig)
  {
    forall d0 :: Fits(Init(drives), d0) ==> Delivers(t, d0)
  }

  /** What stage 3 comes to: `s` is the state after its flush, `t` the one at its end.  A copy is made, for
      every receiver, exactly when the blocks left in the queue do not matter. */
  ghost predicate StageThreeCame(drives: seq<Drive>, s: Mig, t: Mig)
  {
    && (AllDelivered(drives, t) <==> LeftoversSent(s))
    && (s.queue == [] ==> Finished(t) && AllDelivered(drives, t))
  }

  /** One round of stage 2: how many blocks may be on their way, how many the file takes at the two flushes,
      and the verdict of the bandwidth estimate. */
  datatype Round = Round(room: nat, quota: nat, quota': nat, soon: bool)

  class BlockState {
    var devs: seq<Device>
    /** cur_dirty and completed_sectors of each device. */
    var curDirty: seq<nat>
    var completed: seq<nat>
    /** Reads handed to the block layer and not yet completed, in the order of submission. */
    var inflight: seq<Blk>
    /** blk_list */
    var queue: seq<Blk>
    var serial: nat
    var submitted: int
    var readDone: int
    var transferred: int
    var bulkCompleted: bool
    var prevProgress: int
    var file: seq<Record>
    /** What the rest of the system will do: a script for each time that it gets to run. */
    var world: seq<seq<Step>>
    ghost var sent: seq<nat>
    ghost const drives: seq<Drive>
    ghost var history: seq<Step>
    ghost var rules: Rules
    /** The chunks that guest writes have marked since the dirty cursors were reset. */
    ghost var marked: set<(nat, nat)>
    /** The progress reported so far. */
    ghost var told: seq<int>

    ghost function State(): Mig
      reads this
    {
      Mig(devs, inflight, queue, sent, serial, submitted, readDone, transferred, bulkCompleted, file)
    }

    ghost predicate Valid()
      reads this
    {
      && Reaches(rules, drives, history, State()) && rules.fifo && |curDirty| == |completed| == |devs|
      && Tells(file, told)
    }

    /** init_blk_migration, as stage 1 calls it. */
    constructor (drives: seq<Drive>, world: seq<seq<Step>>)
      requires Distinct(drives)
      ensures Valid() && this.drives == drives && State() == Init(drives) && this.world == world
      ensures curDirty == completed == Zeros(|devs|) && prevProgress == -1
      ensures rules == ALL_RULES && marked == {} && told == []
    {
      devs := InitDevices(drives);
      curDirty, completed := Zeros(|InitDevices(drives)|), Zeros(|InitDevices(drives)|);
      inflight, queue, sent, serial := [], [], [], 0;
      submitted, readDone, transferred, bulkCompleted, prevProgress := 0, 0, 0, false, -1;
      file := [];
      this.drives, this.world := drives, world;
      history, rules, marked, told := [], ALL_RULES, {}, [];
      new;
      assert RunIs(ALL_RULES, drives, [], Init(drives));
    }

    /** Everything but the protocol's state and the rest of the system is as it was. */
    twostate predicate CursorsKept()
      reads this
    {
      && curDirty == old(curDirty) && completed == old(completed) && prevProgress == old(prevProgress)
      && rules == old(rules) && told == old(told)
    }

    /** And the rest of the system has stood still. */
    twostate predicate Alone()
      reads this
    {
      world == old(world) && marked == old(marked)
    }

    /** Records that the fields have been taken through step `e`. */
    ghost method Took(s: Mig, e: Step)
      requires Reaches(rules, drives, history, s) && Enabled(rules, s, e) && State() == Apply(s, e)
      requires |curDirty| == |completed| == |devs| && rules.fifo && Tells(file, told)
      modifies this`history
      ensures Valid() && history == old(history) + [e]
    {
      ReachesOneMore(rules, drives, history, s, e);
      history := history + [e];
    }

    // ---------- reads ----------

    /** bmds_set_aio_inflight */
    method SetAioInflight(v: nat, sector: nat, nb: nat, on: bool)
      requires v < |devs| && nb > 0
      modifies this`devs
      ensures devs == old(devs)[v := WithAio(old(devs[v]), sector, nb, on)]
    {
      var start, end := sector / CHUNK, (sector + nb - 1) / CHUNK;
      var aio := devs[v].aio;
      while start <= end
        invariant sector / CHUNK <= start <= end + 1
        invariant aio == if on then devs[v].aio + Range(sector / CHUNK, start)
          else devs[v].aio - Range(sector / CHUNK, start)
      {
        aio := if on then aio + {start} else aio - {start};
        start := start + 1;
      }
      devs := devs[v := devs[v].(aio := aio)];
    }

    /** blk_mig_read_cb: the block layer has completed read `i`. */
    method ReadCallback(i: nat)
      requires i < |inflight| && OnDisk(State(), inflight[i])
      modifies this`devs, this`inflight, this`queue, this`submitted, this`readDone
      ensures var b := old(inflight[i]);
        && devs == old(devs)[b.dev := old(devs)[b.dev].(aio := old(devs)[b.dev].aio - {b.chunk})]
        && inflight == old(inflight[..i] + inflight[i + 1..]) && queue == old(queue) + [b]
        && submitted == old(submitted) - 1 && readDone == old(readDone) + 1
    {
      var blk := inflight[i];
      inflight := inflight[..i] + inflight[i + 1..];
      queue := queue + [blk];
      ChunkAio(devs[blk.dev], blk.chunk);
      SetAioInflight(blk.dev, CHUNK * blk.chunk, Sectors(|devs[blk.dev].disk|, blk.chunk), false);
      submitted := submitted - 1;
      readDone := readDone + 1;
    }

    /** The callback is a step of the protocol, and its assertion holds. */
    method ReadDone(i: nat)
      requires Valid() && Enabled(rules, State(), Complete(i))
      modifies this
      ensures Valid() && CursorsKept() && Alone() && State() == Apply(old(State()), Complete(i)) && submitted >= 0
    {
      ghost var s := State();
      ReadCallback(i);
      Took(s, Complete(i));
      CountersCount(rules, drives, history, State());
    }

    /** Everything the rest of the system may do besides: guest writes, and reads picking up data. */
    method Outside(e: Step)
      requires Valid() && Enabled(rules, State(), e) && (e.GuestData? || e.GuestMark? || e.Fetch?)
      modifies this
      ensures Valid() && CursorsKept() && world == old(world) && State() == Apply(old(State()), e)
      ensures marked == old(marked) + (if e.GuestMark? then {(e.dev, e.chunk)} else {})
    {
      ghost var s := State();
      match e {
        case GuestData(v, c, o, x) =>
          var d := devs[v];
          devs := devs[v := d.(disk := d.disk[CHUNK * c + o := x], writing := d.writing + multiset{c})];
        case GuestMark(v, c) =>
          devs := devs[v := devs[v].(dirty := devs[v].dirty + {c}, writing := devs[v].writing - multiset{c})];
          marked := marked + {(v, c)};
        case Fetch(i, o) =>
          var b := inflight[i];
          inflight := inflight[i := b.(buf := b.buf[o := At(devs[b.dev].disk, b.chunk, o)], got := b.got + {o})];
      }
      Took(s, e);
    }

    predicate CanHappen(e: Step)
      requires Outsider(e) && rules.fifo
      reads this
      ensures CanHappen(e) <==> Enabled(rules, State(), e)
    {
      Enabled(ALL_RULES,
        Mig(devs, inflight, queue, [], serial, submitted, readDone, transferred, bulkCompleted, file), e)
    }

    method Happen(e: Step)
      requires Valid() && Outsider(e) && Enabled(rules, State(), e)
      modifies this
      ensures Valid() && CursorsKept() && world == old(world) && WentOn(old(State()), State(), marked)
      ensures old(marked) <= marked
    {
      OutsiderDrifts(State(), e);
      if e.Complete? { ReadDone(e.read); } else { Outside(e); }
    }

    method Propose(e: Step, mainLoop: bool)
      requires Valid()
      modifies this
      ensures Valid() && CursorsKept() && world == old(world) && WentOn(old(State()), State(), marked)
      ensures old(marked) <= marked
      ensures !mainLoop ==> marked == old(marked)
    {
      if mainLoop && Outsider(e) && CanHappen(e) {
        Happen(e);
      } else if !mainLoop && (e.GuestData? || e.Fetch?) && CanHappen(e) {
        OutsiderDrifts(State(), e);
        Outside(e);
      }
    }

    /** The rest of the system runs: of the steps that its script proposes, those happen that can.  While
        the sender is at work only data moves; marks and completions come from the main loop. */
    method Meanwhile(mainLoop: bool)
      requires Valid()
      modifies this
      ensures Valid() && CursorsKept() && WentOn(old(State()), State(), marked) && old(marked) <= marked
      ensures !mainLoop ==> marked == old(marked)
    {
      if world == [] { return; }
      var script, n := world[0], 0;
      world := world[1..];
      while n < |script|
        invariant Valid() && CursorsKept() && WentOn(old(State()), State(), marked) && old(marked) <= marked
        invariant !mainLoop ==> marked == old(marked)
      {
        ghost var before, m := devs, marked;
        Propose(script[n], mainLoop);
        DriftsJoin(old(devs), before, devs, m, marked);
        n := n + 1;
      }
    }

    /** Read `i` picks up all it has not got yet. */
    method FetchAll(i: nat)
      requires Valid() && i < |inflight| && OnDisk(State(), inflight[i])
      modifies this
      ensures Valid() && CursorsKept() && Alone()
      ensures State() == old(State()).(inflight := inflight) && SameReads(old(inflight), inflight)
      ensures HasAll(inflight[i], |devs[inflight[i].dev].disk|)
    {
      var n := Sectors(|devs[inflight[i].dev].disk|, inflight[i].chunk);
      var o := 0;
      while o < n
        invariant 0 <= o <= n && Valid() && CursorsKept() && Alone()
        invariant State() == old(State()).(inflight := inflight) && SameReads(old(inflight), inflight)
        invariant forall k :: 0 <= k < o ==> k in inflight[i].got
      {
        Outside(Fetch(i, o));
        o := o + 1;
      }
    }

    method CompleteOne(i: nat)
      requires Valid() && FirstOfChunk(inflight, i) && OnDisk(State(), inflight[i])
      modifies this
      ensures Valid() && CursorsKept() && Alone() && |inflight| < |old(inflight)|
      ensures WentOn(old(State()), State(), marked)
    {
      FetchAll(i);
      ReadDone(i);
    }

    /** qemu_aio_flush: the main loop runs until all reads have completed; what else completes meanwhile,
        guest writes among it, and in which order, is up to the rest of the system. */
    method AioFlush()
      requires Valid()
      modifies this
      ensures Valid() && CursorsKept() && inflight == [] && WentOn(old(State()), State(), marked)
      ensures old(marked) <= marked
    {
      Meanwhile(true);
      while inflight != []
        invariant Valid() && CursorsKept() && WentOn(old(State()), State(), marked) && old(marked) <= marked
        decreases |inflight|
      {
        ghost var before := State();
        ReadsAreGood(rules, drives, history, State(), 0);
        CompleteOne(0);
        DriftsJoin(old(devs), before.devs, devs, marked, marked);
      }
    }

    // ---------- the bulk phase ----------

    /** mig_save_device_bulk without a shared base.  `junk` is what the new buffer holds. */
    method SaveDeviceBulk(v: nat, junk: seq<Sector>) returns (done: bool)
      requires v < |devs| && |completed| == |devs|
      modifies this`devs, this`completed, this`inflight, this`serial, this`submitted
      ensures old(devs[v].curSector >= |devs[v].disk|) ==>
        && done && devs == old(devs[v := devs[v].(curSector := |devs[v].disk|)])
        && completed == old(completed[v := |devs[v].disk|])
        && inflight == old(inflight) && serial == old(serial) && submitted == old(submitted)
      ensures old(devs[v].curSector < |devs[v].disk|) ==>
        && devs == old(devs[v := AfterBulk(devs[v])])
        && done == (AfterBulk(old(devs[v])).curSector >= |old(devs[v]).disk|)
        && completed == old(completed[v := devs[v].curSector])
        && inflight == old(inflight + [Blk(serial, v, BulkChunk(devs[v]), junk, {})])
        && serial == old(serial) + 1 && submitted == old(submitted) + 1
    {
      var total, cur := |devs[v].disk|, devs[v].curSector;
      if cur >= total {
        devs := devs[v := devs[v].(curSector := total)];
        completed := completed[v := total];
        return true;
      }
      completed := completed[v := cur];
      cur := cur - cur % CHUNK;
      var nr := CHUNK;
      if total - cur < CHUNK { nr := total - cur; }
      var chunk := cur / CHUNK;
      inflight := inflight + [Blk(serial, v, chunk, junk, {})];
      serial := serial + 1;
      submitted := submitted + 1;
      OneChunk(chunk, nr);
      devs := devs[v := devs[v].(dirty := devs[v].dirty - ChunksOf(cur, nr), curSector := cur + nr)];
      done := devs[v].curSector >= total;
    }

    /** The call in blk_mig_save_bulked_block, which notes that a device is done. */
    method SaveDeviceAndMark(v: nat, junk: seq<Sector>)
      requires v < |devs| && |completed| == |devs| && !devs[v].bulkCompleted && devs[v].curSector < |devs[v].disk|
      modifies this`devs, this`completed, this`inflight, this`serial, this`submitted
      ensures var d := AfterBulk(old(devs[v]));
        devs == old(devs)[v := d.(bulkCompleted := d.curSector >= |d.disk|)]
      ensures completed == old(completed[v := devs[v].curSector])
      ensures inflight == old(inflight + [Blk(serial, v, BulkChunk(devs[v]), junk, {})])
      ensures serial == old(serial) + 1 && submitted == old(submitted) + 1
    {
      var done := SaveDeviceBulk(v, junk);
      if done { devs := devs[v := devs[v].(bulkCompleted := true)]; }
    }

    /** The bulk read of the first device whose bulk phase is not over. */
    method BulkStep(v: nat, junk: seq<Sector>)
      requires Valid() && Enabled(rules, State(), Bulk(v, junk))
      modifies this
      ensures Valid() && Alone() && State() == Apply(old(State()), Bulk(v, junk))
      ensures curDirty == old(curDirty) && prevProgress == old(prevProgress) && rules == old(rules) && told == old(told)
      ensures completed == old(completed)[v := old(devs[v].curSector)]
    {
      ghost var s := State();
      SaveDeviceAndMark(v, junk);
      BulkIs(s, v, junk);
      Took(s, Bulk(v, junk));
    }

    /** A record without data. */
    method Report(r: Record)
      requires Valid() && !r.Block?
      modifies this`file, this`history, this`told
      ensures Valid() && file == old(file) + [r] && history == old(history) + [Note(r)]
      ensures told == if r.Progress? then old(told) + [r.percent] else old(told)
    {
      ghost var s := State();
      TellsMore(file, told, r);
      file := file + [r];
      if r.Progress? { told := told + [r.percent]; }
      Took(s, Note(r));
    }

    method ReportProgress(progress: int)
      requires Valid() && prevProgress <= progress <= 100 && 0 <= progress && Rising(told, prevProgress)
      modifies this
      ensures Valid() && Alone() && State() == old(State()).(out := file) && rules == old(rules)
      ensures curDirty == old(curDirty) && completed == old(completed) && prevProgress == progress
      ensures Rising(told, progress)
      ensures file == if progress == old(prevProgress) then old(file) else old(file) + [Progress(progress)]
    {
      if progress != prevProgress {
        prevProgress := progress;
        Report(Progress(progress));
      }
    }

    /** total_sector_sum, which init_blk_migration adds up. */
    function TotalSectors(): nat
      reads this
    {
      Sum(Sizes(devs))
    }

    method FirstUnfinished() returns (v: nat, sum: nat)
      requires |completed| == |devs|
      ensures v <= |devs| && (v < |devs| ==> IsFirstOpen(devs, v)) && forall u :: 0 <= u < v ==> devs[u].bulkCompleted
      ensures sum == Sum(completed[..v])
    {
      v, sum := 0, 0;
      while v < |devs| && devs[v].bulkCompleted
        invariant 0 <= v <= |devs| && sum == Sum(completed[..v])
        invariant forall u :: 0 <= u < v ==> devs[u].bulkCompleted
      {
        assert completed[..v + 1][..v] == completed[..v];
        sum := sum + completed[v];
        v := v + 1;
      }
    }

    /** The loop of blk_mig_save_bulked_block: a chunk of the first device that has any left, and the sum of
        the sectors completed. */
    method SaveNextChunk(junk: seq<Sector>) returns (more: bool, sum: nat)
      requires Valid() && !bulkCompleted && |junk| == CHUNK && Progressing(devs, completed, prevProgress)
      modifies this
      ensures Valid() && Alone() && prevProgress == old(prevProgress) && told == old(told)
      ensures curDirty == old(curDirty) && rules == old(rules)
      ensures more <==> exists v :: 0 <= v < |old(devs)| && !old(devs)[v].bulkCompleted
      ensures more ==> exists v ::
        && IsFirstOpen(old(devs), v) && Enabled(old(rules), old(State()), Bulk(v, junk))
        && State() == Apply(old(State()), Bulk(v, junk))
      ensures !more ==> State() == old(State())
      ensures Progressing(devs, completed, prevProgress) && prevProgress <= Percent(sum, Sum(Sizes(devs))) <= 100
      ensures sum == Sum(completed)
    {
      ghost var s, steps, c := State(), history, completed;
      var v;
      v, sum := FirstUnfinished();
      more := v < |devs|;
      if more {
        BulkIsNext(rules, drives, steps, s, v, junk);
        BulkStep(v, junk);
        sum := sum + completed[v];
      } else {
        assert completed[..v] == completed;
      }
      ProgressMade(rules, drives, steps, s, c, prevProgress, v, junk, completed, sum);
    }

    /** blk_mig_save_bulked_block.  The progress it reports never goes back and never passes 100. */
    method SaveBulkedBlock(junk: seq<Sector>) returns (more: bool)
      requires Valid() && !bulkCompleted && |junk| == CHUNK
      requires Progressing(devs, completed, prevProgress) && Rising(told, prevProgress)
      modifies this
      ensures Valid() && Alone() && !bulkCompleted && curDirty == old(curDirty) && rules == old(rules)
      ensures Progressing(devs, completed, prevProgress) && Rising(told, prevProgress)
      ensures old(prevProgress) <= prevProgress
      ensures more <==> exists v :: 0 <= v < |old(devs)| && !old(devs)[v].bulkCompleted
      ensures more ==> exists v ::
        && IsFirstOpen(old(devs), v) && Enabled(old(rules), old(State()), Bulk(v, junk))
        && State() == Apply(old(State()), Bulk(v, junk)).(out := file)
      ensures !more ==> State() == old(State()).(out := file)
    {
      var sum;
      more, sum := SaveNextChunk(junk);
      ghost var s := State();
      ReportProgress(Percent(sum, TotalSectors()));
      assert State() == s.(out := file);
    }

    method FinishBulk()
      requires Valid() && !bulkCompleted && forall v :: 0 <= v < |devs| ==> devs[v].bulkCompleted
      modifies this`bulkCompleted, this`history
      ensures Valid() && bulkCompleted
    {
      ghost var s := State();
      bulkCompleted := true;
      Took(s, BulkDone);
    }

    // ---------- sending ----------

    /** One turn of flush_blks: blk_send of the first block of the queue. */
    method SendBlock()
      requires queue != [] && queue[0].dev < |devs|
      modifies this`file, this`queue, this`sent, this`readDone, this`transferred
      ensures var b := old(queue[0]);
        && file == old(file) + [Block(devs[b.dev].name, CHUNK * b.chunk, b.buf)]
        && queue == old(queue)[1..] && sent == old(sent) + [b.id]
        && readDone == old(readDone) - 1 && transferred == old(transferred) + 1
    {
      var blk := queue[0];
      file := file + [Block(devs[blk.dev].name, CHUNK * blk.chunk, blk.buf)];
      queue := queue[1..];
      sent := sent + [blk.id];
      readDone := readDone - 1;
      transferred := transferred + 1;
    }

    method SendFirst()
      requires Valid() && Enabled(rules, State(), Send)
      modifies this
      ensures Valid() && CursorsKept() && Alone() && State() == Apply(old(State()), Send) && readDone >= 0
    {
      ghost var s := State();
      TellsMore(file, told, Block(devs[queue[0].dev].name, CHUNK * queue[0].chunk, queue[0].buf));
      SendBlock();
      Took(s, Send);
      CountersCount(rules, drives, history, State());
    }

    /** flush_blks: the file takes `quota` blocks before the rate limit stops it. */
    method FlushBlks(quota: nat)
      requires Valid()
      modifies this
      ensures Valid() && CursorsKept() && Alone()
      ensures devs == old(devs) && inflight == old(inflight) && bulkCompleted == old(bulkCompleted)
      ensures queue == if quota < |old(queue)| then old(queue)[quota..] else []
      ensures submitted + readDone <= old(submitted + readDone)
      ensures submitted + readDone + transferred == old(submitted + readDone + transferred)
    {
      var n := 0;
      while queue != []
        invariant 0 <= n <= |old(queue)| && n <= quota && queue == old(queue)[n..]
        invariant Valid() && CursorsKept() && Alone()
        invariant devs == old(devs) && inflight == old(inflight) && bulkCompleted == old(bulkCompleted)
        invariant submitted + readDone <= old(submitted + readDone)
        invariant submitted + readDone + transferred == old(submitted + readDone + transferred)
        decreases |queue|
      {
        if n == quota { break; }
        ReadsAreGood(rules, drives, history, State(), 0);
        SendFirst();
        n := n + 1;
      }
    }

    // ---------- dirty chunks ----------

    /** The asynchronous branch of mig_save_device_dirty. */
    method SubmitRead(v: nat, c: nat, junk: seq<Sector>)
      requires v < |devs| && IsChunk(|devs[v].disk|, c)
      modifies this`devs, this`inflight, this`serial, this`submitted
      ensures devs == old(devs[v := devs[v].(dirty := devs[v].dirty - {c}, aio := devs[v].aio + {c})])
      ensures inflight == old(inflight + [Blk(serial, v, c, junk, {})])
      ensures serial == old(serial) + 1 && submitted == old(submitted) + 1
    {
      var nr := Sectors(|devs[v].disk|, c);
      inflight := inflight + [Blk(serial, v, c, junk, {})];
      serial := serial + 1;
      submitted := submitted + 1;
      ChunkAio(devs[v], c);
      SetAioInflight(v, CHUNK * c, nr, true);
      devs := devs[v := devs[v].(dirty := devs[v].dirty - ChunksOf(CHUNK * c, nr))];
    }

    method SubmitDirty(v: nat, c: nat, junk: seq<Sector>)
      requires Valid() && Enabled(rules, State(), Dirty(v, c, junk))
      modifies this
      ensures Valid() && CursorsKept() && Alone() && State() == Apply(old(State()), Dirty(v, c, junk))
    {
      ghost var s := State();
      SubmitRead(v, c, junk);
      Took(s, Dirty(v, c, junk));
    }

    /** The synchronous branch. */
    method SendDirty(v: nat, c: nat, junk: seq<Sector>)
      requires Valid() && Enabled(rules, State(), BlockProtocol.Sync(v, c, junk))
      modifies this
      ensures Valid() && CursorsKept() && Alone() && State() == Apply(old(State()), BlockProtocol.Sync(v, c, junk))
      ensures history == old(history) + [BlockProtocol.Sync(v, c, junk)]
    {
      ghost var s := State();
      var nr := Sectors(|devs[v].disk|, c);
      var record := Block(devs[v].name, CHUNK * c, devs[v].disk[CHUNK * c..CHUNK * c + nr] + junk[nr..]);
      TellsMore(file, told, record);
      file := file + [record];
      OneChunk(c, nr);
      devs := devs[v := devs[v].(dirty := devs[v].dirty - ChunksOf(CHUNK * c, nr))];
      Took(s, BlockProtocol.Sync(v, c, junk));
    }

    /** When chunks can be sent synchronously. */
    ghost predicate CanSync()
      reads this
    {
      inflight == [] && (rules.flushed ==> queue == [])
    }

    /** A chunk that is dirty is read, or sent. */
    method SaveChunk(v: nat, c: nat, async: bool, junk: seq<Sector>)
      requires Valid() && bulkCompleted && |junk| == CHUNK && v < |devs| && IsChunk(|devs[v].disk|, c)
      requires c in devs[v].dirty && c !in devs[v].aio && (!async ==> CanSync())
      modifies this
      ensures Valid() && CursorsKept() && Alone() && bulkCompleted
      ensures DirtyStep(old(devs), devs, true, v, c)
      ensures submitted + readDone == old(submitted + readDone) + (if async then 1 else 0)
      ensures transferred == old(transferred)
      ensures !async ==> inflight == [] && queue == old(queue) && SentOnly(old(history), history)
    {
      if async { SubmitDirty(v, c, junk); } else { SendDirty(v, c, junk); }
    }

    /** One turn of the loop of mig_save_device_dirty at chunk `c`: if a read of it is in flight, all reads
        are waited for, and guest writes may mark chunks meanwhile. */
    method SaveChunkIfDirty(v: nat, c: nat, async: bool, junk: seq<Sector>) returns (saved: bool)
      requires Valid() && bulkCompleted && |junk| == CHUNK && v < |devs| && IsChunk(|devs[v].disk|, c)
      requires !async ==> CanSync()
      modifies this
      ensures Valid() && CursorsKept() && bulkCompleted && old(marked) <= marked && c !in devs[v].dirty
      ensures if saved then Saved(old(devs), devs, v, c, marked) else Drifted(old(devs), devs, marked)
      ensures c in old(devs[v].dirty) ==> saved
      ensures submitted + readDone == old(submitted + readDone) + (if saved && async then 1 else 0)
      ensures transferred == old(transferred)
      ensures !async || c !in old(devs[v].aio) ==> Alone() && DirtyStep(old(devs), devs, saved, v, c)
      ensures !async ==> inflight == [] && queue == old(queue) && SentOnly(old(history), history)
    {
      StateStructured(rules, drives, history, State());
      if c in devs[v].aio { AioFlush(); }
      ghost var mid := devs;
      saved := c in devs[v].dirty;
      if saved {
        StateStructured(rules, drives, history, State());
        assert inflight == [] ==> c !in devs[v].aio;
        SaveChunk(v, c, async, junk);
        SavedAfterDrift(old(devs), mid, devs, v, c, marked);
      }
    }

    /** The dirty cursors are at chunk boundaries. */
    ghost predicate Aligned()
      reads this
    {
      |curDirty| == |devs| && forall v :: 0 <= v < |devs| ==> curDirty[v] == CHUNK * (curDirty[v] / CHUNK)
    }

    /** What the functions that look for dirty chunks leave alone. */
    twostate predicate RestKept()
      reads this
    {
      && completed == old(completed) && prevProgress == old(prevProgress) && rules == old(rules) && told == old(told)
      && transferred == old(transferred) && old(marked) <= marked
    }

    /** mig_save_device_dirty: saves the first dirty chunk from the cursor on, if there is one. */
    method SaveDeviceDirty(v: nat, async: bool, junk: seq<Sector>) returns (done: bool)
      requires Valid() && Aligned() && bulkCompleted && |junk| == CHUNK && v < |devs| && (!async ==> CanSync())
      modifies this
      ensures Valid() && Aligned() && bulkCompleted && RestKept() && curDirty == old(curDirty)[v := curDirty[v]]
      ensures Scanned(devs[v], v, old(curDirty[v]), curDirty[v], marked)
      ensures if done then Drifted(old(devs), devs, marked) && curDirty[v] >= |devs[v].disk|
              else Saved(old(devs), devs, v, curDirty[v] / CHUNK, marked)
      ensures submitted + readDone == old(submitted + readDone) + (if !done && async then 1 else 0)
      ensures !async ==> Alone() && DirtyStep(old(devs), devs, !done, v, curDirty[v] / CHUNK)
      ensures !async ==> inflight == [] && queue == old(queue) && SentOnly(old(history), history)
    {
      var sector := curDirty[v];
      ghost var k := sector / CHUNK;
      done := true;
      while sector < |devs[v].disk|
        invariant Valid() && Aligned() && bulkCompleted && RestKept() && (!async ==> CanSync())
        invariant done && sector == CHUNK * k == curDirty[v] && curDirty == old(curDirty)[v := sector]
        invariant Drifted(old(devs), devs, marked) && Scanned(devs[v], v, old(curDirty[v]), sector, marked)
        invariant submitted + readDone == old(submitted + readDone)
        invariant !async ==> Alone() && Unchanged(old(devs), devs)
        invariant !async ==> inflight == [] && queue == old(queue) && SentOnly(old(history), history)
        decreases |devs[v].disk| - sector
      {
        ghost var before, m, h := devs, marked, history;
        var saved := SaveChunkIfDirty(v, sector / CHUNK, async, junk);
        ScannedStill(before[v], devs[v], v, old(curDirty[v]), sector, m, marked);
        if !async { SentOnlyJoins(old(history), h, history); }
        if saved {
          DriftThenSaved(old(devs), before, devs, v, k, m, marked);
          done := false;
          break;
        }
        DriftsJoin(old(devs), before, devs, m, marked);
        sector := sector + CHUNK;
        k := k + 1;
        curDirty := curDirty[v := sector];
      }
    }

    /** blk_mig_save_dirty_block: saves one dirty chunk of the first device that has one at or after
        its cursor. */
    method SaveDirtyBlock(async: bool, junk: seq<Sector>) returns (more: bool)
      requires Valid() && Aligned() && bulkCompleted && |junk| == CHUNK && (!async ==> CanSync())
      modifies this
      ensures Valid() && Aligned() && bulkCompleted && RestKept() && AllScanned(devs, old(curDirty), curDirty, marked)
      ensures NoneNew(old(devs), devs, marked)
      ensures more ==> exists v, c :: Saved(old(devs), devs, v, c, marked)
      ensures !more ==> Drifted(old(devs), devs, marked)
      ensures !more ==> forall v :: 0 <= v < |devs| ==> curDirty[v] >= |devs[v].disk|
      ensures submitted + readDone == old(submitted + readDone) + (if more && async then 1 else 0)
      ensures !async && more ==> exists v, c :: DirtyStep(old(devs), devs, true, v, c)
      ensures !async ==> Alone() && (!more ==> Unchanged(old(devs), devs))
      ensures !async ==> inflight == [] && queue == old(queue) && SentOnly(old(history), history)
    {
      var v := 0;
      while v < |devs|
        invariant 0 <= v <= |devs| && Valid() && Aligned() && bulkCompleted && RestKept() && (!async ==> CanSync())
        invariant Drifted(old(devs), devs, marked) && AllScanned(devs, old(curDirty), curDirty, marked)
        invariant forall u :: 0 <= u < v ==> curDirty[u] >= |devs[u].disk|
        invariant submitted + readDone == old(submitted + readDone)
        invariant !async ==> Alone() && Unchanged(old(devs), devs)
        invariant !async ==> inflight == [] && queue == old(queue) && SentOnly(old(history), history)
      {
        ghost var before, cursors, m, h := devs, curDirty, marked, history;
        var done := SaveDeviceDirty(v, async, junk);
        if !async { SentOnlyJoins(old(history), h, history); }
        ScansJoin(before, devs, old(curDirty), cursors, curDirty, v, m, marked);
        if !done {
          DriftThenSaved(old(devs), before, devs, v, curDirty[v] / CHUNK, m, marked);
          assert !async ==> DirtyStep(old(devs), devs, true, v, curDirty[v] / CHUNK);
          return true;
        }
        DriftsJoin(old(devs), before, devs, m, marked);
        v := v + 1;
      }
      more := false;
    }

    /** blk_mig_reset_dirty_cursor */
    method ResetDirtyCursor()
      requires |curDirty| == |devs|
      modifies this`curDirty, this`marked
      ensures curDirty == Zeros(|devs|) && marked == {}
    {
      var v := 0;
      while v < |devs|
        invariant 0 <= v <= |devs| && |curDirty| == |devs| && forall u :: 0 <= u < v ==> curDirty[u] == 0
      {
        curDirty := curDirty[v := 0];
        v := v + 1;
      }
      marked := {};
    }

    // ---------- stages ----------

    /** What holds between stages: the cursors are in order, and so is the progress. */
    ghost predicate Ready()
      reads this
    {
      && Valid() && Aligned() && rules == ALL_RULES && Rising(told, prevProgress)
      && (!bulkCompleted ==> Progressing(devs, completed, prevProgress))
    }

    /** The loop of stage 2: blocks are read until as many are on their way as `room` allows, or there is
        nothing left to read but what guest writes have marked meanwhile. */
    method ReadAhead(room: nat, junk: seq<Sector>)
      requires Ready() && |junk| == CHUNK && AllScanned(devs, Zeros(|devs|), curDirty, marked)
      modifies this
      ensures Ready() && transferred == old(transferred) && old(prevProgress) <= prevProgress
      ensures submitted + readDone >= room || (bulkCompleted && OnlyMarked(devs, marked))
    {
      while submitted + readDone < room
        invariant Ready() && transferred == old(transferred) && old(prevProgress) <= prevProgress
        invariant AllScanned(devs, Zeros(|devs|), curDirty, marked)
        decreases room - (submitted + readDone), !bulkCompleted
      {
        DataMoves();
        if !bulkCompleted {
          BulkTurn(junk);
        } else {
          var more := DirtyTurn(junk);
          if !more { break; }
        }
      }
    }

    /** Between two turns of the loop data may reach the disks and be picked up. */
    method DataMoves()
      requires Ready() && AllScanned(devs, Zeros(|devs|), curDirty, marked)
      modifies this
      ensures Ready() && AllScanned(devs, Zeros(|devs|), curDirty, marked) && transferred == old(transferred)
      ensures prevProgress == old(prevProgress) && bulkCompleted == old(bulkCompleted)
      ensures submitted + readDone == old(submitted + readDone)
    {
      ghost var before := devs;
      Meanwhile(false);
      if !bulkCompleted { ProgressKept(before, devs, completed, prevProgress); }
      ScansDrift(before, devs, curDirty, marked);
    }

    /** A turn in the bulk phase: another chunk, or the end of the phase. */
    method BulkTurn(junk: seq<Sector>)
      requires Ready() && !bulkCompleted && |junk| == CHUNK && AllScanned(devs, Zeros(|devs|), curDirty, marked)
      modifies this
      ensures Ready() && AllScanned(devs, Zeros(|devs|), curDirty, marked) && transferred == old(transferred)
      ensures old(prevProgress) <= prevProgress
      ensures if bulkCompleted then submitted + readDone == old(submitted + readDone)
              else submitted + readDone == old(submitted + readDone) + 1
    {
      ghost var s := State();
      var more := SaveBulkedBlock(junk);
      if more {
        ghost var v :| IsFirstOpen(s.devs, v) && Enabled(rules, s, Bulk(v, junk))
          && State() == Apply(s, Bulk(v, junk)).(out := file);
        BulkSubmits(s, v, junk);
      }
      ScansShrink(s.devs, devs, curDirty, marked);
      if !more { FinishBulk(); }
    }

    /** A turn after it: another dirty chunk, if there is one. */
    method DirtyTurn(junk: seq<Sector>) returns (more: bool)
      requires Ready() && bulkCompleted && |junk| == CHUNK && AllScanned(devs, Zeros(|devs|), curDirty, marked)
      modifies this
      ensures Ready() && bulkCompleted && AllScanned(devs, Zeros(|devs|), curDirty, marked)
      ensures transferred == old(transferred)
      ensures prevProgress == old(prevProgress) && (!more ==> OnlyMarked(devs, marked))
      ensures submitted + readDone == old(submitted + readDone) + (if more then 1 else 0)
    {
      ghost var before, cursors, m := devs, curDirty, marked;
      more := SaveDirtyBlock(true, junk);
      ScansFollow(before, devs, cursors, curDirty, m, marked);
      if !more { NothingDirty(rules, drives, history, State(), curDirty, marked); }
    }

    /** How every stage begins. */
    method Rewind(quota: nat)
      requires Ready()
      modifies this
      ensures Ready() && AllScanned(devs, Zeros(|devs|), curDirty, marked) && marked == {}
      ensures transferred >= old(transferred)
      ensures prevProgress == old(prevProgress)
    {
      FlushBlks(quota);
      ResetDirtyCursor();
    }

    /** How stage 2 ends. */
    method EndSection(quota: nat)
      requires Ready()
      modifies this
      ensures Ready() && devs == old(devs) && bulkCompleted == old(bulkCompleted) && file != []
      ensures file[|file| - 1] == Eos
      ensures submitted + readDone + transferred == old(submitted + readDone + transferred)
      ensures prevProgress == old(prevProgress) && marked == old(marked)
    {
      FlushBlks(quota);
      Report(Eos);
    }

    /** Stage 2 of block_save_live.  `quota` blocks fit in the file at the first flush and `quota'` at
        the second; `soon` is the verdict of the bandwidth estimate. */
    method MiddleStage(room: nat, quota: nat, quota': nat, junk: seq<Sector>, soon: bool) returns (enough: bool)
      requires Ready() && |junk| == CHUNK
      modifies this
      ensures Ready() && (enough ==> bulkCompleted) && old(prevProgress) <= prevProgress
      ensures enough <==> bulkCompleted && (soon || DirtyTotal(devs) == 0)
      ensures file != [] && file[|file| - 1] == Eos
      ensures submitted + readDone + transferred >= old(transferred) + room
        || (bulkCompleted && OnlyMarked(devs, marked))
    {
      Rewind(quota);
      ReadAhead(room, junk);
      EndSection(quota');
      enough := bulkCompleted && (DirtyTotal(devs) == 0 || soon);
    }

    /** The main loop runs between stages. */
    method BetweenStages()
      requires Ready()
      modifies this
      ensures Ready() && bulkCompleted == old(bulkCompleted) && prevProgress == old(prevProgress)
    {
      ghost var before := devs;
      Meanwhile(true);
      if !bulkCompleted { ProgressKept(before, devs, completed, prevProgress); }
    }

    /** The guest's unfinished writes set their dirty bits. */
    method FinishWrites()
      requires Valid()
      modifies this
      ensures Valid() && CursorsKept() && bulkCompleted == old(bulkCompleted) && inflight == old(inflight)
      ensures queue == old(queue)
      ensures |devs| == |old(devs)| && forall v :: 0 <= v < |devs| ==> devs[v].writing == multiset{}
    {
      var v := 0;
      while v < |devs|
        invariant 0 <= v <= |devs| == |old(devs)| && Valid() && CursorsKept()
        invariant bulkCompleted == old(bulkCompleted) && inflight == old(inflight) && queue == old(queue)
        invariant forall u :: 0 <= u < v ==> devs[u].writing == multiset{}
        decreases |devs| - v, if v < |devs| then |devs[v].writing| else 0
      {
        if devs[v].writing == multiset{} {
          v := v + 1;
        } else {
          ghost var before := devs;
          var c :| c in devs[v].writing;
          Outside(GuestMark(v, c));
          assert devs[v].writing == before[v].writing - multiset{c};
        }
      }
    }

    /** do_vm_stop: the guest stops, and all reads and writes are waited for. */
    method StopGuest()
      requires Ready() && bulkCompleted
      modifies this
      ensures Ready() && bulkCompleted && Quiet(State()) && prevProgress == old(prevProgress)
    {
      AioFlush();
      FinishWrites();
    }

    /** The loop of stage 3: dirty chunks are sent until there is none. */
    method SendDirtyChunks(junk: seq<Sector>)
      requires Valid() && bulkCompleted && |junk| == CHUNK && Quiet(State()) && CanSync()
      requires curDirty == Zeros(|devs|) && marked == {}
      modifies this
      ensures Valid() && RestKept() && Quiet(State()) && queue == old(queue) && SentOnly(old(history), history)
      ensures forall v :: 0 <= v < |devs| ==> devs[v].dirty == {}
    {
      var more := true;
      while more
        invariant Valid() && Aligned() && RestKept() && Quiet(State()) && CanSync() && queue == old(queue)
        invariant marked == {} && SentOnly(old(history), history) && AllScanned(devs, Zeros(|devs|), curDirty, {})
        invariant !more ==> forall v :: 0 <= v < |devs| ==> curDirty[v] >= |devs[v].disk|
        decreases more, DirtyTotal(devs)
      {
        ghost var before, cursors, h := devs, curDirty, history;
        more := SaveDirtyBlock(false, junk);
        SentOnlyJoins(old(history), h, history);
        if more {
          ghost var v, c :| DirtyStep(before, devs, true, v, c);
          OneLessDirty(before, devs, v, c);
        }
        ScansFollow(before, devs, cursors, curDirty, {}, {});
      }
      NothingDirty(rules, drives, history, State(), curDirty, {});
    }

    /** Stage 3 of block_save_live.  The guest is stopped and no read is in flight.  The file takes `quota`
        blocks of the queue, and what is left of it, the queue of `s`, is thrown away.  Every receiver gets
        a copy if and only if what is left had been sent before, or is dirty and sent again. */
    method LastStage(quota: nat, junk: seq<Sector>) returns (ghost s: Mig, ghost before: seq<Step>)
      requires Ready() && bulkCompleted && |junk| == CHUNK && Quiet(State())
      modifies this
      ensures s.queue == if quota < |old(queue)| then old(queue)[quota..] else []
      ensures Reaches(ALL_RULES, drives, before, s) && SentOnly(before, history) && Closed(file)
      ensures StageThreeCame(drives, s, State())
      ensures Tells(file, told) && Rising(told, 100)
    {
      s, before := FlushBeforeLast(quota);
      SendDirtyChunks(junk);
      LastRecords(before);
      Delivered(drives, before, s, history, State());
    }

    /** The flush on entry to stage 3.  From here on the queue need not be empty. */
    method FlushBeforeLast(quota: nat) returns (ghost s: Mig, ghost before: seq<Step>)
      requires Ready() && bulkCompleted && Quiet(State())
      modifies this
      ensures s.queue == (if quota < |old(queue)| then old(queue)[quota..] else []) && Quiet(s)
      ensures Reaches(ALL_RULES, drives, before, s) && before == history && State() == s
      ensures Valid() && CanSync() && rules == UNFLUSHED && Rising(told, prevProgress)
      ensures curDirty == Zeros(|devs|) && marked == {}
    {
      FlushBlks(quota);
      ResetDirtyCursor();
      CountersCount(rules, drives, history, State());
      assert submitted == 0;
      s, before := State(), history;
      ReachesRelaxed(drives, history, s);
      rules := UNFLUSHED;
    }

    /** The records at the end of stage 3. */
    method LastRecords(ghost before: seq<Step>)
      requires Valid() && Rising(told, prevProgress) && SentOnly(before, history)
      modifies this`file, this`history, this`told
      ensures Valid() && Rising(told, 100) && SentOnly(before, history) && Closed(file)
    {
      ghost var h := history;
      Report(Progress(100));
      Report(Eos);
      NotesOnly(h, history, Progress(100), Eos);
      SentOnlyJoins(before, h, history);
    }

    /** Stage 2 again and again, until it says enough or there is no more time. */
    method MiddleStages(rounds: seq<Round>, junk: seq<Sector>) returns (enough: bool)
      requires Ready() && |junk| == CHUNK
      modifies this
      ensures Ready() && (enough ==> bulkCompleted) && old(prevProgress) <= prevProgress
      ensures !enough && rounds != [] ==> !bulkCompleted || (!rounds[|rounds| - 1].soon && DirtyTotal(devs) > 0)
    {
      var n := 0;
      enough := false;
      while n < |rounds| && !enough
        invariant 0 <= n <= |rounds| && Ready() && (enough ==> bulkCompleted) && old(prevProgress) <= prevProgress
        invariant !enough && n > 0 ==> !bulkCompleted || (!rounds[n - 1].soon && DirtyTotal(devs) > 0)
      {
        BetweenStages();
        enough := MiddleStage(rounds[n].room, rounds[n].quota, rounds[n].quota', junk, rounds[n].soon);
        n := n + 1;
      }
    }
  }

  // ---------- lemmas of the methods ----------

  lemma OutsiderDrifts(s: Mig, e: Step)
    requires Outsider(e) && Enabled(Rules(false, false), s, e)
    ensures WentOn(s, Apply(s, e), if e.GuestMark? then {(e.dev, e.chunk)} else {})
  {
  }

  /** A bulk read makes no chunk dirty, and one more block is on its way. */
  lemma BulkSubmits(s: Mig, v: nat, junk: seq<Sector>)
    requires Enabled(Rules(false, false), s, Bulk(v, junk))
    ensures var t := Apply(s, Bulk(v, junk));
      && NoneNew(s.devs, t.devs, {}) && t.submitted == s.submitted + 1
      && t.readDone == s.readDone && t.transferred == s.transferred
  {
    BulkIs(s, v, junk);
  }

  lemma SavedAfterDrift(a: seq<Device>, mid: seq<Device>, b: seq<Device>, v: nat, c: nat, m: set<(nat, nat)>)
    requires Drifted(a, mid, m) && DirtyStep(mid, b, true, v, c)
    ensures Saved(a, b, v, c, m)
  {
  }

  lemma DriftThenSaved(a: seq<Device>, mid: seq<Device>, b: seq<Device>, v: nat, c: nat, m: set<(nat, nat)>,
                       m': set<(nat, nat)>)
    requires Drifted(a, mid, m) && Saved(mid, b, v, c, m') && m <= m'
    ensures Saved(a, b, v, c, m')
  {
  }

  lemma ScannedStill(a: Device, b: Device, v: nat, from: nat, to: nat, m: set<(nat, nat)>, m': set<(nat, nat)>)
    requires Scanned(a, v, from, to, m) && m <= m' && forall c :: c in b.dirty ==> c in a.dirty || (v, c) in m'
    ensures Scanned(b, v, from, to, m')
  {
  }

  lemma ScansDrift(a: seq<Device>, b: seq<Device>, cursor: seq<nat>, m: set<(nat, nat)>)
    requires AllScanned(a, Zeros(|a|), cursor, m) && Drifted(a, b, m)
    ensures AllScanned(b, Zeros(|b|), cursor, m)
  {
    forall u | 0 <= u < |b| ensures Scanned(b[u], u, 0, cursor[u], m) { assert Scanned(a[u], u, 0, cursor[u], m); }
  }

  lemma ScansShrink(a: seq<Device>, b: seq<Device>, cursor: seq<nat>, m: set<(nat, nat)>)
    requires AllScanned(a, Zeros(|a|), cursor, m) && NoneNew(a, b, {})
    ensures AllScanned(b, Zeros(|b|), cursor, m)
  {
    forall u | 0 <= u < |b| ensures Scanned(b[u], u, 0, cursor[u], m) { assert Scanned(a[u], u, 0, cursor[u], m); }
  }

  lemma NotesOnly(h: seq<Step>, h': seq<Step>, x: Record, y: Record)
    requires h' == h + [Note(x)] + [Note(y)]
    ensures SentOnly(h, h')
  {
    assert h'[|h|..] == [Note(x), Note(y)];
  }

  /** Stage 3 as a whole: what every receiver gets. */
  lemma Delivered(drives: seq<Drive>, before: seq<Step>, s: Mig, history: seq<Step>, t: Mig)
    requires Reaches(ALL_RULES, drives, before, s) && Quiet(s) && Reaches(UNFLUSHED, drives, history, t)
    requires SentOnly(before, history) && Closed(t.out) && forall v :: 0 <= v < |t.devs| ==> t.devs[v].dirty == {}
    requires Quiet(t) && t.queue == s.queue
    ensures StageThreeCame(drives, s, t)
  {
    assert RunIs(ALL_RULES, drives, before, s) && RunIs(UNFLUSHED, drives, history, t);
    RulesRelaxed(Init(drives), before);
    var steps := history[|before|..];
    assert history == before + steps;
    RunSplits(UNFLUSHED, Init(drives), before, s, steps);
    LeftoverQueue(drives, before, s, steps, t);
    RunStructured(UNFLUSHED, drives, history);
    forall d0 ensures Delivers(t, d0) <==> EndsCopied(t, d0) { StreamIsReplayed(d0, t.out); }
  }

  lemma BulkIsNext(rules: Rules, drives: seq<Drive>, steps: seq<Step>, s: Mig, v: nat, junk: seq<Sector>)
    requires Reaches(rules, drives, steps, s) && !s.bulkCompleted && |junk| == CHUNK && IsFirstOpen(s.devs, v)
    ensures Enabled(rules, s, Bulk(v, junk))
  {
    StateStructured(rules, drives, steps, s);
  }

  lemma ProgressMade(rules: Rules, drives: seq<Drive>, steps: seq<Step>, s: Mig, c: seq<nat>, prev: int, v: nat,
                     junk: seq<Sector>, completed: seq<nat>, sum: nat)
    requires Reaches(rules, drives, steps, s) && Progressing(s.devs, c, prev) && v <= |s.devs|
    requires v < |s.devs| ==> !s.devs[v].bulkCompleted && Enabled(rules, s, Bulk(v, junk))
    requires if v < |s.devs| then completed == c[v := s.devs[v].curSector] && sum == Sum(c[..v]) + completed[v]
             else completed == c && sum == Sum(c)
    ensures var devs := if v < |s.devs| then Apply(s, Bulk(v, junk)).devs else s.devs;
      && sum == Sum(completed) && Progressing(devs, completed, prev)
      && prev <= Percent(sum, Sum(Sizes(devs))) <= 100
  {
    StateStructured(rules, drives, steps, s);
    StateInOrder(rules, drives, steps, s);
    if v < |s.devs| { BulkKeepsDevice(s.devs[v]); } else { assert c[..v] == c; }
    SumSoFar(s.devs, c, prev, if v < |s.devs| then Apply(s, Bulk(v, junk)).devs else s.devs, completed, v, sum);
  }

  // ---------- a whole migration ----------

  /** How a migration came out: stage 2 never said enough, or it came to its end. */
  datatype Outcome = GoesOn | Ended

  lemma InitProgress(drives: seq<Drive>)
    ensures Progressing(Init(drives).devs, Zeros(|Init(drives).devs|), -1)
  {
    var devs := Init(drives).devs;
    forall v | 0 <= v < |devs| ensures devs[v].curSector == 0 { var _ := InitDevice(drives, v); }
  }

  /** A whole migration: stage 1, stage 2 until it says enough, the stop of the guest, stage 3 with a file
      that takes `quota` blocks of what is queued then.  The progress reported never goes back. */
  method Migrate(drives: seq<Drive>, world: seq<seq<Step>>, rounds: seq<Round>, quota: nat, junk: seq<Sector>)
    returns (m: BlockState, outcome: Outcome, ghost s: Mig, ghost before: seq<Step>)
    requires Distinct(drives) && |junk| == CHUNK
    ensures Rising(Percents(m.file), 100)
    ensures outcome == GoesOn && rounds != [] ==>
      !m.bulkCompleted || (!rounds[|rounds| - 1].soon && DirtyTotal(m.devs) > 0)
    ensures outcome == Ended ==>
      Reaches(ALL_RULES, drives, before, s) && SentOnly(before, m.history) && StageThreeCame(drives, s, m.State())
  {
    m := new BlockState(drives, world);
    InitProgress(drives);
    m.Report(Eos);
    s, before := m.State(), m.history;
    var enough := m.MiddleStages(rounds, junk);
    if !enough {
      assert Percents(m.file) == m.told;
      return m, GoesOn, s, before;
    }
    m.BetweenStages();
    m.StopGuest();
    s, before := m.LastStage(quota, junk);
    assert Percents(m.file) == m.told;
    outcome := Ended;
  }
}
