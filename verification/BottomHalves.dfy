/**
  Bottom halves: a linked list of callbacks, walked by polls that the callbacks themselves may start
  again.  A node that is deleted while a walk is under way is taken out and freed only when the
  outermost walk is over.
 */
module BottomHalves {

  /** A QEMUBH; `next` is -1 at the end of the list. */
  datatype Node = Node(scheduled: bool, idle: bool, deleted: bool, next: int)

  /** What a callback does.  `Poll` says what the callbacks do that the poll runs, in the order in which
      it runs them; those it does not mention do nothing. */
  datatype Action =
    | New | Schedule(bh: nat) | ScheduleIdle(bh: nat) | Cancel(bh: nat) | Delete(bh: nat)
    | Poll(bodies: Bodies)
  datatype Script = Done | Then(action: Action, rest: Script)
  datatype Bodies = Empty | More(first: Script, others: Bodies)

  function ActionSize(a: Action): nat
  {
    if a.Poll? then 1 + BodiesSize(a.bodies) else 0
  }

  function ScriptSize(s: Script): nat
  {
    if s.Done? then 0 else 1 + ActionSize(s.action) + ScriptSize(s.rest)
  }

  function BodiesSize(b: Bodies): nat
  {
    if b.Empty? then 0 else 1 + ScriptSize(b.first) + BodiesSize(b.others)
  }

  predicate Waiting(n: Node)
  {
    !n.deleted && n.scheduled
  }

  // ---------- what has happened ----------

  /** A schedule that took effect, a run at a depth of nesting, a cancellation that took effect, a
      deletion. */
  datatype Event = Scheduled(bh: nat) | Ran(bh: nat, idle: bool, depth: nat) | Cancelled(bh: nat) | Deleted(bh: nat)

  /** Which bottom halves have a schedule pending, and which are deleted. */
  datatype Status = Status(pending: set<nat>, deleted: set<nat>)

  function Update(st: Status, e: Event): Status
  {
    match e
    case Scheduled(b) => st.(pending := st.pending + {b})
    case Ran(b, _, _) => st.(pending := st.pending - {b})
    case Cancelled(b) => st.(pending := st.pending - {b})
    case Deleted(b) => Status(st.pending - {b}, st.deleted + {b})
  }

  function After(log: seq<Event>): Status
  {
    if log == [] then Status({}, {}) else Update(After(log[..|log| - 1]), log[|log| - 1])
  }

  /** A run takes up a pending schedule, of a bottom half that is not deleted; a schedule takes effect
      only if there is none pending, a cancellation only if there is one. */
  predicate Due(st: Status, e: Event)
  {
    match e
    case Scheduled(b) => b !in st.pending
    case Ran(b, _, _) => b in st.pending && b !in st.deleted
    case Cancelled(b) => b in st.pending
    case Deleted(_) => true
  }

  predicate AllDue(log: seq<Event>)
  {
    forall k :: 0 <= k < |log| ==> Due(After(log[..k]), log[k])
  }

  /** From event `n` on, `bh` has been run, cancelled or deleted. */
  predicate Handled(log: seq<Event>, n: nat, bh: nat)
  {
    exists k :: n <= k < |log| && log[k].bh == bh && !log[k].Scheduled?
  }

  lemma AfterOneMore(log: seq<Event>, e: Event)
    ensures After(log + [e]) == Update(After(log), e)
    ensures AllDue(log) && Due(After(log), e) ==> AllDue(log + [e])
  {
    var l := log + [e];
    assert l[..|log|] == log;
    if AllDue(log) && Due(After(log), e) {
      forall k | 0 <= k < |l| ensures Due(After(l[..k]), l[k]) {
        assert l[..k] == if k < |log| then log[..k] else log;
      }
    }
  }

  function Schedules(log: seq<Event>, bh: nat): nat
  {
    if log == [] then 0 else Schedules(log[..|log| - 1], bh) + (if log[|log| - 1] == Scheduled(bh) then 1 else 0)
  }

  function Runs(log: seq<Event>, bh: nat): nat
  {
    if log == [] then 0
    else Runs(log[..|log| - 1], bh) + (if log[|log| - 1].Ran? && log[|log| - 1].bh == bh then 1 else 0)
  }

  /** Pending schedules that a cancellation or a deletion has put an end to. */
  function Drops(log: seq<Event>, bh: nat): nat
  {
    if log == [] then 0
    else
      var before, e := log[..|log| - 1], log[|log| - 1];
      Drops(before, bh) + (if e.bh == bh && (e.Cancelled? || (e.Deleted? && bh in After(before).pending)) then 1 else 0)
  }

  /** Every schedule that takes effect is run once, dropped once, or still pending. */
  lemma {:induction false} SchedulesConserved(log: seq<Event>, bh: nat)
    requires AllDue(log)
    ensures Schedules(log, bh) == Runs(log, bh) + Drops(log, bh) + (if bh in After(log).pending then 1 else 0)
    decreases |log|
  {
    if log == [] {
    } else {
      var before := log[..|log| - 1];
      forall k | 0 <= k < |before| ensures Due(After(before[..k]), before[k]) { assert before[..k] == log[..k]; }
      SchedulesConserved(before, bh);
      assert Due(After(before), log[|log| - 1]);
    }
  }

  /** A schedule that was pending and no longer is, or a bottom half that has been deleted meanwhile,
      has been dealt with. */
  lemma {:induction false} DealtWith(log: seq<Event>, n: nat, bh: nat)
    requires n <= |log|
    ensures bh in After(log[..n]).pending && bh !in After(log).pending ==> Handled(log, n, bh)
    ensures bh !in After(log[..n]).deleted && bh in After(log).deleted ==> Handled(log, n, bh)
    decreases |log|
  {
    assert log[..|log|] == log;
    if n < |log| {
      var l := log[..|log| - 1];
      assert l[..n] == log[..n];
      DealtWith(l, n, bh);
      assert forall k :: 0 <= k < |l| ==> l[k] == log[k];
      if Handled(l, n, bh) {
        var k :| n <= k < |l| && l[k].bh == bh && !l[k].Scheduled?;
        assert log[k].bh == bh && !log[k].Scheduled?;
      } else {
        assert log[|log| - 1].bh == bh && !log[|log| - 1].Scheduled? ==> Handled(log, n, bh);
      }
    }
  }

  // ---------- the list ----------

  predicate Distinct(list: seq<nat>)
  {
    forall i, j :: 0 <= i < j < |list| ==> list[i] != list[j]
  }

  function At(list: seq<nat>, i: int): int
    requires i >= 0
  {
    if i < |list| then list[i] else -1
  }

  predicate LinkAt(heap: map<nat, Node>, list: seq<nat>, i: int)
    requires 0 <= i < |list| && list[i] in heap
  {
    heap[list[i]].next == At(list, i + 1)
  }

  /** `list` is what the links say, from `first` on, and every node allocated is on it. */
  ghost predicate Linked(heap: map<nat, Node>, first: int, list: seq<nat>)
  {
    && first == At(list, 0) && Distinct(list)
    && (forall i :: 0 <= i < |list| ==> list[i] in heap)
    && (forall i :: 0 <= i < |list| ==> LinkAt(heap, list, i))
    && (forall x :: x in heap ==> x in list)
  }

  /** The flags of the nodes are what the log says. */
  ghost predicate Recorded(heap: map<nat, Node>, st: Status)
  {
    forall x :: x in heap ==> heap[x].scheduled == (x in st.pending) && heap[x].deleted == (x in st.deleted)
  }

  /** The nodes that are not deleted, in order. */
  function Survivors(deleted: set<nat>, list: seq<nat>): seq<nat>
  {
    if list == [] then []
    else Survivors(deleted, list[..|list| - 1]) + (if list[|list| - 1] in deleted then [] else [list[|list| - 1]])
  }

  /** `now` is `before` with new nodes at its head. */
  predicate Extends(before: seq<nat>, now: seq<nat>)
  {
    |before| <= |now| && now[|now| - |before|..] == before
  }

  lemma ExtendsTwice(a: seq<nat>, b: seq<nat>, c: seq<nat>)
    requires Extends(a, b) && Extends(b, c)
    ensures Extends(a, c)
  {
    assert c[|c| - |a|..] == c[|c| - |b|..][|b| - |a|..];
  }

  /** Taking node `b` out of the middle of the list and freeing it. */
  function Unlinked(heap: map<nat, Node>, kept: seq<nat>, b: nat, next: int): map<nat, Node>
    requires kept != [] ==> kept[|kept| - 1] in heap
  {
    (if kept == [] then heap else heap[kept[|kept| - 1] := heap[kept[|kept| - 1]].(next := next)]) - {b}
  }

  lemma UnlinkKeepsLinked(heap: map<nat, Node>, first: int, kept: seq<nat>, b: nat, tail: seq<nat>)
    requires Linked(heap, first, kept + [b] + tail)
    ensures kept != [] ==> kept[|kept| - 1] in heap
    ensures Linked(Unlinked(heap, kept, b, At(tail, 0)), if kept == [] then At(tail, 0) else first, kept + tail)
  {
    LastKept(heap, first, kept, b, tail);
    var short, h := kept + tail, Unlinked(heap, kept, b, At(tail, 0));
    ShortList(kept, b, tail);
    forall i | 0 <= i < |short| ensures short[i] in h && LinkAt(h, short, i) {
      UnlinkedLink(heap, first, kept, b, tail, i);
    }
    forall x | x in h ensures x in short { StillListed(heap, first, kept, b, tail, x); }
  }

  lemma LastKept(heap: map<nat, Node>, first: int, kept: seq<nat>, b: nat, tail: seq<nat>)
    requires Linked(heap, first, kept + [b] + tail)
    ensures kept != [] ==> kept[|kept| - 1] in heap && first == At(kept + tail, 0)
  {
    assert kept != [] ==> (kept + [b] + tail)[|kept| - 1] == kept[|kept| - 1];
  }

  /** One link of the list without `b`. */
  lemma UnlinkedLink(heap: map<nat, Node>, first: int, kept: seq<nat>, b: nat, tail: seq<nat>, i: nat)
    requires Linked(heap, first, kept + [b] + tail) && i < |kept + tail| && (kept != [] ==> kept[|kept| - 1] in heap)
    ensures var h := Unlinked(heap, kept, b, At(tail, 0)); (kept + tail)[i] in h && LinkAt(h, kept + tail, i)
  {
    var list, short := kept + [b] + tail, kept + tail;
    ShortList(kept, b, tail);
    assert list[Place(kept, i)] in heap && LinkAt(heap, list, Place(kept, i));
    assert i == |kept| - 1 ==> short[i] == kept[|kept| - 1];
    assert kept != [] && i != |kept| - 1 ==> short[i] != short[|kept| - 1];
  }

  lemma StillListed(heap: map<nat, Node>, first: int, kept: seq<nat>, b: nat, tail: seq<nat>, x: nat)
    requires Linked(heap, first, kept + [b] + tail) && x in heap && x != b
    ensures x in kept + tail
  {
    var list, short := kept + [b] + tail, kept + tail;
    var k :| 0 <= k < |list| && list[k] == x;
    assert short[if k < |kept| then k else k - 1] == x;
  }

  lemma ShortList(kept: seq<nat>, b: nat, tail: seq<nat>)
    requires Distinct(kept + [b] + tail)
    ensures Distinct(kept + tail)
    ensures forall i :: 0 <= i < |kept + tail| ==> (kept + tail)[i] == (kept + [b] + tail)[Place(kept, i)] != b
  {
    var list, short := kept + [b] + tail, kept + tail;
    assert list[|kept|] == b;
    forall i | 0 <= i < |short| ensures short[i] == list[Place(kept, i)] && short[i] != b {}
    forall i, j | 0 <= i < j < |short| ensures short[i] != short[j] {
      assert list[Place(kept, i)] != list[Place(kept, j)];
    }
  }

  function Place(kept: seq<nat>, i: nat): nat
  {
    if i < |kept| then i else i + 1
  }

  /** The log has grown, and the runs added are deeper than `depth`. */
  predicate Grown(before: seq<Event>, now: seq<Event>, depth: nat)
  {
    before <= now && forall k :: |before| <= k < |now| && now[k].Ran? ==> now[k].depth > depth
  }

  /** From event `n` on, a poll at this depth has run a bottom half that was not idle. */
  predicate RanAt(log: seq<Event>, n: nat, depth: nat)
  {
    exists k :: n <= k < |log| && log[k].Ran? && !log[k].idle && log[k].depth == depth
  }

  /** What deeper polls do changes neither answer. */
  lemma DeeperRuns(a: seq<Event>, b: seq<Event>, n: nat, depth: nat, bh: nat)
    requires n <= |a| && Grown(a, b, depth)
    ensures RanAt(b, n, depth) <==> RanAt(a, n, depth)
    ensures Handled(a, n, bh) ==> Handled(b, n, bh)
  {
    assert forall k :: 0 <= k < |a| ==> b[k] == a[k];
    if RanAt(a, n, depth) {
      var k :| n <= k < |a| && a[k].Ran? && !a[k].idle && a[k].depth == depth;
      assert b[k] == a[k];
    }
    if Handled(a, n, bh) { var k :| n <= k < |a| && a[k].bh == bh && !a[k].Scheduled?; assert b[k] == a[k]; }
  }

  lemma RunOneMore(log: seq<Event>, n: nat, e: Event, bh: nat)
    requires n <= |log| && e.Ran?
    ensures RanAt(log + [e], n, e.depth) <==> RanAt(log, n, e.depth) || !e.idle
    ensures Handled(log, n, bh) || e.bh == bh ==> Handled(log + [e], n, bh)
  {
    var l := log + [e];
    assert l[|log|] == e && forall k :: 0 <= k < |log| ==> l[k] == log[k];
    if RanAt(log, n, e.depth) {
      var k :| n <= k < |log| && log[k].Ran? && !log[k].idle && log[k].depth == e.depth;
      assert l[k] == log[k];
    }
    if Handled(log, n, bh) { var k :| n <= k < |log| && log[k].bh == bh && !log[k].Scheduled?; assert l[k] == log[k]; }
  }

  lemma GrownTwice(a: seq<Event>, b: seq<Event>, c: seq<Event>, depth: nat)
    requires Grown(a, b, depth) && Grown(b, c, depth)
    ensures Grown(a, c, depth)
  {
    assert forall k :: |a| <= k < |b| ==> c[k] == b[k];
  }

  class Context {
    var heap: map<nat, Node>
    var first: int
    var nesting: nat
    var serial: nat
    ghost var list: seq<nat>
    ghost var log: seq<Event>
    ghost var status: Status

    ghost predicate Valid()
      reads this
    {
      && Linked(heap, first, list) && Recorded(heap, status)
      && AllDue(log) && status == After(log)
      && (forall x :: x in heap || x in status.pending || x in status.deleted ==> x < serial)
    }

    constructor ()
      ensures Valid() && list == [] && log == [] && nesting == 0
    {
      heap, first, nesting, serial, list, log, status := map[], -1, 0, 0, [], [], Status({}, {});
    }

    /** qemu_bh_new */
    method Create() returns (bh: nat)
      requires Valid()
      modifies this`heap, this`first, this`serial, this`list
      ensures Valid() && bh !in old(heap) && list == [bh] + old(list)
      ensures heap == old(heap)[bh := Node(false, false, false, old(first))]
    {
      bh := serial;
      serial := serial + 1;
      heap := heap[bh := Node(false, false, false, first)];
      first := bh;
      PushKeepsLinked(old(heap), old(first), list, bh, heap[bh]);
      list := [bh] + list;
    }

    ghost method Note(e: Event)
      requires AllDue(log) && status == After(log) && Due(status, e)
      modifies this`log, this`status
      ensures log == old(log) + [e] && AllDue(log) && status == After(log) == Update(old(status), e)
    {
      AfterOneMore(log, e);
      log := log + [e];
      status := Update(status, e);
    }

    /** qemu_bh_schedule_idle and, with `idle` false, qemu_bh_schedule: nothing happens if the bottom
        half is scheduled already, one way or the other. */
    method Schedule(bh: nat, idle: bool)
      requires Valid() && bh in heap
      modifies this`heap, this`log, this`status
      ensures Valid()
      ensures if old(heap[bh].scheduled) then heap == old(heap) && log == old(log)
        else heap == old(heap[bh := heap[bh].(scheduled := true, idle := idle)]) && log == old(log) + [Scheduled(bh)]
    {
      if heap[bh].scheduled { return; }
      FlagsKeepLinked(heap, first, list, bh, heap[bh].(scheduled := true, idle := idle));
      heap := heap[bh := heap[bh].(scheduled := true, idle := idle)];
      Note(Scheduled(bh));
    }

    /** qemu_bh_cancel */
    method Cancel(bh: nat)
      requires Valid() && bh in heap
      modifies this`heap, this`log, this`status
      ensures Valid() && heap == old(heap[bh := heap[bh].(scheduled := false)])
      ensures log == old(log) + (if old(heap[bh].scheduled) then [Cancelled(bh)] else [])
    {
      ghost var was := heap[bh].scheduled;
      FlagsKeepLinked(heap, first, list, bh, heap[bh].(scheduled := false));
      heap := heap[bh := heap[bh].(scheduled := false)];
      if was { Note(Cancelled(bh)); }
    }

    /** qemu_bh_delete */
    method Delete(bh: nat)
      requires Valid() && bh in heap
      modifies this`heap, this`log, this`status
      ensures Valid() && heap == old(heap[bh := heap[bh].(scheduled := false, deleted := true)])
      ensures log == old(log) + [Deleted(bh)]
    {
      FlagsKeepLinked(heap, first, list, bh, heap[bh].(scheduled := false, deleted := true));
      heap := heap[bh := heap[bh].(scheduled := false, deleted := true)];
      Note(Deleted(bh));
    }

    /** The loop that takes out and frees deleted nodes. */
    method Sweep()
      requires Valid()
      modifies this`heap, this`first, this`list
      ensures Valid() && list == Survivors(status.deleted, old(list))
    {
      var prev, bh := -1, first;
      ghost var done, kept, rest := [], [], list;
      while bh >= 0
        invariant Valid() && old(list) == done + rest && kept == Survivors(status.deleted, done) && list == kept + rest
        invariant bh == At(rest, 0) && prev == Final(kept)
        decreases |rest|
      {
        ghost var b, tail := rest[0], rest[1..];
        Split(done, rest);
        Split(kept, rest);
        SurvivorsStep(status.deleted, done, b);
        prev, bh, kept := SweepOne(prev, bh, kept, tail);
        done, rest := done + [b], tail;
      }
      assert done + rest == done && kept + rest == kept;
    }

    /** One turn of that loop, at node `bh`. */
    method SweepOne(prev: int, bh: nat, ghost kept: seq<nat>, ghost tail: seq<nat>)
      returns (prev': int, next: int, ghost kept': seq<nat>)
      requires Valid() && list == kept + [bh] + tail && prev == Final(kept)
      modifies this`heap, this`first, this`list
      ensures Valid() && kept' == kept + (if bh in status.deleted then [] else [bh]) && list == kept' + tail
      ensures prev' == Final(kept') && next == At(tail, 0)
    {
      Around(heap, first, kept, bh, tail);
      next := heap[bh].next;
      if heap[bh].deleted {
        Free(prev, bh, next, kept, tail);
        prev', kept' := prev, kept + [];
        assert kept + [] == kept;
      } else {
        prev', kept' := bh, kept + [bh];
      }
    }

    /** Takes `bh` out of the list and frees it; `prev` is the node before it, if there is one. */
    method Free(prev: int, bh: nat, next: int, ghost kept: seq<nat>, ghost tail: seq<nat>)
      requires Valid() && list == kept + [bh] + tail && prev == Final(kept) && next == At(tail, 0)
      modifies this`heap, this`first, this`list
      ensures Valid() && list == kept + tail
    {
      UnlinkKeepsLinked(heap, first, kept, bh, tail);
      if prev < 0 { first := next; } else { heap := heap[prev := heap[prev].(next := next)]; }
      heap := heap - {bh};
      list := kept + tail;
    }

    /** One action of a callback.  Handles that are not allocated are left alone. */
    method Perform(a: Action)
      requires Valid() && nesting > 0
      modifies this
      ensures Valid() && nesting == old(nesting) && Extends(old(list), list) && Grown(old(log), log, nesting)
      decreases ActionSize(a), 0
    {
      if a.Poll? { var _ := PollAll(a.bodies); } else { Call(a); }
    }

    /** What an action leaves behind when `l`, `g` and `n` were the list, the log and the nesting. */
    ghost predicate Acted(l: seq<nat>, g: seq<Event>, n: nat)
      reads this
    {
      Valid() && nesting == n && Extends(l, list) && Grown(g, log, n)
    }

    method CallNew()
      requires Valid()
      modifies this
      ensures Acted(old(list), old(log), old(nesting))
    {
      var _ := Create();
    }

    method CallSchedule(bh: nat, idle: bool)
      requires Valid()
      modifies this
      ensures Acted(old(list), old(log), old(nesting))
    {
      if bh in heap { Schedule(bh, idle); }
    }

    method CallCancel(bh: nat)
      requires Valid()
      modifies this
      ensures Acted(old(list), old(log), old(nesting))
    {
      if bh in heap { Cancel(bh); }
    }

    method CallDelete(bh: nat)
      requires Valid()
      modifies this
      ensures Acted(old(list), old(log), old(nesting))
    {
      if bh in heap { Delete(bh); }
    }

    method Call(a: Action)
      requires Valid() && nesting > 0 && !a.Poll?
      modifies this
      ensures Acted(old(list), old(log), old(nesting))
    {
      match a
      case New => CallNew();
      case Schedule(bh) => CallSchedule(bh, false);
      case ScheduleIdle(bh) => CallSchedule(bh, true);
      case Cancel(bh) => CallCancel(bh);
      case Delete(bh) => CallDelete(bh);
    }

    method Callback(script: Script)
      requires Valid() && nesting > 0
      modifies this
      ensures Valid() && nesting == old(nesting) && Extends(old(list), list) && Grown(old(log), log, nesting)
      decreases ScriptSize(script), 0
    {
      if script.Then? {
        Perform(script.action);
        ghost var l, g := list, log;
        Callback(script.rest);
        ExtendsTwice(old(list), l, list);
        GrownTwice(old(log), g, log, nesting);
      }
    }

    /** The schedule of `bh` is taken up, and the callback runs. */
    method Fire(bh: nat, bodies: Bodies) returns (busy: bool, others: Bodies)
      requires Valid() && nesting > 0 && bh in heap && heap[bh].scheduled && !heap[bh].deleted
      modifies this
      ensures Valid() && nesting == old(nesting) && Extends(old(list), list)
      ensures busy == !old(heap[bh].idle) && Grown(old(log) + [Ran(bh, !busy, nesting)], log, nesting)
      ensures BodiesSize(others) <= BodiesSize(bodies)
      decreases BodiesSize(bodies), 0
    {
      busy := !heap[bh].idle;
      FlagsKeepLinked(heap, first, list, bh, heap[bh].(scheduled := false, idle := false));
      heap := heap[bh := heap[bh].(scheduled := false, idle := false)];
      Note(Ran(bh, !busy, nesting));
      others := bodies;
      if bodies.More? {
        others := bodies.others;
        Callback(bodies.first);
      }
    }

    /** One turn of the walk of a poll, at node `i` of the list `start` that the poll began with;
        `began` is what had happened then, and `ret` the answer so far. */
    method Turn(bh: nat, bodies: Bodies, ret: bool, ghost start: seq<nat>, ghost i: nat, ghost began: seq<Event>)
      returns (ret': bool, next: int, others: Bodies)
      requires Valid() && nesting > 0 && i < |start| && bh == start[i]
      requires Walked(start, list, began, log, nesting, i, ret)
      modifies this
      ensures Valid() && nesting == old(nesting) && next == At(start, i + 1)
      ensures Walked(start, list, began, log, nesting, i + 1, ret')
      ensures BodiesSize(others) <= BodiesSize(bodies)
      decreases BodiesSize(bodies), 1
    {
      OnList(heap, first, list, start, i);
      next, ret', others := heap[bh].next, ret, bodies;
      if !heap[bh].deleted && heap[bh].scheduled {
        ghost var l, g := list, log;
        var busy;
        busy, others := Fire(bh, bodies);
        ret' := ret || busy;
        ExtendsTwice(start, l, list);
        FiredNote(began, g, log, |began|, Ran(bh, !busy, nesting), nesting - 1);
      } else {
        DealtWith(log, |began|, bh);
        assert log[..|began|] == began;
      }
      SeenOneMore(began, old(log), log, start, i);
    }

    /** The walk of a poll. */
    method Walk(bodies: Bodies) returns (ret: bool)
      requires Valid() && nesting > 0
      modifies this
      ensures Valid() && nesting == old(nesting) && Walked(old(list), list, old(log), log, nesting, |old(list)|, ret)
      decreases BodiesSize(bodies), 2
    {
      ghost var start, began, i := list, log, 0;
      WalkBegins(list, log, nesting);
      ret := false;
      var bh, rest := first, bodies;
      while bh >= 0
        invariant Valid() && nesting == old(nesting) && Walked(start, list, began, log, nesting, i, ret)
        invariant 0 <= i <= |start| && bh == At(start, i) && BodiesSize(rest) <= BodiesSize(bodies)
        decreases |start| - i
      {
        ret, bh, rest := Turn(bh, rest, ret, start, i, began);
        i := i + 1;
      }
    }

    /** qemu_bh_poll.  It never follows a link of a freed node; every run takes up a pending schedule of
        a bottom half that is not deleted; everything due when it begins has been dealt with when it
        ends; it answers whether it has run something that was not idle.  When an outermost poll
        returns, the list is what it was, with the new nodes at its head, less the deleted ones. */
    method PollAll(bodies: Bodies) returns (ret: bool)
      requires Valid()
      modifies this
      ensures Valid() && nesting == old(nesting) && Grown(old(log), log, nesting)
      ensures ret <==> RanAt(log, |old(log)|, nesting + 1)
      ensures AllSeen(old(log), log, old(list), |old(list)|)
      ensures nesting > 0 ==> Extends(old(list), list)
      ensures nesting == 0 ==> exists l :: Extends(old(list), l) && list == Survivors(status.deleted, l)
      decreases BodiesSize(bodies), 3
    {
      nesting := nesting + 1;
      ret := Walk(bodies);
      nesting := nesting - 1;
      ghost var l := list;
      if nesting == 0 {
        Sweep();
        assert Extends(old(list), l) && list == Survivors(status.deleted, l);
      }
    }

    /** qemu_bh_update_timeout: no waiting while something is scheduled, at most 10 ms while something
        is scheduled idle. */
    method UpdateTimeout(timeout: int) returns (t: int)
      requires Valid()
      ensures t == if exists x :: x in heap && Waiting(heap[x]) && !heap[x].idle then 0
                   else if exists x :: x in heap && Waiting(heap[x]) && timeout > 10 then 10 else timeout
    {
      t := timeout;
      var bh := first;
      ghost var i, some := 0, false;
      while bh >= 0
        invariant 0 <= i <= |list| && bh == At(list, i)
        invariant forall j :: 0 <= j < i && Waiting(heap[list[j]]) ==> some && heap[list[j]].idle
        invariant some ==> exists x :: x in heap && Waiting(heap[x])
        invariant t == if some && timeout > 10 then 10 else timeout
        decreases |list| - i
      {
        OnList(heap, first, list, list, i);
        if Waiting(heap[bh]) {
          if heap[bh].idle { t := if t > 10 then 10 else t; } else { return 0; }
          some := true;
        }
        bh := heap[bh].next;
        i := i + 1;
      }
      assert forall x :: x in heap ==> x in list;
    }
  }

  /** What was pending, and not deleted, before has been run, cancelled or deleted since. */
  ghost predicate SeenTo(before: seq<Event>, now: seq<Event>, bh: nat)
  {
    bh in After(before).pending && bh !in After(before).deleted ==> Handled(now, |before|, bh)
  }

  /** That is so of the first `n` nodes of `list`. */
  ghost predicate AllSeen(before: seq<Event>, now: seq<Event>, list: seq<nat>, n: nat)
  {
    forall j :: 0 <= j < n && j < |list| ==> SeenTo(before, now, list[j])
  }

  /** A walk at a depth, begun with list `start` and log `began`, has passed `i` nodes. */
  ghost predicate Walked(start: seq<nat>, list: seq<nat>, began: seq<Event>, log: seq<Event>, depth: nat, i: nat,
                         ret: bool)
    requires depth > 0
  {
    && Extends(start, list) && Grown(began, log, depth - 1) && AllSeen(began, log, start, i)
    && (ret <==> RanAt(log, |began|, depth))
  }

  lemma WalkBegins(list: seq<nat>, log: seq<Event>, depth: nat)
    requires depth > 0
    ensures Walked(list, list, log, log, depth, 0, false)
  {
  }

  lemma SeenOneMore(before: seq<Event>, mid: seq<Event>, now: seq<Event>, list: seq<nat>, i: nat)
    requires i < |list| && AllSeen(before, mid, list, i) && SeenTo(before, now, list[i])
    requires forall b :: Handled(mid, |before|, b) ==> Handled(now, |before|, b)
    ensures AllSeen(before, now, list, i + 1)
  {
    forall j | 0 <= j < i + 1 && j < |list| ensures SeenTo(before, now, list[j]) {
      if j < i { assert SeenTo(before, mid, list[j]); }
    }
  }

  /** What a run and the callback after it add to the log. */
  lemma FiredNote(first: seq<Event>, before: seq<Event>, after: seq<Event>, n: nat, e: Event, depth: nat)
    requires n == |first| && Grown(first, before, depth) && e.Ran? && e.depth == depth + 1
    requires Grown(before + [e], after, e.depth)
    ensures Grown(first, after, depth)
    ensures RanAt(after, n, e.depth) <==> RanAt(before, n, e.depth) || !e.idle
    ensures forall bh :: Handled(before, n, bh) || e.bh == bh ==> Handled(after, n, bh)
  {
    var mid := before + [e];
    assert Grown(before, mid, depth);
    GrownTwice(first, before, mid, depth);
    assert Grown(mid, after, depth);
    GrownTwice(first, mid, after, depth);
    RunOneMore(before, n, e, e.bh);
    DeeperRuns(mid, after, n, e.depth, e.bh);
    forall bh | Handled(before, n, bh) || e.bh == bh ensures Handled(after, n, bh) {
      RunOneMore(before, n, e, bh);
      DeeperRuns(mid, after, n, e.depth, bh);
    }
  }

  /** A node of the list that the walk began with is still linked to the next one of that list. */
  lemma OnList(heap: map<nat, Node>, first: int, list: seq<nat>, start: seq<nat>, i: nat)
    requires Linked(heap, first, list) && Extends(start, list) && i < |start|
    ensures start[i] in heap && heap[start[i]].next == At(start, i + 1)
  {
    var k := |list| - |start| + i;
    assert list[|list| - |start|..][i] == list[k];
    assert LinkAt(heap, list, k);
    assert i + 1 < |start| ==> list[|list| - |start|..][i + 1] == list[k + 1];
  }

  function Final(list: seq<nat>): int
  {
    if list == [] then -1 else list[|list| - 1]
  }

  lemma Split(a: seq<nat>, b: seq<nat>)
    requires b != []
    ensures a + b == a + [b[0]] + b[1..]
  {
  }

  /** The survivors are the nodes that are not deleted, each as often as before. */
  lemma {:induction false} SurvivorsAre(deleted: set<nat>, list: seq<nat>, x: nat)
    ensures multiset(Survivors(deleted, list))[x] == if x in deleted then 0 else multiset(list)[x]
    decreases |list|
  {
    if list == [] {
    } else {
      var n := |list| - 1;
      SurvivorsAre(deleted, list[..n], x);
      assert list == list[..n] + [list[n]];
    }
  }

  lemma SurvivorsStep(deleted: set<nat>, list: seq<nat>, b: nat)
    ensures Survivors(deleted, list + [b]) == Survivors(deleted, list) + (if b in deleted then [] else [b])
  {
    assert (list + [b])[..|list|] == list;
  }

  /** The node in the middle of a list is allocated, and linked to what follows. */
  lemma Around(heap: map<nat, Node>, first: int, kept: seq<nat>, b: nat, tail: seq<nat>)
    requires Linked(heap, first, kept + [b] + tail)
    ensures b in heap && heap[b].next == At(tail, 0)
  {
    var list := kept + [b] + tail;
    assert list[|kept|] == b && LinkAt(heap, list, |kept|);
  }

  lemma PushLinkAt(heap: map<nat, Node>, list: seq<nat>, b: nat, n: Node, i: nat)
    requires 0 < i <= |list| && list[i - 1] in heap && LinkAt(heap, list, i - 1) && list[i - 1] != b
    ensures var h, l := heap[b := n], [b] + list; l[i] in h && LinkAt(h, l, i)
  {
    assert ([b] + list)[i] == list[i - 1];
    assert At([b] + list, i + 1) == At(list, i);
  }

  lemma PushKeepsLinked(heap: map<nat, Node>, first: int, list: seq<nat>, b: nat, n: Node)
    requires Linked(heap, first, list) && b !in heap && n.next == first
    ensures Linked(heap[b := n], b, [b] + list)
  {
    var h, l := heap[b := n], [b] + list;
    forall i | 0 <= i < |l| ensures l[i] in h && LinkAt(h, l, i) {
      if i > 0 {
        assert list[i - 1] in heap && LinkAt(heap, list, i - 1);
        PushLinkAt(heap, list, b, n, i);
      } else {
        assert At(l, 1) == At(list, 0);
      }
    }
    forall x | x in h ensures x in l { assert x != b ==> x in list; }
  }

  /** Flags are not links. */
  lemma FlagsKeepLinked(heap: map<nat, Node>, first: int, list: seq<nat>, b: nat, n: Node)
    requires Linked(heap, first, list) && b in heap && n.next == heap[b].next
    ensures Linked(heap[b := n], first, list)
  {
    var h := heap[b := n];
    forall i | 0 <= i < |list| ensures list[i] in h && LinkAt(h, list, i) { assert LinkAt(heap, list, i); }
  }
}
