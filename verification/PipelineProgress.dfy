/** A collective call always returns: the threads are never stuck before it has, and every step that
    is not an idle poll uses up some of a finite amount of work. */
module PipelineProgress {
  import opened NetCommon
  import opened QueuePairs
  import opened Partition
  import opened LoadBalancers
  import opened Pipeline
  import D = Daemons
  import CB = CopyBuffers

  // ----- the work that is left -----

  /** Requests that worker w has still to take and to answer, of t operations in all. */
  function WorkerLoad(q: Qp<SubOp>, hand: seq<SubOp>, t: int): int {
    2 * t - 2 * |q.cq| - |hand|
  }

  function Loads(work: WorkQueues, hand: seq<seq<SubOp>>, t: int): int
    requires |work| == |hand|
  {
    if work == [] then 0
    else var k := |work| - 1; Loads(work[..k], hand[..k], t) + WorkerLoad(work[k], hand[k], t)
  }

  function One(b: bool): nat {
    if b then 1 else 0
  }

  function Left(s: Pipe): int
    requires |s.work| == |s.hand|
  {
    var t := |s.ops| + |s.todo|;
    |s.todo|
    + 2 * (t - s.forwarded) - One(Flagged(s.ops, s.forwarded, |s.ops|, s.d.copying))
    + (t - s.forked)
    + Loads(s.work, s.hand, t - s.joined)
    + (t - s.joined)
    + 2 * (t - s.returned) - One(Flagged(s.ops, s.returned, s.joined, s.d.copying))
    + (t - s.freed)
  }

  lemma {:induction false} LoadsAtLeast(work: WorkQueues, hand: seq<seq<SubOp>>, t: int)
    requires |work| == |hand| && forall w :: 0 <= w < |work| ==> WorkerLoad(work[w], hand[w], t) >= 0
    ensures Loads(work, hand, t) >= 0
  {
    if work != [] { LoadsAtLeast(work[..|work| - 1], hand[..|work| - 1], t); }
  }

  lemma {:induction false} LoadsSame(work: WorkQueues, hand: seq<seq<SubOp>>, t: int, work2: WorkQueues, t2: int)
    requires |work| == |hand| == |work2|
    requires forall w :: 0 <= w < |work| ==> WorkerLoad(work[w], hand[w], t) == WorkerLoad(work2[w], hand[w], t2)
    ensures Loads(work, hand, t) == Loads(work2, hand, t2)
  {
    if work != [] { LoadsSame(work[..|work| - 1], hand[..|work| - 1], t, work2[..|work| - 1], t2); }
  }

  lemma {:induction false} LoadsUpdate(work: WorkQueues, hand: seq<seq<SubOp>>, t: int, w: nat, q: Qp<SubOp>, h: seq<SubOp>)
    requires w < |work| == |hand|
    ensures Loads(work[w := q], hand[w := h], t) == Loads(work, hand, t) - WorkerLoad(work[w], hand[w], t) + WorkerLoad(q, h, t)
  {
    var k := |work| - 1;
    if w < k {
      LoadsUpdate(work[..k], hand[..k], t, w, q, h);
      assert work[w := q][..k] == work[..k][w := q] && hand[w := h][..k] == hand[..k][w := h];
    } else {
      assert work[w := q][..k] == work[..k] && hand[w := h][..k] == hand[..k];
    }
  }

  lemma LeftAtLeast(s: Pipe)
    requires Inv(s)
    ensures |s.work| == |s.hand| && Left(s) >= 0
  {
    hide PyInv, ShmInv, SlotsInv, BufInv, CallInv, CopyInv, Loads, WorkInv;
    HasWorkers(s);
    var t := |s.ops| + |s.todo| - s.joined;
    forall w | 0 <= w < |s.work| ensures WorkerLoad(s.work[w], s.hand[w], t) >= 0 { PendingParts(s, w); }
    LoadsAtLeast(s.work, s.hand, t);
  }

  // ----- every step uses some up -----

  /** Does the step get something done? */
  predicate Progresses(s: Pipe, e: Event) {
    match e
    case DaemonPosts(f) => D.PostAction(s.d, f).Starts? || D.PostAction(s.d, f).Forwards?
    case DaemonCompletes(f) => D.CompleteAction(s.d, f).Starts? || D.CompleteAction(s.d, f).Forwards?
    case Serves(_, t, a) => t + a > 0
    case _ => true
  }

  lemma ServeLeft(s: Pipe, w: nat, t: nat, a: nat)
    requires Inv(s) && Enabled(s, Serves(w, t, a)) && |s.work| == |s.hand|
    ensures Left(Served(s, w, t, a)) == Left(s) - t - a
  {
    hide PyInv, ShmInv, SlotsInv, BufInv, CallInv, CopyInv, WorkInv, Loads, OrderInv;
    var r := Served(s, w, t, a);
    LoadsUpdate(s.work, s.hand, |s.ops| + |s.todo| - s.joined, w, r.work[w], r.hand[w]);
  }

  lemma DaemonPostsLeft(s: Pipe, f: bool)
    requires Inv(s) && Enabled(s, DaemonPosts(f)) && |s.work| == |s.hand|
    ensures Left(Posted(s, f)) <= Left(s) - One(Progresses(s, DaemonPosts(f)))
    ensures Left(Posted(s, f)) < Left(s) ==> Progresses(s, DaemonPosts(f))
  {
    hide ShmInv, BufInv, CallInv, CopyInv, SlotsInv, WorkInv, Loads, NeedTx;
    FrontsApart(s);
    PostFlags(s);
    assert s.forwarded < |s.ops| && s.d.py.wq[0] == s.ops[s.forwarded];
  }

  lemma PostFlags(s: Pipe)
    requires Inv(s) && s.forwarded < |s.ops|
    ensures s.ops[s.forwarded].slot in s.d.copying ==> NeedTx(s.ops[s.forwarded])
    ensures s.forwarded + 1 < |s.ops| ==> s.ops[s.forwarded + 1].slot !in s.d.copying
  {
    hide ShmInv, PyInv, BufInv, CallInv, WorkInv, Outs, Backs, TxOnly, RxOnly, SlotsInv;
    FrontsApart(s);
  }

  lemma CompleteFlags(s: Pipe)
    requires Inv(s) && s.returned < s.joined
    ensures s.ops[s.returned].slot in s.d.copying ==> NeedRx(s.ops[s.returned])
    ensures s.returned + 1 < s.joined ==> s.ops[s.returned + 1].slot !in s.d.copying
  {
    hide ShmInv, PyInv, BufInv, CallInv, WorkInv, Outs, Backs, TxOnly, RxOnly, SlotsInv;
    FrontsApart(s);
  }

  lemma DaemonCompletesLeft(s: Pipe, f: bool)
    requires Inv(s) && Enabled(s, DaemonCompletes(f)) && Asserts(s, DaemonCompletes(f)) && |s.work| == |s.hand|
    ensures Left(Completed(s, f)) <= Left(s) - One(Progresses(s, DaemonCompletes(f)))
    ensures Left(Completed(s, f)) < Left(s) ==> Progresses(s, DaemonCompletes(f))
  {
    hide PyInv, BufInv, CallInv, CopyInv, SlotsInv, WorkInv, Loads, NeedRx;
    FrontsApart(s);
    CompleteFlags(s);
    assert s.returned < s.joined && s.d.shm.cq[0] == s.ops[s.returned];
  }

  lemma JoinLeft(s: Pipe)
    requires Inv(s) && Enabled(s, Joins) && Asserts(s, Joins) && |s.work| == |s.hand|
    ensures Left(JoinStep(s)) == Left(s) - 1
  {
    hide PyInv, BufInv, CallInv, CopyInv, SlotsInv, WorkInv, Loads;
    PendingParts(s, 0);
    var r, t := JoinStep(s), |s.ops| + |s.todo| - s.joined;
    LoadsSame(s.work, s.hand, t, r.work, t - 1);
    if s.returned == s.joined { NotFlagged(s); }
  }

  lemma NotFlagged(s: Pipe)
    requires Inv(s) && s.returned == s.joined < s.forked
    ensures s.ops[s.returned].slot !in s.d.copying
  {
    hide ShmInv, PyInv, BufInv, CallInv, WorkInv, Outs, Backs, TxOnly, RxOnly, SlotsInv;
    if s.forwarded < |s.ops| { LiveSlots(s, s.returned, s.forwarded); }
  }

  lemma LiveSlots(s: Pipe, i: nat, j: nat)
    requires Inv(s) && s.freed <= i < j < |s.ops|
    ensures s.ops[i].slot != s.ops[j].slot
  {
    hide ShmInv, PyInv, BufInv, CallInv, CopyInv, WorkInv, SlotsInv;
    SlotsDiffer(s.ops, s.freed, s.head, s.cnt, i, j);
  }

  lemma ForkLeft(s: Pipe)
    requires Inv(s) && Enabled(s, Forks) && Asserts(s, Forks) && |s.work| == |s.hand|
    ensures Left(ForkStep(s)) == Left(s) - 1
  {
    hide PyInv, BufInv, CallInv, CopyInv, SlotsInv, WorkInv, Loads;
    var r, t := ForkStep(s), |s.ops| + |s.todo| - s.joined;
    LoadsSame(s.work, s.hand, t, r.work, t);
  }

  lemma CreateLeft(s: Pipe)
    requires Inv(s) && Enabled(s, Create) && Asserts(s, Create) && |s.work| == |s.hand|
    ensures Left(Created(s)) == Left(s) - 1
  {
    hide PyInv, ShmInv, BufInv, CallInv, CopyInv, WorkInv, Loads, CB.Step, CB.Place, CB.Available;
    var r := Created(s);
    assert forall k :: 0 <= k < |s.ops| ==> r.ops[k] == s.ops[k];
    if s.forwarded == |s.ops| { NewNotFlagged(s); }
  }

  lemma NewNotFlagged(s: Pipe)
    requires Inv(s) && s.forwarded == |s.ops| && s.cnt < QUEUE_SIZE
    ensures s.head !in s.d.copying
  {
    hide ShmInv, PyInv, BufInv, CallInv, WorkInv, Outs, Backs, TxOnly, RxOnly;
    if s.returned < s.joined { CB.SlotsDistinct(s.freed, s.cnt + 1, s.returned, |s.ops|); }
  }

  /** Within a call, a step either is an idle poll or uses up work. */
  lemma StepUsesWork(s: Pipe, e: Event)
    requires Inv(s) && Enabled(s, e) && !e.Begin? && Asserts(s, e)
    ensures |s.work| == |s.hand| && |Step(s, e).work| == |Step(s, e).hand|
    ensures Left(Step(s, e)) <= Left(s)
    ensures Left(Step(s, e)) < Left(s) <==> Progresses(s, e)
  {
    hide Inv, Loads, Flagged;
    HasWorkers(s);
    match e
    case Create => CreateLeft(s);
    case Destroy =>
    case DaemonPosts(f) => DaemonPostsLeft(s, f);
    case DaemonCompletes(f) => DaemonCompletesLeft(s, f);
    case Forks => ForkLeft(s);
    case Joins => JoinLeft(s);
    case Serves(w, t, a) => ServeLeft(s, w, t, a);
  }

  // ----- never stuck -----

  /** An empty ring has room for a segment wherever its head is. */
  lemma RoomWhenEmpty(buf: CB.State)
    requires CB.Sound(buf) && buf.live == []
    ensures SEGMENT_SIZE <= CB.Available(buf.ends)
  {
    var l :| CB.Represents(buf.ends, l) && CB.Blocks(l) == buf.live;
    CB.EmptyRoom(buf.ends, l);
  }

  /** Before a call has returned, some thread can get something done, provided that copies finish
      and that workers answer what they have taken. */
  lemma NeverStuck(s: Pipe) returns (e: Event)
    requires Inv(s) && (s.todo != [] || s.cnt > 0)
    ensures !e.Begin? && Enabled(s, e) && Progresses(s, e)
    ensures (e.DaemonPosts? || e.DaemonCompletes? ==> e.finished) && (e.Serves? ==> s.joined < s.forked)
  {
    hide CopyInv, CallInv, BufInv, WorkInv, CB.Available;
    HasWorkers(s);
    if s.d.py.cq != [] { e := Destroy; }
    else if s.d.shm.cq != [] { e := DaemonCompletes(true); }
    else if s.joined < s.forked { e := SomeWorker(s); }
    else if s.d.shm.wq != [] { e := Forks; }
    else if s.d.py.wq != [] { e := DaemonPosts(true); }
    else {
      e := Create;
      assert s.freed == |s.ops| && s.cnt == 0;
      EmptyRing(s);
      TodoSize(s);
    }
  }

  lemma EmptyRing(s: Pipe)
    requires Inv(s) && s.freed == |s.ops|
    ensures SEGMENT_SIZE <= CB.Available(s.buf.ends)
  {
    hide CopyInv, CallInv, WorkInv, PyInv, ShmInv, SlotsInv, CB.Sound, CB.Available;
    RoomWhenEmpty(s.buf);
  }

  lemma SomeWorker(s: Pipe) returns (e: Event)
    requires Inv(s) && s.joined < s.forked && |s.work| == |s.hand|
    ensures e.Joins? || e.Serves?
    ensures Enabled(s, e) && Progresses(s, e)
  {
    hide CopyInv, CallInv, WorkInv, PyInv, ShmInv, SlotsInv, BufInv;
    if forall i :: 0 <= i < |s.work| ==> s.work[i].cq != [] {
      e := Joins;
    } else {
      var w :| 0 <= w < |s.work| && s.work[w].cq == [];
      PendingParts(s, w);
      e := Serves(w, |s.work[w].wq|, 1);
    }
  }

  /** A call returns within a known number of steps, not counting idle polls. */
  lemma {:induction false} CallTakesBoundedSteps(n: nat, ss: seq<Pipe>, es: seq<Event>, i: nat, j: nat)
    requires Run(n, ss, es) && i <= j < |ss|
    requires forall k :: i <= k < j ==> !es[k].Begin? && Progresses(ss[k], es[k])
    ensures |ss[i].work| == |ss[i].hand| && |ss[j].work| == |ss[j].hand|
    ensures 0 <= Left(ss[j]) <= Left(ss[i]) - (j - i)
    decreases j - i
  {
    hide Inv, Left, Enabled, Asserts, Step, Progresses;
    AlwaysSafe(n, ss, es, j);
    LeftAtLeast(ss[j]);
    if i < j {
      CallTakesBoundedSteps(n, ss, es, i, j - 1);
      AlwaysSafe(n, ss, es, j - 1);
      assert Next(ss[j - 1], es[j - 1], ss[j]);
      StepUsesWork(ss[j - 1], es[j - 1]);
    }
  }
}
