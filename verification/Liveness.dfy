/** That calls can finish: from every reachable state the threads and a network that delivers can bring
    the call to its end, and no step undoes the progress made. */
module Liveness {
  import opened NetCommon
  import opened Partition
  import opened Transport
  import opened TransportShape
  import opened TransportMemory
  import opened SharedMemory
  import opened EndToEnd
  import TR = TransportRuns
  import TB = TransportBarrier
  import P = Pipeline
  import PP = PipelineProgress

  // ----- one worker -----

  function Total(s: Flow): nat {
    FirstIdx(s.posted, |s.posted|)
  }

  /** Packets to generate, to acknowledge and to release. */
  function Work(s: Flow): int {
    (Total(s) - |s.log|) + (Total(s) - TR.Trues(s.acked)) + (Total(s) - s.base)
  }

  lemma WorkAtLeast(s: Flow)
    requires Inv(s)
    ensures Work(s) >= 0 && |s.log| <= Total(s)
  {
    hide PktCount, FirstIdx, TR.Trues;
    TB.QueuedEnd(s);
    TR.TruesBound(s.acked);
  }

  /** The successor of a state by a step of the worker's own. */
  ghost function After(s: Flow, e: TR.Event): Flow
    requires Sane(s) && Own(e)
  {
    match e
    case Arrived(p, u) => Rx(s, p)
    case Shifted => ShiftAck(s)
    case Sending(cwnd) => ShiftSend(s, cwnd)
    case TimedOut => FullRetrans(s)
  }

  /** The worker's first burst on an empty window generates something if and only if the limit, half the
      aggregators of the previous sub-operation, is positive: one aggregator per worker would not do. */
  lemma GeneratesIff(s: Flow, cwnd: nat)
    requires Inv(s) && s.base == |s.log| && s.popped < |s.posted| && cwnd >= CC_CWND_MIN
    ensures |ShiftSend(s, cwnd).log| > |s.log| <==> s.limit > 0
  {
    hide PktCount, Burst, FirstIdx;
    TB.QueuedEnd(s);
    FirstIdxMono(s.posted, s.popped + 1, |s.posted|);
    TB.BurstFills(s, Room(s, cwnd));
    StillQueued(s);
  }

  lemma StillQueued(s: Flow)
    requires Inv(s) && s.popped < |s.posted|
    ensures |s.log| < Total(s)
  {
    hide PktCount;
    FirstIdxMono(s.posted, s.popped + 1, |s.posted|);
  }

  /** No step of the worker increases its work. */
  lemma WorkNeverRises(s: Flow, e: TR.Event, t: Flow, R: Results)
    requires InvM(s, R) && TR.Next(s, e, t, R) && Own(e)
    ensures Work(t) <= Work(s)
  {
    hide OneGroup, GroupNow, JobsOk, MemoryRight, PacketsRight, PktCount, MakePacket, Serials, TR.Trues, Received, FirstIdx;
    match e
    case Arrived(p, u) =>
      if TR.Fresh(s, p) { TR.TruesUpdate(s.acked, Find(s, p.groupId, p.psn).value); }
    case Shifted => ShiftAckFrame(s);
    case Sending(cwnd) => BurstWork(s, cwnd);
    case TimedOut =>
  }

  lemma BurstWork(s: Flow, cwnd: nat)
    requires Inv(s)
    ensures var t := ShiftSend(s, cwnd);
      t.posted == s.posted && t.base == s.base && |s.log| <= |t.log| && TR.Trues(t.acked) == TR.Trues(s.acked)
  {
    hide PktCount, FirstIdx, TR.Trues, Burst;
    ShiftSendKeeps(s, cwnd);
    TR.BurstPending(s, Win(s) == 0, Room(s, cwnd));
  }

  /** Whenever something is unanswered, some step reduces the work: the release of an acknowledged
      packet, a burst, or the answer to the packet at the left edge, which every timeout sends again. */
  lemma NextUseful(s: Flow, R: Results) returns (e: TR.Event)
    requires InvM(s, R) && s.done < |s.posted| && s.limit > 0
    ensures Own(e) && Sane(s) && TR.Next(s, e, After(s, e), R)
    ensures Work(After(s, e)) < Work(s)
    ensures e.Arrived? ==> s.base < |s.log| && Sent(s.base, s.log[s.base].pkt) in FullRetrans(s).wire
  {
    hide JobsOk, MemoryRight, PacketsRight, PktCount, FirstIdx, OneGroup, GroupNow, TR.Trues, MakePacket, Serials;
    if s.base < |s.log| && s.acked[s.base] {
      e := TR.Shifted;
      ShiftAckFrame(s);
    } else if s.base < |s.log| {
      e := EdgeAnswer(s, R);
    } else {
      if s.popped == |s.posted| { TR.DrainedIsDone(s); }
      e := TR.Sending(CC_CWND_MIN);
      GeneratesIff(s, CC_CWND_MIN);
      BurstWork(s, CC_CWND_MIN);
    }
  }

  /** The answer to the packet at the left edge. */
  lemma EdgeAnswer(s: Flow, R: Results) returns (e: TR.Event)
    requires InvM(s, R) && s.base < |s.log| && !s.acked[s.base]
    ensures Own(e) && Sane(s) && TR.Next(s, e, After(s, e), R) && e.Arrived?
    ensures Work(After(s, e)) < Work(s)
    ensures Sent(s.base, s.log[s.base].pkt) in FullRetrans(s).wire
  {
    hide Shape, OneGroup, GroupNow, JobsOk, MemoryRight, PacketsRight, PktCount, FirstIdx, TR.Trues, MakePacket, Serials, Received, Find, RunStart;
    EdgeFacts(s);
    var u, last := SerialAt(s, s.base), |s.log| - 1;
    Contiguous(s, s.base, last);
    var p := RxPacket(s.group, Psn(u), R(s.group, u));
    e := TR.Arrived(p, u);
    EdgeArrival(s, p, u, R);
    TR.ResendUnackedExact(s, s.base, |s.log|);
  }

  lemma EdgeArrival(s: Flow, p: RxPacket, u: nat, R: Results)
    requires InvM(s, R) && s.base < |s.log| && !s.acked[s.base]
    requires Genuine(s, p, u, R) && p.groupId == s.group && u == SerialAt(s, s.base)
    ensures Work(Rx(s, p)) < Work(s)
  {
    hide Shape, OneGroup, GroupNow, JobsOk, MemoryRight, PacketsRight, PktCount, FirstIdx, TR.Trues, MakePacket, Serials, Received, Find, RunStart;
    EdgeFacts(s);
    FindGenuine(s, u, s.base);
    TR.TruesUpdate(s.acked, s.base);
  }

  lemma EdgeFacts(s: Flow)
    requires Inv(s) && s.base < |s.log|
    ensures Sane(s) && |s.log| - s.base < MAX_WIN_LEN
  {
    hide PktCount, FirstIdx;
  }

  // ----- the limit stays positive -----

  /** Every sub-operation has at least two aggregators. */
  predicate Wide(s: Flow) {
    s.limit > 0 && forall j :: 0 <= j < |s.posted| ==> s.posted[j].sub.aggLen >= 2
  }

  lemma {:induction false} BurstWide(s: Flow, lookedEmpty: bool, n: nat)
    requires Sane(s) && Wide(s)
    ensures Wide(Burst(s, lookedEmpty, n))
    decreases n
  {
    hide PktCount, MakePacket;
    if n != 0 && CanGen(s, lookedEmpty) {
      GenSane(s);
      BurstWide(Gen(s), lookedEmpty, n - 1);
    }
  }

  lemma OwnWide(s: Flow, e: TR.Event, t: Flow, R: Results)
    requires InvM(s, R) && TR.Next(s, e, t, R) && Own(e) && Wide(s)
    ensures Wide(t)
  {
    hide OneGroup, GroupNow, JobsOk, MemoryRight, PacketsRight, PktCount, FirstIdx, MakePacket, Received;
    match e
    case Shifted => ShiftAckFrame(s);
    case Sending(cwnd) => BurstWide(s, Win(s) == 0, Room(s, cwnd));
    case _ =>
  }

  // ----- the whole system -----

  predicate WideSys(s: Sys) {
    && (forall w :: 0 <= w < |s.flows| ==> Wide(s.flows[w]))
    && (Called(s.p) ==> 2 * |s.flows| <= s.p.call.group.aggLen)
  }

  /** A call has been made. */
  predicate Called(p: P.Pipe) {
    p.first < |p.ops| || p.todo != []
  }

  function Works(flows: seq<Flow>): int {
    if flows == [] then 0 else Works(flows[..|flows| - 1]) + Work(flows[|flows| - 1])
  }

  lemma {:induction false} WorksAtLeast(flows: seq<Flow>)
    requires forall w :: 0 <= w < |flows| ==> Work(flows[w]) >= 0
    ensures Works(flows) >= 0
  {
    hide Work;
    if flows != [] { WorksAtLeast(flows[..|flows| - 1]); }
  }

  lemma {:induction false} WorksChange(flows: seq<Flow>, now: seq<Flow>, w: nat)
    requires |now| == |flows| && w < |flows|
    requires forall v :: 0 <= v < |flows| && v != w ==> Work(now[v]) == Work(flows[v])
    ensures Works(now) - Works(flows) == Work(now[w]) - Work(flows[w])
  {
    hide Work;
    var k := |flows| - 1;
    if w < k { WorksChange(flows[..k], now[..k], w); } else { WorksSame(flows[..k], now[..k]); }
  }

  lemma {:induction false} WorksSame(flows: seq<Flow>, now: seq<Flow>)
    requires |now| == |flows| && forall v :: 0 <= v < |flows| ==> Work(now[v]) == Work(flows[v])
    ensures Works(now) == Works(flows)
  {
    hide Work;
    if flows != [] { WorksSame(flows[..|flows| - 1], now[..|flows| - 1]); }
  }

  lemma SeenWork(f: Flow, mem: seq<Byte>)
    ensures Work(f.(mem := mem)) == Work(f)
  {}

  /** Progress of the whole system: what the threads have left to do comes first, then the packets. */
  ghost predicate Falls(s: Sys, t: Sys)
    requires |s.p.work| == |s.p.hand| && |t.p.work| == |t.p.hand|
  {
    PP.Left(t.p) < PP.Left(s.p) || (PP.Left(t.p) == PP.Left(s.p) && Works(t.flows) < Works(s.flows))
  }

  lemma Hands(s: Sys, R: seq<Results>)
    requires SysInv(s, R)
    ensures |s.p.work| == |s.p.hand| == |s.flows| == |R|
    ensures PP.Left(s.p) >= 0 && Works(s.flows) >= 0
  {
    hide P.Inv, Sizes, WorkersGood, Waiting, TensorRight, Work, Works, PP.Left, WorkerGood, Cut;
    SizesOf(s, R);
    SysParts(s, R);
    SizesFacts(s, R);
    PP.LeftAtLeast(s.p);
    forall w | 0 <= w < |s.flows| ensures Work(s.flows[w]) >= 0 {
      OneWorker(s, R, w);
      WorkerInvM(s.p, |s.flows|, w, s.mem, s.input, s.flows[w], R[w]);
      WorkAtLeast(s.flows[w]);
    }
    WorksAtLeast(s.flows);
  }

  lemma WorkerInvM(p: P.Pipe, n: nat, w: nat, mem: seq<Byte>, input: seq<Byte>, f: Flow, R: Results)
    requires w < n == |p.work| == |p.hand| && p.forked <= |p.ops| && SegsFit(Cut(p.call.size, 0), |input|)
    requires WorkerGood(p, n, w, mem, input, f, R)
    ensures InvM(f, R) && Inv(f) && f.done <= |f.posted| == p.forked
    ensures |p.hand[w]| + |p.work[w].wq| == |f.posted| - f.done
  {
    hide Shape, OneGroup, GroupNow, JobsOk, MemoryRight, PacketsRight, Kept, Fed, Cut, Share;
  }

  /** What a step of the pipeline leaves of the call. */
  lemma StepCall(p: P.Pipe, e: P.Event)
    requires P.Enabled(p, e) && P.Asserts(p, e) && !e.Begin? && p.first <= |p.ops|
    ensures var q := P.Step(p, e); q.call == p.call && (Called(p) <==> Called(q))
  {
    hide P.CB.Step, P.CB.Place, P.CB.Freed, Cut;
  }

  lemma PostsWide(flows: seq<Flow>, op: Op, w: nat)
    requires w < |flows| && Wide(flows[w]) && 2 * |flows| <= op.group.aggLen
    requires JobOk(Share(op, |flows|, w), |flows[w].mem|)
    ensures Wide(Post(flows[w], Share(op, |flows|, w)))
  {
    TwoEach(op.group.aggLen, |flows|);
    hide ShareSize, ShareOffset;
  }

  lemma TwoEach(a: nat, n: nat)
    requires n > 0 && 2 * n <= a
    ensures a / n >= 2
  {
    var q := a / n;
    assert a == q * n + a % n;
    TB.TimesMono(q, 1, n);
  }

  /** A thread's step that gets something done. */
  lemma ThreadUseful(s: Sys, R: seq<Results>, pe: P.Event) returns (t: Sys)
    requires SysInv(s, R) && WideSys(s) && Called(s.p)
    requires !pe.Begin? && !pe.Serves? && P.Enabled(s.p, pe) && PP.Progresses(s.p, pe)
    ensures SysNext(s, Thread(pe), t, R) && SysInv(t, R) && WideSys(t) && Called(t.p)
    ensures t.p.call == s.p.call && |t.p.work| == |t.p.hand| && |s.p.work| == |s.p.hand| && PP.Left(t.p) < PP.Left(s.p)
  {
    hide SysInv, P.Inv, InBounds, P.Step, P.Asserts, P.Enabled, PP.Left, PP.Progresses, Share, JobOk, SentMem, BroughtBack, CopyFits, SendsNow, BringsBackNow, Called, Wide, Cut;
    SysPipe(s, R);
    P.AssertsHold(s.p, pe);
    AlwaysInBounds(s, pe, R);
    PP.StepUsesWork(s.p, pe);
    OrderOf(s.p);
    StepCall(s.p, pe);
    t := ThreadStep(s, pe, P.Step(s.p, pe));
    ThreadKeeps(s, pe, t, R);
    ThreadWide(s, R, pe, P.Step(s.p, pe));
  }

  lemma ThreadWide(s: Sys, R: seq<Results>, pe: P.Event, q: P.Pipe)
    requires SysInv(s, R) && WideSys(s) && (Called(s.p) <==> Called(q)) && P.Enabled(s.p, pe)
    requires InBounds(s, pe) && q.call == s.p.call
    ensures WideSys(ThreadStep(s, pe, q))
  {
    hide SysInv, P.Inv, P.Asserts, Share, JobOk, SentMem, BroughtBack, CopyFits, Cut, GoingOut, GoingBack;
    var t := ThreadStep(s, pe, q);
    if pe.Forks? {
      SysPipe(s, R);
      Fronts(s.p);
      OrderOf(s.p);
      CallOf(s.p, s.p.forked);
      forall w | 0 <= w < |t.flows| ensures Wide(t.flows[w]) { PostsWide(s.flows, s.p.d.shm.wq[0], w); }
    } else {
      forall w | 0 <= w < |t.flows| ensures Wide(t.flows[w]) { assert Wide(s.flows[w]); }
    }
  }

  /** A worker's step that gets something done. */
  lemma WorkUseful(s: Sys, R: seq<Results>, w: nat) returns (e: SysEvent, t: Sys)
    requires SysInv(s, R) && WideSys(s) && Called(s.p) && w < |s.flows| == |s.p.work| == |s.p.hand|
    requires |s.p.hand[w]| + |s.p.work[w].wq| > 0
    ensures SysNext(s, e, t, R) && !e.Calls? && SysInv(t, R) && WideSys(t) && Called(t.p)
    ensures t.p.call == s.p.call && |t.p.work| == |t.p.hand| && Falls(s, t)
  {
    hide SysInv, P.Inv, Sizes, WorkersGood, Waiting, TensorRight, P.Asserts, PP.Left, Called, Wide, Work, Works, Cut, WorkerGood, After, TR.Next, InvM, Inv, P.Enabled, P.Step;
    SysParts(s, R);
    SizesFacts(s, R);
    OneWorker(s, R, w);
    var f := s.flows[w];
    WorkerInvM(s.p, |s.flows|, w, s.mem, s.input, f, R[w]);
    LimitOf(f);
    var fe := NextUseful(f, R[w]);
    var g := After(f, fe);
    WorkIsServed(s, w, fe, g, R);
    var takes: nat, answers: nat := g.popped - f.popped, g.done - f.done;
    e := EndToEnd.Works(w, fe, takes, answers);
    var pe := P.Serves(w, takes, answers);
    P.AssertsHold(s.p, pe);
    P.NextKeeps(s.p, pe, P.Step(s.p, pe));
    t := AfterWork(s, P.Step(s.p, pe), w, g);
    assert t.flows[w] == g by { SameMem(g); }
    SysKeeps(s, e, t, R);
    OrderOf(s.p);
    StepCall(s.p, pe);
    Hands(t, R);
    OwnWide(f, fe, g, R[w]);
    WorkFalls(s, R, w, fe, g, takes, answers);
    OthersWide(s, w, g, t);
  }

  lemma SameMem(g: Flow)
    ensures g.(mem := g.mem) == g
  {}

  lemma LimitOf(f: Flow)
    requires Wide(f)
    ensures f.limit > 0
  {}

  lemma OthersWide(s: Sys, w: nat, g: Flow, t: Sys)
    requires WideSys(s) && w < |s.flows| && Wide(g) && t.flows == Seeing(s.flows[w := g], g.mem)
    requires (Called(s.p) <==> Called(t.p)) && t.p.call == s.p.call
    ensures WideSys(t)
  {
    hide Called;
    forall v | 0 <= v < |t.flows| ensures Wide(t.flows[v]) {
      assert v != w ==> Wide(s.flows[v]);
    }
  }

  lemma WorkFalls(s: Sys, R: seq<Results>, w: nat, fe: TR.Event, g: Flow, takes: nat, answers: nat)
    requires SysInv(s, R) && w < |s.flows| && |s.p.work| == |s.p.hand|
    requires P.Enabled(s.p, P.Serves(w, takes, answers)) && P.Asserts(s.p, P.Serves(w, takes, answers))
    requires Work(g) < Work(s.flows[w])
    ensures var t := AfterWork(s, P.Step(s.p, P.Serves(w, takes, answers)), w, g);
      |t.p.work| == |t.p.hand| && Falls(s, t)
  {
    hide SysInv, P.Inv, Work, PP.Left;
    SysPipe(s, R);
    PP.ServeLeft(s.p, w, takes, answers);
    var now := Seeing(s.flows[w := g], g.mem);
    forall v | 0 <= v < |s.flows| ensures Work(now[v]) == if v == w then Work(g) else Work(s.flows[v]) {
      SeenWork(s.flows[w := g][v], g.mem);
    }
    WorksChange(s.flows, now, w);
  }

  /** In every state of a call that has not returned, some thread or the network can do something that
      brings the call nearer to its end. */
  lemma NextUsefulStep(s: Sys, R: seq<Results>) returns (e: SysEvent, t: Sys)
    requires SysInv(s, R) && WideSys(s) && Called(s.p) && !HasReturned(s)
    ensures SysNext(s, e, t, R) && !e.Calls? && SysInv(t, R) && WideSys(t) && Called(t.p) && t.p.call == s.p.call
    ensures |s.p.work| == |s.p.hand| && |t.p.work| == |t.p.hand| && Falls(s, t)
  {
    hide SysInv, P.Inv, WideSys, Called, SysNext, PP.Left, Works;
    Hands(s, R);
    SysPipe(s, R);
    var pe := PP.NeverStuck(s.p);
    if pe.Serves? {
      e, t := WorkUseful(s, R, pe.w);
    } else {
      e := Thread(pe);
      t := ThreadUseful(s, R, pe);
    }
  }

  predicate HasReturned(s: Sys) {
    s.p.todo == [] && s.p.cnt == 0
  }

  ghost predicate Continues(s: Sys, ss: seq<Sys>, es: seq<SysEvent>, R: seq<Results>) {
    && |ss| == |es| + 1 && ss[0] == s
    && (forall i :: 0 <= i < |es| ==> SysNext(ss[i], es[i], ss[i + 1], R) && !es[i].Calls?)
  }

  /** From every state of a call there is a continuation that finishes it. */
  lemma {:induction false} CanFinish(s: Sys, R: seq<Results>) returns (ss: seq<Sys>, es: seq<SysEvent>)
    requires SysInv(s, R) && WideSys(s) && Called(s.p) && |s.p.work| == |s.p.hand|
    ensures Continues(s, ss, es, R) && SysInv(ss[|es|], R)
    ensures Finished(ss[|es|]) && ss[|es|].p.call == s.p.call
    decreases PP.Left(s.p), Works(s.flows)
  {
    hide SysInv, WideSys, SysNext, PP.Left, Works;
    Hands(s, R);
    if HasReturned(s) {
      ss, es := [s], [];
    } else {
      var e, t := NextUsefulStep(s, R);
      Hands(t, R);
      var ts, fs := CanFinish(t, R);
      ss, es := [s] + ts, [e] + fs;
      forall i | 0 <= i < |es| ensures SysNext(ss[i], es[i], ss[i + 1], R) && !es[i].Calls? {
        if i > 0 { assert ss[i] == ts[i - 1] && ss[i + 1] == ts[i] && es[i] == fs[i - 1]; }
      }
    }
  }

  // ----- over runs -----

  lemma StepWide(s: Sys, e: SysEvent, t: Sys, R: seq<Results>)
    requires SysInv(s, R) && SysNext(s, e, t, R) && WideSys(s)
    requires e.Calls? ==> 2 * |s.flows| <= e.call.group.aggLen
    ensures WideSys(t)
  {
    hide SysInv, P.Inv, P.Asserts, P.Enabled, InBounds, Wide, TR.Next, InvM, Cut, Share, JobOk;
    SysPipe(s, R);
    OrderOf(s.p);
    match e
    case Copies(out, bytes) =>
      CopiesOnly(s, out, bytes, t, R);
      CopiesWide(s, t);
    case Calls(call, tensor) =>
      P.AssertsHold(s.p, P.Begin(call));
    case Thread(pe) =>
      P.AssertsHold(s.p, pe);
      AlwaysInBounds(s, pe, R);
      StepCall(s.p, pe);
      hide P.Step, WideSys, ThreadStep, Called;
      ThreadWide(s, R, pe, t.p);
    case Works(w, fe, takes, answers) =>
      var pe := P.Serves(w, takes, answers);
      P.AssertsHold(s.p, pe);
      StepCall(s.p, pe);
      WorkerOfSys(s, R, w);
      hide P.Step;
      OwnWide(s.flows[w], fe, t.flows[w], R[w]);
      OthersWide(s, w, t.flows[w], t);
  }

  lemma CopiesWide(s: Sys, t: Sys)
    requires WideSys(s) && t.p == s.p && |t.flows| == |s.flows|
    requires forall w :: 0 <= w < |s.flows| ==> t.flows[w] == s.flows[w].(mem := t.flows[w].mem)
    ensures WideSys(t)
  {
    forall w | 0 <= w < |t.flows| ensures Wide(t.flows[w]) { assert Wide(s.flows[w]); }
  }

  lemma WorkerOfSys(s: Sys, R: seq<Results>, w: nat)
    requires SysInv(s, R) && w < |s.flows|
    ensures |R| == |s.flows| && InvM(s.flows[w], R[w])
  {
    hide P.Inv, InvM, Waiting, TensorRight, Kept, Fed, Linked, Cut;
    OneWorker(s, R, w);
  }

  /** When every group has two aggregators per worker or more, so has every sub-operation on the run. */
  lemma {:induction false} AlwaysWide(n: nat, ss: seq<Sys>, es: seq<SysEvent>, R: seq<Results>, i: nat)
    requires SysRun(n, ss, es, R) && i < |ss|
    requires forall k :: 0 <= k < |es| && es[k].Calls? ==> 2 * n <= es[k].call.group.aggLen
    ensures WideSys(ss[i]) && |ss[i].flows| == n
  {
    hide SysNext, SysInv, WideSys;
    WorkerCount(n, ss, es, R, i);
    if i == 0 {
      var mem: seq<Byte> :| |mem| == P.CB.CAPACITY + 1 && ss[0] == EndToEnd.Start(n, mem);
      StartWide(n, mem);
    } else {
      AlwaysWide(n, ss, es, R, i - 1);
      AlwaysSysInv(n, ss, es, R, i - 1);
      assert SysNext(ss[i - 1], es[i - 1], ss[i], R);
      StepWide(ss[i - 1], es[i - 1], ss[i], R);
    }
  }

  lemma StartWide(n: nat, mem: seq<Byte>)
    requires n > 0
    ensures WideSys(EndToEnd.Start(n, mem))
  {}

  /** No step within a call undoes progress. */
  lemma NeverBack(s: Sys, e: SysEvent, t: Sys, R: seq<Results>)
    requires SysInv(s, R) && SysNext(s, e, t, R) && !e.Calls?
    ensures |s.p.work| == |s.p.hand| && |t.p.work| == |t.p.hand| && !Falls(t, s)
  {
    hide SysInv, P.Inv, P.Asserts, P.Enabled, InBounds, PP.Left, PP.Progresses, Work, TR.Next, InvM, Cut, Share, JobOk, SentMem, BroughtBack, CopyFits, SendsNow, BringsBackNow;
    Hands(s, R);
    SysPipe(s, R);
    match e
    case Copies(out, bytes) =>
      CopiesOnly(s, out, bytes, t, R);
      forall w | 0 <= w < |s.flows| ensures Work(t.flows[w]) == Work(s.flows[w]) { SeenWork(s.flows[w], t.flows[w].mem); }
      WorksSame(s.flows, t.flows);
    case Thread(pe) =>
      P.AssertsHold(s.p, pe);
      AlwaysInBounds(s, pe, R);
      PP.StepUsesWork(s.p, pe);
      if pe.Forks? {
        ForksProgress(s.p);
      } else {
        forall w | 0 <= w < |s.flows| ensures Work(t.flows[w]) == Work(s.flows[w]) {
          SeenWork(s.flows[w], t.flows[w].mem);
        }
        WorksSame(s.flows, t.flows);
      }
    case Works(w, fe, takes, answers) =>
      var pe := P.Serves(w, takes, answers);
      P.AssertsHold(s.p, pe);
      PP.ServeLeft(s.p, w, takes, answers);
      WorkerOfSys(s, R, w);
      WorkNeverRises(s.flows[w], fe, t.flows[w], R[w]);
      forall v | 0 <= v < |s.flows| && v != w ensures Work(t.flows[v]) == Work(s.flows[v]) { SeenWork(s.flows[v], t.mem); }
      WorksChange(s.flows, t.flows, w);
  }

  lemma ForksProgress(p: P.Pipe)
    ensures PP.Progresses(p, P.Forks)
  {}

  /** In every reachable state of a receiving call there is a continuation after which the call has
      returned and every byte of its tensor has been delivered. */
  lemma EveryCallCanDeliver(n: nat, ss: seq<Sys>, es: seq<SysEvent>, R: seq<Results>, i: nat) returns (ts: seq<Sys>, fs: seq<SysEvent>)
    requires SysRun(n, ss, es, R) && i < |ss| && Called(ss[i].p) && CallReceives(ss[i].p.call)
    requires forall k :: 0 <= k < |es| && es[k].Calls? ==> 2 * n <= es[k].call.group.aggLen
    ensures Continues(ss[i], ts, fs, R)
    ensures var t := ts[|fs|];
      && Finished(t) && t.p.call == ss[i].p.call && t.flows != [] && |R| == |t.flows|
      && (forall b :: 0 <= b < t.p.call.size ==> Delivered(t, R, b))
  {
    hide SysRun, SysInv, WideSys, Called, CallReceives, SysNext, Finished, Delivered, Continues;
    AlwaysSysInv(n, ss, es, R, i);
    AlwaysWide(n, ss, es, R, i);
    SizesOf(ss[i], R);
    ts, fs := CanFinish(ss[i], R);
    assert |ts| == |fs| + 1 by { ContinuesLength(ss[i], ts, fs, R); }
    var t := ts[|fs|];
    SizesOf(t, R);
    assert n > 0 && |R| == n by { RunSizes(n, ss, es, R); }
    forall b | 0 <= b < t.p.call.size ensures Delivered(t, R, b) { ByteDelivered(t, R, b); }
  }

  lemma ContinuesLength(s: Sys, ss: seq<Sys>, es: seq<SysEvent>, R: seq<Results>)
    requires Continues(s, ss, es, R)
    ensures |ss| == |es| + 1
  {}

  lemma RunSizes(n: nat, ss: seq<Sys>, es: seq<SysEvent>, R: seq<Results>)
    requires SysRun(n, ss, es, R)
    ensures n > 0 && |R| == n
  {}
}
