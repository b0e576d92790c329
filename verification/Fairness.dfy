/** That calls do finish. On every run without end on which every thread gets its turns and a packet that
    is sent again and again is answered, every call returns, whatever else is lost, repeated or reordered. */
module Fairness {
  import opened NetCommon
  import opened Partition
  import opened Transport
  import opened TransportShape
  import opened TransportMemory
  import opened SharedMemory
  import opened EndToEnd
  import opened Liveness
  import TR = TransportRuns
  import P = Pipeline
  import PP = PipelineProgress

  /** ss(i) is the state before event es(i). */
  datatype Endless = Endless(ss: nat -> Sys, es: nat -> SysEvent)

  ghost predicate StepAt(r: Endless, i: nat, R: seq<Results>) {
    SysNext(r.ss(i), r.es(i), r.ss(i + 1), R)
  }

  predicate WideCall(r: Endless, i: nat, n: nat) {
    r.es(i).Calls? ==> 2 * n <= r.es(i).call.group.aggLen
  }

  /** A run of a host with n workers, whose groups have at least two aggregators per worker. */
  ghost predicate Runs(r: Endless, n: nat, R: seq<Results>) {
    && n > 0 && |R| == n
    && (exists mem :: |mem| == P.CB.CAPACITY + 1 && r.ss(0) == EndToEnd.Start(n, mem))
    && (forall i: nat :: StepAt(r, i, R))
    && (forall i: nat :: WideCall(r, i, n))
  }

  // ----- fairness -----

  /** The steps of the threads that are not a worker's, with copies that have finished. */
  predicate IsTurn(pe: P.Event) {
    !pe.Begin? && !pe.Serves? && (pe.DaemonPosts? || pe.DaemonCompletes? ==> pe.finished)
  }

  ghost predicate TakenOrOff(r: Endless, t: nat, i: nat, pe: P.Event) {
    t <= i && (r.es(i) == Thread(pe) || !P.Enabled(r.ss(i).p, pe))
  }

  ghost predicate TurnAfter(r: Endless, t: nat, pe: P.Event) {
    exists i: nat :: TakenOrOff(r, t, i, pe)
  }

  /** A step that stays possible is taken some day. */
  ghost predicate ThreadsFair(r: Endless) {
    forall t: nat, pe :: IsTurn(pe) ==> TurnAfter(r, t, pe)
  }

  /** The oldest packet of the window is not acknowledged. */
  predicate EdgeWaits(s: Sys, w: nat) {
    && w < |s.flows| && |s.flows[w].acked| == |s.flows[w].log|
    && s.flows[w].base < |s.flows[w].log| && !s.flows[w].acked[s.flows[w].base]
  }

  /** The parts of a worker's loop. */
  datatype Part = Releases | Sends | TimesOut

  predicate IsPart(fe: TR.Event, part: Part) {
    match part
    case Releases => fe.Shifted?
    case Sends => fe.Sending? && fe.cwnd >= CC_CWND_MIN
    case TimesOut => fe.TimedOut?
  }

  predicate WorksAt(r: Endless, i: nat, w: nat, part: Part) {
    r.es(i).Works? && r.es(i).w == w && IsPart(r.es(i).step, part)
  }

  predicate HasPart(r: Endless, t: nat, i: nat, w: nat, part: Part) {
    t <= i && (WorksAt(r, i, w, part) || (part.TimesOut? && !EdgeWaits(r.ss(i), w)))
  }

  ghost predicate PartAfter(r: Endless, t: nat, w: nat, part: Part) {
    exists i: nat :: HasPart(r, t, i, w, part)
  }

  /** Every worker goes around its loop for ever, and times out if its oldest packet stays unacknowledged. */
  ghost predicate WorkersFair(r: Endless, n: nat) {
    forall t: nat, w: nat, part :: w < n ==> PartAfter(r, t, w, part)
  }

  /** The wire grows, from f to g, by a transmission of log entry x. */
  predicate Transmits(f: Flow, g: Flow, x: nat) {
    exists y :: |f.wire| <= y < |g.wire| && g.wire[y].idx == x
  }

  ghost predicate TransmitsFrom(r: Endless, t: nat, i: nat, w: nat, x: nat) {
    t <= i && w < |r.ss(i).flows| && w < |r.ss(i + 1).flows| && Transmits(r.ss(i).flows[w], r.ss(i + 1).flows[w], x)
  }

  ghost predicate SentAfter(r: Endless, t: nat, w: nat, x: nat) {
    exists i: nat :: TransmitsFrom(r, t, i, w, x)
  }

  ghost predicate SentForever(r: Endless, w: nat, x: nat) {
    forall t: nat :: SentAfter(r, t, w, x)
  }

  /** At step i the answer to worker w's log entry x arrives. */
  ghost predicate AnsweredFrom(r: Endless, t: nat, i: nat, w: nat, x: nat) {
    && t <= i && r.es(i).Works? && r.es(i).w == w && w < |r.ss(i).flows| && r.es(i).step.Arrived?
    && var f := r.ss(i).flows[w];
    && Sane(f) && x < |f.log|
    && r.es(i).step.pkt.groupId == Gid(f.posted, f.log[x].job) && r.es(i).step.serial == SerialAt(f, x)
  }

  ghost predicate AnsweredAfter(r: Endless, t: nat, w: nat, x: nat) {
    exists i: nat :: AnsweredFrom(r, t, i, w, x)
  }

  /** What is sent for ever is answered for ever. */
  ghost predicate NetworkFair(r: Endless, n: nat) {
    forall w: nat, x: nat, t: nat :: w < n && SentForever(r, w, x) ==> AnsweredAfter(r, t, w, x)
  }

  ghost predicate Fair(r: Endless, n: nat) {
    ThreadsFair(r) && WorkersFair(r, n) && NetworkFair(r, n)
  }

  // ----- what a run keeps -----

  lemma {:induction false} Reached(r: Endless, n: nat, R: seq<Results>, i: nat)
    requires Runs(r, n, R)
    ensures SysInv(r.ss(i), R) && WideSys(r.ss(i)) && |r.ss(i).flows| == n
  {
    hide SysInv, WideSys, SysNext;
    if i == 0 {
      var mem: seq<Byte> :| |mem| == P.CB.CAPACITY + 1 && r.ss(0) == EndToEnd.Start(n, mem);
      StartKeeps(n, mem, R);
      StartWide(n, mem);
    } else {
      Reached(r, n, R, i - 1);
      assert StepAt(r, i - 1, R) && WideCall(r, i - 1, n);
      SysKeeps(r.ss(i - 1), r.es(i - 1), r.ss(i), R);
      StepWide(r.ss(i - 1), r.es(i - 1), r.ss(i), R);
    }
    SizesOf(r.ss(i), R);
  }

  /** A call that has not returned goes on. */
  lemma GoesOn(s: Sys, e: SysEvent, t: Sys, R: seq<Results>)
    requires SysInv(s, R) && SysNext(s, e, t, R) && Called(s.p) && !HasReturned(s)
    ensures !e.Calls? && Called(t.p) && t.p.call == s.p.call
  {
    hide SysInv, P.Inv, P.Asserts, InBounds, TR.Next, Called, P.GoodCall;
    SysPipe(s, R);
    OrderOf(s.p);
    match e
    case Copies(out, bytes) => CopiesOnly(s, out, bytes, t, R);
    case Calls(call, tensor) =>
    case Thread(pe) =>
      P.AssertsHold(s.p, pe);
      AlwaysInBounds(s, pe, R);
      StepCall(s.p, pe);
      hide P.Step, ThreadStep;
      StepPipe(s, pe, t.p);
    case Works(w, fe, takes, answers) =>
      P.AssertsHold(s.p, P.Serves(w, takes, answers));
      StepCall(s.p, P.Serves(w, takes, answers));
  }

  lemma StepPipe(s: Sys, e: P.Event, p: P.Pipe)
    requires InBounds(s, e)
    ensures ThreadStep(s, e, p).p == p
  {}

  ghost predicate Busy(r: Endless, t: nat, i: nat) {
    forall k :: t <= k < i ==> !HasReturned(r.ss(k))
  }

  lemma {:induction false} StillCalled(r: Endless, n: nat, R: seq<Results>, t: nat, i: nat)
    requires Runs(r, n, R) && t <= i && Called(r.ss(t).p) && Busy(r, t, i)
    ensures Called(r.ss(i).p) && r.ss(i).p.call == r.ss(t).p.call
    decreases i - t
  {
    hide SysInv, WideSys, SysNext, Called, HasReturned;
    if t < i {
      assert !HasReturned(r.ss(t));
      Reached(r, n, R, t);
      assert StepAt(r, t, R);
      GoesOn(r.ss(t), r.es(t), r.ss(t + 1), R);
      StillCalled(r, n, R, t + 1, i);
    }
  }

  // ----- a step that brings no progress changes nothing -----

  /** The worker but for what it has sent and what it sees of memory. */
  function Core(f: Flow): Flow {
    f.(wire := [], mem := [])
  }

  lemma {:induction false} BurstIdle(s: Flow, lookedEmpty: bool, n: nat)
    requires Sane(s)
    ensures var t := Burst(s, lookedEmpty, n); |t.log| >= |s.log| && (|t.log| == |s.log| ==> t == s)
    decreases n
  {
    hide PktCount, MakePacket;
    if n != 0 && CanGen(s, lookedEmpty) {
      GenSane(s);
      BurstIdle(Gen(s), lookedEmpty, n - 1);
    }
  }

  lemma IdleWorker(s: Flow, e: TR.Event, t: Flow, R: Results)
    requires InvM(s, R) && TR.Next(s, e, t, R) && Own(e) && Work(t) == Work(s)
    ensures Core(t) == Core(s)
  {
    hide OneGroup, GroupNow, JobsOk, MemoryRight, PacketsRight, PktCount, MakePacket, Serials, TR.Trues, Received, FirstIdx;
    match e
    case Arrived(p, u) =>
      if TR.Fresh(s, p) { TR.TruesUpdate(s.acked, Find(s, p.groupId, p.psn).value); }
    case Shifted => ShiftAckFrame(s);
    case Sending(cwnd) =>
      BurstWork(s, cwnd);
      BurstIdle(s, Win(s) == 0, Room(s, cwnd));
    case TimedOut =>
  }

  ghost predicate SameCore(s: Sys, t: Sys) {
    t.p == s.p && |t.flows| == |s.flows| && forall w :: 0 <= w < |s.flows| ==> Core(t.flows[w]) == Core(s.flows[w])
  }

  lemma IdleThread(s: Sys, pe: P.Event, p: P.Pipe)
    requires P.Enabled(s.p, pe) && P.Asserts(s.p, pe) && !pe.Begin? && !pe.Serves? && !PP.Progresses(s.p, pe)
    requires InBounds(s, pe) && p == P.Step(s.p, pe)
    ensures ThreadStep(s, pe, p) == s
  {}

  lemma IdleServe(p: P.Pipe, w: nat)
    requires P.Enabled(p, P.Serves(w, 0, 0))
    ensures P.Served(p, w, 0, 0) == p
  {
    var q, h := p.work[w], p.hand[w] + p.work[w].wq[..0];
    assert h == p.hand[w] && q.wq[0..] == q.wq && q.cq + h[..0] == q.cq && h[0..] == h;
    assert p.work[w := q] == p.work && p.hand[w := h] == p.hand;
  }

  lemma IdleStep(s: Sys, e: SysEvent, t: Sys, R: seq<Results>)
    requires SysInv(s, R) && SysNext(s, e, t, R) && !e.Calls?
    requires |s.p.work| == |s.p.hand| && |t.p.work| == |t.p.hand| && !Falls(s, t)
    ensures SameCore(s, t)
  {
    hide SysInv, P.Inv, P.Asserts, P.Enabled, InBounds, PP.Left, PP.Progresses, Work, TR.Next, InvM, ThreadStep, P.Step;
    SysPipe(s, R);
    match e
    case Copies(out, bytes) =>
      CopiesOnly(s, out, bytes, t, R);
      forall w | 0 <= w < |s.flows| ensures Core(t.flows[w]) == Core(s.flows[w]) { SeenCore(s.flows[w], t.flows[w].mem); }
    case Thread(pe) =>
      P.AssertsHold(s.p, pe);
      AlwaysInBounds(s, pe, R);
      PP.StepUsesWork(s.p, pe);
      StepPipe(s, pe, t.p);
      IdleThread(s, pe, t.p);
    case Works(w, fe, takes, answers) =>
      IdleWork(s, w, fe, takes, answers, t, R);
  }

  lemma IdleWork(s: Sys, w: nat, fe: TR.Event, takes: nat, answers: nat, t: Sys, R: seq<Results>)
    requires SysInv(s, R) && SysNext(s, Works(w, fe, takes, answers), t, R)
    requires |s.p.work| == |s.p.hand| && |t.p.work| == |t.p.hand| && !Falls(s, t)
    ensures SameCore(s, t)
  {
    hide SysInv, P.Inv, P.Asserts, P.Enabled, PP.Left, Work, TR.Next, InvM, P.Served, Core;
    var pe := P.Serves(w, takes, answers);
    SysPipe(s, R);
    P.AssertsHold(s.p, pe);
    PP.ServeLeft(s.p, w, takes, answers);
    WorkerOfSys(s, R, w);
    WorkNeverRises(s.flows[w], fe, t.flows[w], R[w]);
    WorkOfOthers(s, w, t);
    IdleServe(s.p, w);
    IdleWorker(s.flows[w], fe, t.flows[w], R[w]);
    forall v | 0 <= v < |s.flows| ensures Core(t.flows[v]) == Core(s.flows[v]) {
      if v != w { SeenCore(s.flows[v], t.mem); }
    }
  }

  lemma SeenCore(f: Flow, mem: seq<Byte>)
    ensures Core(f.(mem := mem)) == Core(f)
  {}

  /** Only worker w's packets count at its step. */
  lemma WorkOfOthers(s: Sys, w: nat, t: Sys)
    requires w < |s.flows| == |t.flows| && t.flows == Seeing(s.flows[w := t.flows[w]], t.flows[w].mem)
    ensures Liveness.Works(t.flows) - Liveness.Works(s.flows) == Work(t.flows[w]) - Work(s.flows[w])
  {
    hide Work;
    forall v | 0 <= v < |s.flows| && v != w ensures Work(t.flows[v]) == Work(s.flows[v]) { SeenWork(s.flows[v], t.flows[w].mem); }
    WorksChange(s.flows, t.flows, w);
  }

  // ----- progress -----

  lemma SameMeasure(s: Sys, t: Sys)
    requires SameCore(s, t) && |s.p.work| == |s.p.hand|
    ensures PP.Left(t.p) == PP.Left(s.p) && Liveness.Works(t.flows) == Liveness.Works(s.flows)
  {
    hide PP.Left;
    forall w | 0 <= w < |s.flows| ensures Work(t.flows[w]) == Work(s.flows[w]) { CoreWork(s.flows[w], t.flows[w]); }
    WorksSame(s.flows, t.flows);
  }

  lemma CoreWork(f: Flow, g: Flow)
    requires Core(f) == Core(g)
    ensures Work(f) == Work(g)
    ensures f.posted == g.posted && f.log == g.log && f.acked == g.acked && f.base == g.base && f.group == g.group
    ensures f.popped == g.popped && f.sent == g.sent && f.done == g.done && f.limit == g.limit
  {
    assert Core(f).posted == f.posted && Core(g).posted == g.posted;
    assert Core(f).log == f.log && Core(f).acked == f.acked && Core(f).base == f.base;
  }

  predicate Whole(s: Sys) {
    |s.p.work| == |s.p.hand|
  }

  /** Between t and i the call has returned or come nearer to it. */
  ghost predicate Better(r: Endless, t: nat, i: nat) {
    t <= i && (!Busy(r, t, i) || (Whole(r.ss(t)) && Whole(r.ss(i)) && Falls(r.ss(t), r.ss(i))))
  }

  lemma FallsOn(s: Sys, t: Sys, u: Sys)
    requires Whole(s) && Whole(t) && Whole(u) && !Falls(u, t)
    ensures Falls(s, t) ==> Falls(s, u)
    ensures PP.Left(t.p) == PP.Left(s.p) && Liveness.Works(t.flows) == Liveness.Works(s.flows) && Falls(t, u) ==> Falls(s, u)
  {
    hide PP.Left, Liveness.Works;
  }

  /** As long as the call goes on, it comes nearer to its end or nothing changes but the wire. */
  lemma {:induction false} BetterOrSame(r: Endless, n: nat, R: seq<Results>, t: nat, i: nat)
    requires Runs(r, n, R) && t <= i && Called(r.ss(t).p)
    ensures Better(r, t, i) || SameCore(r.ss(t), r.ss(i))
    decreases i - t
  {
    hide SysInv, WideSys, SysNext, Falls, Called, HasReturned, Core, PP.Left, Liveness.Works;
    Reached(r, n, R, t);
    Hands(r.ss(t), R);
    if t < i && Busy(r, t, i) {
      var k: nat := i - 1;
      BetterOrSame(r, n, R, t, k);
      Reached(r, n, R, k);
      Hands(r.ss(k), R);
      Reached(r, n, R, i);
      Hands(r.ss(i), R);
      assert StepAt(r, k, R) && !HasReturned(r.ss(k));
      assert Busy(r, t, k);
      StillCalled(r, n, R, t, k);
      GoesOn(r.ss(k), r.es(k), r.ss(i), R);
      NeverBack(r.ss(k), r.es(k), r.ss(i), R);
      FallsOn(r.ss(t), r.ss(k), r.ss(i));
      if SameCore(r.ss(t), r.ss(k)) {
        SameMeasure(r.ss(t), r.ss(k));
        if !Falls(r.ss(k), r.ss(i)) { IdleStep(r.ss(k), r.es(k), r.ss(i), R); }
      }
    }
  }

  /** A step at i that brings progress brings it from t on. */
  lemma GainAt(r: Endless, n: nat, R: seq<Results>, t: nat, i: nat)
    requires Runs(r, n, R) && t <= i && Called(r.ss(t).p)
    requires Whole(r.ss(i)) && Whole(r.ss(i + 1)) && (SameCore(r.ss(t), r.ss(i)) ==> Falls(r.ss(i), r.ss(i + 1)))
    ensures Better(r, t, i) || Better(r, t, i + 1)
  {
    hide SysInv, WideSys, SysNext, Falls, Called, HasReturned, Core, PP.Left, Liveness.Works;
    BetterOrSame(r, n, R, t, i);
    if SameCore(r.ss(t), r.ss(i)) {
      Reached(r, n, R, t);
      Hands(r.ss(t), R);
      SameMeasure(r.ss(t), r.ss(i));
      FallsBoth(r.ss(t), r.ss(i), r.ss(i + 1));
    }
  }

  lemma FallsBoth(s: Sys, t: Sys, u: Sys)
    requires Whole(s) && Whole(t) && Whole(u) && Falls(t, u)
    requires PP.Left(t.p) == PP.Left(s.p) && Liveness.Works(t.flows) == Liveness.Works(s.flows)
    ensures Falls(s, u)
  {
    hide PP.Left, Liveness.Works;
  }

  // ----- the steps that bring progress -----

  lemma WorkerMoves(s: Sys, e: SysEvent, t: Sys, R: seq<Results>)
    requires SysInv(s, R) && SysInv(t, R) && SysNext(s, e, t, R) && e.Works? && Work(t.flows[e.w]) < Work(s.flows[e.w])
    ensures |s.p.work| == |s.p.hand| && |t.p.work| == |t.p.hand| && Falls(s, t)
  {
    hide SysInv, P.Inv, P.Asserts, P.Enabled, PP.Left, Work, TR.Next, P.Served;
    Hands(s, R);
    Hands(t, R);
    SysPipe(s, R);
    P.AssertsHold(s.p, P.Serves(e.w, e.takes, e.answers));
    PP.ServeLeft(s.p, e.w, e.takes, e.answers);
    WorkOfOthers(s, e.w, t);
  }

  lemma ThreadMoves(s: Sys, pe: P.Event, t: Sys, R: seq<Results>)
    requires SysInv(s, R) && SysInv(t, R) && SysNext(s, Thread(pe), t, R) && PP.Progresses(s.p, pe)
    ensures |s.p.work| == |s.p.hand| && |t.p.work| == |t.p.hand| && Falls(s, t)
  {
    hide SysInv, P.Inv, P.Asserts, P.Enabled, InBounds, PP.Left, PP.Progresses, ThreadStep, P.Step;
    Hands(s, R);
    Hands(t, R);
    SysPipe(s, R);
    P.AssertsHold(s.p, pe);
    AlwaysInBounds(s, pe, R);
    PP.StepUsesWork(s.p, pe);
    StepPipe(s, pe, t.p);
  }

  lemma ShiftMoves(s: Flow, t: Flow, R: Results)
    requires InvM(s, R) && TR.Next(s, TR.Shifted, t, R) && s.base < |s.log| && s.acked[s.base]
    ensures Work(t) < Work(s)
  {
    hide OneGroup, GroupNow, JobsOk, MemoryRight, PacketsRight, PktCount, FirstIdx, TR.Trues;
    ShiftAckFrame(s);
  }

  lemma SendMoves(s: Flow, cwnd: nat, t: Flow, R: Results)
    requires InvM(s, R) && TR.Next(s, TR.Sending(cwnd), t, R) && cwnd >= CC_CWND_MIN
    requires s.base == |s.log| && s.done < |s.posted| && s.limit > 0
    ensures Work(t) < Work(s)
  {
    hide JobsOk, MemoryRight, PacketsRight, PktCount, FirstIdx, OneGroup, GroupNow, TR.Trues, MakePacket, Serials, Burst, ShiftSend;
    if s.popped == |s.posted| { TR.DrainedIsDone(s); }
    GeneratesIff(s, cwnd);
    BurstWork(s, cwnd);
  }

  lemma TimeoutSends(s: Flow, t: Flow, R: Results)
    requires InvM(s, R) && TR.Next(s, TR.TimedOut, t, R) && s.base < |s.log| && !s.acked[s.base]
    ensures Transmits(s, t, s.base)
  {
    hide JobsOk, MemoryRight, PacketsRight, PktCount, FirstIdx, OneGroup, GroupNow, MakePacket, Serials;
    TR.ResendUnackedExact(s, s.base, |s.log|);
    var x := Sent(s.base, s.log[s.base].pkt);
    assert x in ResendUnacked(s, s.base, |s.log|);
    var y :| 0 <= y < |ResendUnacked(s, s.base, |s.log|)| && ResendUnacked(s, s.base, |s.log|)[y] == x;
    assert t.wire[|s.wire| + y].idx == s.base;
  }

  // ----- every fair run makes progress -----

  lemma ThreadProgress(r: Endless, n: nat, R: seq<Results>, t: nat, pe: P.Event) returns (i: nat)
    requires Runs(r, n, R) && Fair(r, n) && Called(r.ss(t).p)
    requires IsTurn(pe) && P.Enabled(r.ss(t).p, pe) && PP.Progresses(r.ss(t).p, pe)
    ensures Better(r, t, i)
  {
    hide SysInv, WideSys, SysNext, Falls, Called, HasReturned, Core, PP.Left, Liveness.Works, P.Enabled, PP.Progresses, IsTurn, Better, WorkersFair, NetworkFair;
    assert TurnAfter(r, t, pe);
    var k: nat :| TakenOrOff(r, t, k, pe);
    Reached(r, n, R, k);
    Hands(r.ss(k), R);
    Reached(r, n, R, k + 1);
    Hands(r.ss(k + 1), R);
    assert StepAt(r, k, R);
    if SameCore(r.ss(t), r.ss(k)) { ThreadMoves(r.ss(k), pe, r.ss(k + 1), R); }
    GainAt(r, n, R, t, k);
    i := if Better(r, t, k) then k else k + 1;
  }

  /** Worker w's state at a point with the same core. */
  lemma WorkerAt(r: Endless, n: nat, R: seq<Results>, k: nat, w: nat)
    requires Runs(r, n, R) && w < n
    ensures |r.ss(k).flows| == |r.ss(k + 1).flows| == |R| == n && InvM(r.ss(k).flows[w], R[w]) && Wide(r.ss(k).flows[w])
    ensures SysInv(r.ss(k), R) && SysInv(r.ss(k + 1), R) && SysNext(r.ss(k), r.es(k), r.ss(k + 1), R)
    ensures Whole(r.ss(k)) && Whole(r.ss(k + 1))
  {
    hide SysInv, SysNext, InvM, Wide, Called;
    Reached(r, n, R, k);
    Hands(r.ss(k), R);
    Reached(r, n, R, k + 1);
    Hands(r.ss(k + 1), R);
    assert StepAt(r, k, R);
    WorkerOfSys(r.ss(k), R, w);
  }

  lemma WorkStep(s: Sys, e: SysEvent, t: Sys, R: seq<Results>)
    requires SysNext(s, e, t, R) && e.Works?
    ensures e.w < |s.flows| == |t.flows| == |R| && TR.Next(s.flows[e.w], e.step, t.flows[e.w], R[e.w])
  {
    hide P.Next, TR.Next;
  }

  /** The worker releases, or sends on an empty window. */
  lemma PartProgress(r: Endless, n: nat, R: seq<Results>, t: nat, w: nat, part: Part) returns (i: nat)
    requires Runs(r, n, R) && Fair(r, n) && Called(r.ss(t).p) && w < n == |r.ss(t).flows|
    requires var f := r.ss(t).flows[w];
      || (part.Releases? && |f.acked| == |f.log| && f.base < |f.log| && f.acked[f.base])
      || (part.Sends? && f.base == |f.log| && f.done < |f.posted|)
    ensures Better(r, t, i)
  {
    hide SysInv, WideSys, SysNext, Falls, Called, HasReturned, Core, Work, InvM, TR.Next, Better, ThreadsFair, NetworkFair, EdgeWaits, Runs;
    assert PartAfter(r, t, w, part);
    var k: nat :| HasPart(r, t, k, w, part);
    WorkerAt(r, n, R, k, w);
    if SameCore(r.ss(t), r.ss(k)) {
      var f := r.ss(k).flows[w];
      CoreWork(r.ss(t).flows[w], f);
      WorkStep(r.ss(k), r.es(k), r.ss(k + 1), R);
      if part.Releases? {
        ShiftMoves(f, r.ss(k + 1).flows[w], R[w]);
      } else {
        SendMoves(f, r.es(k).step.cwnd, r.ss(k + 1).flows[w], R[w]);
      }
      WorkerMoves(r.ss(k), r.es(k), r.ss(k + 1), R);
    }
    GainAt(r, n, R, t, k);
    i := if Better(r, t, k) then k else k + 1;
  }

  /** While the oldest packet waits, it is sent again after any point u. */
  lemma TimeoutAgain(r: Endless, n: nat, R: seq<Results>, t: nat, w: nat, u: nat) returns (i: nat)
    requires Runs(r, n, R) && Fair(r, n) && Called(r.ss(t).p) && EdgeWaits(r.ss(t), w)
    ensures Better(r, t, i) || SentAfter(r, u, w, r.ss(t).flows[w].base)
  {
    hide SysInv, WideSys, SysNext, Falls, Called, HasReturned, Core, Work, InvM, TR.Next, Better, ThreadsFair, NetworkFair, Runs, Transmits;
    Reached(r, n, R, t);
    var from := if t < u then u else t;
    assert PartAfter(r, from, w, TimesOut);
    i :| HasPart(r, from, i, w, TimesOut);
    BetterOrSame(r, n, R, t, i);
    if SameCore(r.ss(t), r.ss(i)) {
      WorkerAt(r, n, R, i, w);
      CoreWork(r.ss(t).flows[w], r.ss(i).flows[w]);
      WorkStep(r.ss(i), r.es(i), r.ss(i + 1), R);
      TimeoutSends(r.ss(i).flows[w], r.ss(i + 1).flows[w], R[w]);
      assert TransmitsFrom(r, u, i, w, r.ss(t).flows[w].base);
    }
  }

  /** So it is answered some day. */
  lemma EdgeProgress(r: Endless, n: nat, R: seq<Results>, t: nat, w: nat) returns (i: nat)
    requires Runs(r, n, R) && Fair(r, n) && Called(r.ss(t).p) && w < n && EdgeWaits(r.ss(t), w)
    ensures Better(r, t, i)
  {
    hide SysInv, WideSys, SysNext, Falls, Called, HasReturned, Core, Work, InvM, TR.Next, Better, ThreadsFair, WorkersFair, Runs, TransmitsFrom;
    var x := r.ss(t).flows[w].base;
    if u: nat :| !SentAfter(r, u, w, x) {
      i := TimeoutAgain(r, n, R, t, w, u);
    } else {
      assert SentForever(r, w, x) && AnsweredAfter(r, t, w, x);
      var k: nat :| AnsweredFrom(r, t, k, w, x);
      WorkerAt(r, n, R, k, w);
      if SameCore(r.ss(t), r.ss(k)) {
        CoreWork(r.ss(t).flows[w], r.ss(k).flows[w]);
        WorkStep(r.ss(k), r.es(k), r.ss(k + 1), R);
        AnswerMoves(r.ss(k).flows[w], r.es(k).step, r.ss(k + 1).flows[w], R[w]);
        WorkerMoves(r.ss(k), r.es(k), r.ss(k + 1), R);
      }
      GainAt(r, n, R, t, k);
      i := if Better(r, t, k) then k else k + 1;
    }
  }

  lemma AnswerMoves(s: Flow, e: TR.Event, t: Flow, R: Results)
    requires InvM(s, R) && e.Arrived? && TR.Next(s, e, t, R) && s.base < |s.log| && !s.acked[s.base]
    requires Sane(s) && e.pkt.groupId == Gid(s.posted, s.log[s.base].job) && e.serial == SerialAt(s, s.base)
    ensures Work(t) < Work(s)
  {
    hide Shape, OneGroup, JobsOk, MemoryRight, PacketsRight, PktCount, FirstIdx, TR.Trues, MakePacket, Serials, Received, Find, RunStart, Rx, Work, Genuine;
    EdgeArrival(s, e.pkt, e.serial, R);
  }

  lemma NextGain(r: Endless, n: nat, R: seq<Results>, t: nat) returns (i: nat)
    requires Runs(r, n, R) && Fair(r, n) && Called(r.ss(t).p) && !HasReturned(r.ss(t))
    ensures Better(r, t, i)
  {
    hide SysInv, WideSys, Falls, Called, Work, InvM, Better, Fair, Runs, P.Inv, P.Enabled, PP.Progresses;
    Reached(r, n, R, t);
    var s := r.ss(t);
    SysPipe(s, R);
    var pe := PP.NeverStuck(s.p);
    if pe.Serves? {
      var w := pe.w;
      ServesHere(s, R, pe);
      var f := s.flows[w];
      if f.base == |f.log| {
        i := PartProgress(r, n, R, t, w, Sends);
      } else if f.acked[f.base] {
        i := PartProgress(r, n, R, t, w, Releases);
      } else {
        i := EdgeProgress(r, n, R, t, w);
      }
    } else {
      i := ThreadProgress(r, n, R, t, pe);
    }
  }

  /** The worker that holds everything up has something unanswered. */
  lemma ServesHere(s: Sys, R: seq<Results>, pe: P.Event)
    requires SysInv(s, R) && pe.Serves? && P.Enabled(s.p, pe) && PP.Progresses(s.p, pe)
    ensures pe.w < |s.flows|
    ensures var f := s.flows[pe.w]; f.done < |f.posted| && |f.acked| == |f.log| && f.base <= |f.log|
  {
    hide P.Inv, Sizes, WorkersGood, Waiting, TensorRight, WorkerGood, Cut, InvM;
    SysParts(s, R);
    SizesFacts(s, R);
    OneWorker(s, R, pe.w);
    WorkerInvM(s.p, |s.flows|, pe.w, s.mem, s.input, s.flows[pe.w], R[pe.w]);
    ShapeBounds(s.flows[pe.w]);
  }

  lemma ShapeBounds(f: Flow)
    requires Inv(f)
    ensures |f.acked| == |f.log| && f.base <= |f.log|
  {
    hide PktCount, FirstIdx;
  }

  // ----- the main result -----

  /** The first time from t on at which nothing is left to do. */
  lemma {:induction false} FirstReturn(r: Endless, t: nat, i: nat) returns (k: nat)
    requires t <= i && !Busy(r, t, i)
    ensures t <= k < i && Busy(r, t, k) && HasReturned(r.ss(k))
    decreases i - t
  {
    hide HasReturned;
    if HasReturned(r.ss(t)) {
      k := t;
    } else {
      k := FirstReturn(r, t + 1, i);
    }
  }

  /** On every fair run every call returns. */
  lemma {:induction false} EveryCallReturns(r: Endless, n: nat, R: seq<Results>, t: nat) returns (T: nat)
    requires Runs(r, n, R) && Fair(r, n) && Called(r.ss(t).p)
    ensures T >= t && Finished(r.ss(T)) && r.ss(T).p.call == r.ss(t).p.call
    decreases if Whole(r.ss(t)) then PP.Left(r.ss(t).p) else 0, if Whole(r.ss(t)) then Liveness.Works(r.ss(t).flows) else 0
  {
    hide SysInv, WideSys, Fair, Runs, PP.Left, Liveness.Works;
    Reached(r, n, R, t);
    Hands(r.ss(t), R);
    if HasReturned(r.ss(t)) {
      T := t;
    } else {
      var i := NextGain(r, n, R, t);
      if Busy(r, t, i) {
        StillCalled(r, n, R, t, i);
        Reached(r, n, R, i);
        Hands(r.ss(i), R);
        T := EveryCallReturns(r, n, R, i);
      } else {
        T := FirstReturn(r, t, i);
        StillCalled(r, n, R, t, T);
      }
    }
  }

  /** And if it receives, every byte of its tensor has then been delivered. */
  lemma EveryCallDelivers(r: Endless, n: nat, R: seq<Results>, t: nat) returns (T: nat)
    requires Runs(r, n, R) && Fair(r, n) && Called(r.ss(t).p) && CallReceives(r.ss(t).p.call)
    ensures T >= t && Finished(r.ss(T)) && r.ss(T).p.call == r.ss(t).p.call && |r.ss(T).flows| == |R| == n > 0
    ensures forall b :: 0 <= b < r.ss(T).p.call.size ==> Delivered(r.ss(T), R, b)
  {
    hide SysInv, WideSys, Fair, Called, CallReceives, Finished, Delivered;
    T := EveryCallReturns(r, n, R, t);
    Reached(r, n, R, T);
    forall b | 0 <= b < r.ss(T).p.call.size ensures Delivered(r.ss(T), R, b) { ByteDelivered(r.ss(T), R, b); }
  }
}
