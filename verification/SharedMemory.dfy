/** One worker seen from outside: which bytes its steps may touch, what it needs of the others, and
    what stays in place after an answer until the operation is destroyed. */
module SharedMemory {
  import opened NetCommon
  import opened Transport
  import opened TransportShape
  import opened TransportMemory
  import opened TransportRuns

  /** A step that the worker thread takes itself. */
  predicate Own(e: Event) {
    !e.Posted? && !e.Written?
  }

  lemma {:induction false} BurstFrame(s: Flow, lookedEmpty: bool, n: nat)
    requires Sane(s)
    ensures var t := Burst(s, lookedEmpty, n);
      t.posted == s.posted && t.mem == s.mem && t.done == s.done && s.popped <= t.popped <= |s.posted|
    decreases n
  {
    if n != 0 && CanGen(s, lookedEmpty) {
      GenSane(s);
      hide PktCount, MakePacket;
      BurstFrame(Gen(s), lookedEmpty, n - 1);
    }
  }

  /** Requests are taken and answered in order, whatever the step. */
  lemma StepCounts(s: Flow, e: Event, t: Flow, R: Results)
    requires InvM(s, R) && Next(s, e, t, R) && Own(e)
    ensures t.posted == s.posted && |t.mem| == |s.mem|
    ensures s.popped <= t.popped <= |t.posted| && s.done <= t.done <= t.popped
    ensures t.done > s.done ==> e == Shifted && t.mem == s.mem
  {
    hide OneGroup, GroupNow, JobsOk, MemoryRight, PacketsRight, PktCount, FirstIdx, MakePacket;
    match e
    case Shifted =>
      ShiftAckFrame(s);
    case Sending(cwnd) => BurstFrame(s, Win(s) == 0, Room(s, cwnd));
    case _ =>
  }

  predicate Clear(sub: SubOp, lo: nat, hi: nat) {
    sub.data + sub.size <= lo || hi <= sub.data
  }

  /** A worker's step leaves every range alone that is clear of its unanswered sub-operations. */
  lemma StepFrame(s: Flow, e: Event, t: Flow, R: Results, lo: nat, hi: nat)
    requires InvM(s, R) && Next(s, e, t, R) && Own(e) && lo <= hi <= |s.mem|
    requires forall j :: s.done <= j < |s.posted| ==> Clear(s.posted[j].sub, lo, hi)
    ensures |t.mem| == |s.mem| && t.mem[lo..hi] == s.mem[lo..hi]
  {
    hide OneGroup, GroupNow, JobsOk, MemoryRight, PacketsRight, FirstIdx, MakePacket, Shape, Genuine, Received;
    match e
    case Arrived(p, u) =>
      var f := Find(s, p.groupId, p.psn);
      if f.Some? && !s.acked[f.value] {
        WindowIsLive(s, f.value);
        AckFrame(s, f.value, p.payload, lo, hi);
      }
    case Shifted => ShiftAckFrame(s);
    case Sending(cwnd) => BurstFrame(s, Win(s) == 0, Room(s, cwnd));
    case TimedOut =>
  }

  lemma AckFrame(s: Flow, i: nat, p: Payload, lo: nat, hi: nat)
    requires Sane(s) && i < |s.log| && lo <= hi <= |s.mem|
    requires Clear(s.posted[s.log[i].job].sub, lo, hi)
    ensures |Ack(s, i, p).mem| == |s.mem| && Ack(s, i, p).mem[lo..hi] == s.mem[lo..hi]
  {
    hide Received;
    assert RecOk(s.posted, s.log[i]);
    var sub, c := s.posted[s.log[i].job].sub, s.log[i].chunk;
    if NeedRx(sub.op) { SliceOfWrite(s.mem, sub.data + PAYLOAD_SIZE * c, Received(sub, c, p), lo, hi); }
  }

  // ----- after the answer -----

  ghost predicate HoldsOutcome(f: Flow, k: nat, R: Results)
    requires k < |f.posted| && JobGood(f.posted[k], |f.mem|)
  {
    Region(f.mem, f.posted[k].sub) == Outcome(f.posted, k, R)
  }

  /** From job `lo` on, answered sub-operations still have their outcome in place. */
  ghost predicate Kept(f: Flow, lo: nat, R: Results)
    requires JobsOk(f) && f.done <= |f.posted|
  {
    forall k :: lo <= k < f.done ==> HoldsOutcome(f, k, R)
  }

  /** The jobs from `lo` on find their regions unchanged. */
  ghost predicate Untouched(f: Flow, lo: nat, mem: seq<Byte>)
    requires JobsOk(f)
  {
    |mem| == |f.mem| && forall j :: lo <= j < |f.posted| ==> Region(mem, f.posted[j].sub) == Region(f.mem, f.posted[j].sub)
  }

  lemma Parts(f: Flow, R: Results)
    requires InvM(f, R)
    ensures JobsOk(f) && f.done <= f.popped <= |f.posted|
  {
    hide MemoryRight, PacketsRight, OneGroup, GroupNow, PktCount, FirstIdx;
  }

  /** Another thread's write that stays clear of the live regions disturbs nothing. */
  lemma ForeignWrite(f: Flow, lo: nat, mem: seq<Byte>, R: Results)
    requires InvM(f, R) && f.done <= |f.posted| && Kept(f, lo, R) && lo <= f.done && Untouched(f, lo, mem)
    ensures InvM(f.(mem := mem), R) && Kept(f.(mem := mem), lo, R)
  {
    hide MemoryRight, PacketsRight, Inv, Outcome;
    EnvKeeps(f, mem, R);
    var t := f.(mem := mem);
    forall k | lo <= k < t.done ensures HoldsOutcome(t, k, R) {
      assert HoldsOutcome(f, k, R);
    }
  }

  /** A range that avoids a sub-operation's bytes avoids its region. */
  lemma RegionSlice(mem: seq<Byte>, mem2: seq<Byte>, sub: SubOp)
    requires JobOk(sub, |mem|) && |mem2| == |mem|
    requires mem2[sub.data..sub.data + sub.size] == mem[sub.data..sub.data + sub.size]
    ensures Region(mem2, sub) == Region(mem, sub)
  {}

  /** The worker's own step keeps its answered regions in place and adds the newly answered ones. */
  lemma OwnStepKeeps(s: Flow, e: Event, t: Flow, R: Results, lo: nat)
    requires InvM(s, R) && Next(s, e, t, R) && Own(e) && s.done <= |s.posted| && Kept(s, lo, R)
    requires forall k, j :: lo <= k < s.done <= j < |s.posted| ==> Apart(s.posted, k, j)
    ensures InvM(t, R) && t.done <= |t.posted| && Kept(t, lo, R)
  {
    hide Shape, OneGroup, GroupNow, MemoryRight, PacketsRight, Outcome, Next, Region;
    NextKeeps(s, e, t, R);
    StepCounts(s, e, t, R);
    forall k | lo <= k < t.done ensures HoldsOutcome(t, k, R) {
      if k < s.done {
        KeptJob(s, e, t, R, k, lo);
      } else {
        NewJob(s, e, t, R, k);
      }
    }
  }

  lemma KeptJob(s: Flow, e: Event, t: Flow, R: Results, k: nat, lo: nat)
    requires InvM(s, R) && Next(s, e, t, R) && Own(e) && lo <= k < s.done <= |s.posted| && Kept(s, lo, R)
    requires t.posted == s.posted && |t.mem| == |s.mem|
    requires forall j :: s.done <= j < |s.posted| ==> Apart(s.posted, k, j)
    ensures HoldsOutcome(t, k, R)
  {
    hide Inv, MemoryRight, PacketsRight, Outcome, Next;
    var sub := s.posted[k].sub;
    assert HoldsOutcome(s, k, R);
    forall j | s.done <= j < |s.posted| ensures Clear(s.posted[j].sub, sub.data, sub.data + sub.size) {
      assert Apart(s.posted, k, j);
    }
    StepFrame(s, e, t, R, sub.data, sub.data + sub.size);
    RegionSlice(s.mem, t.mem, sub);
  }

  lemma NewJob(s: Flow, e: Event, t: Flow, R: Results, k: nat)
    requires InvM(s, R) && Next(s, e, t, R) && e == Shifted && s.done <= k < t.done
    requires t.posted == s.posted && t.mem == s.mem
    ensures k < |t.posted| && JobGood(t.posted[k], |t.mem|) && HoldsOutcome(t, k, R)
  {
    hide Inv, MemoryRight, PacketsRight, Outcome, InvM;
    AnswerIsRight(s, R, k);
  }

  // ----- a new request -----

  lemma {:induction false} AssembleAppend(ps: seq<Job>, x: Job, k: nat, n: nat, R: Results)
    requires k < |ps| && n <= Count(ps, k) && (Reducing(ps[k].sub.op.code) ==> ps[k].sub.size % 4 == 0)
    ensures Assemble(ps + [x], k, n, R) == Assemble(ps, k, n, R)
  {
    if n > 0 {
      AssembleAppend(ps, x, k, n - 1, R);
      NumberingAppend(ps, x, k, Gid(ps, k));
      hide Received, Assemble, PktCount;
      assert ResultChunk(ps + [x], k, n - 1, R) == ResultChunk(ps, k, n - 1, R);
    }
  }

  lemma OutcomeAppend(ps: seq<Job>, x: Job, k: nat, R: Results)
    requires k < |ps| && (Reducing(ps[k].sub.op.code) ==> ps[k].sub.size % 4 == 0)
    ensures Outcome(ps + [x], k, R) == Outcome(ps, k, R)
  {
    hide Assemble, PktCount;
    AssembleAppend(ps, x, k, Count(ps, k), R);
  }

  lemma PostKept(f: Flow, sub: SubOp, lo: nat, R: Results)
    requires InvM(f, R) && CanPost(f, sub) && f.done <= |f.posted| && Kept(f, lo, R)
    ensures var t := Post(f, sub); InvM(t, R) && t.done <= |t.posted| && Kept(t, lo, R)
  {
    hide Inv, MemoryRight, PacketsRight, Outcome, CanPost;
    assert JobOk(sub, |f.mem|) by { JobOfPost(f, sub); }
    PostKeepsM(f, sub, R);
    var t := Post(f, sub);
    forall k | lo <= k < t.done ensures HoldsOutcome(t, k, R) {
      assert HoldsOutcome(f, k, R);
      OutcomeAppend(f.posted, t.posted[|f.posted|], k, R);
    }
  }

  lemma JobOfPost(f: Flow, sub: SubOp)
    requires CanPost(f, sub)
    ensures JobOk(sub, |f.mem|)
  {}
}
