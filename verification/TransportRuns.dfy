/** Whole runs of one worker: arbitrary interleavings of postings, foreign writes, arrivals,
    acknowledgement shifts, bursts and timeouts, under a network that drops, duplicates and
    reorders but delivers no packet 2^32 sequence numbers late. */
module TransportRuns {
  import opened NetCommon
  import opened Transport
  import opened TransportShape
  import opened TransportMemory

  datatype Event =
    | Posted(sub: SubOp)
    | Written(mem: seq<Byte>)
    | Arrived(pkt: RxPacket, serial: nat)
    | Shifted
    | Sending(cwnd: nat)
    | TimedOut

  ghost predicate Next(s: Flow, e: Event, t: Flow, R: Results) {
    && Sane(s)
    && match e
       case Posted(sub) => CanPost(s, sub) && t == Post(s, sub)
       case Written(mem) => AgreeLive(s, mem) && t == s.(mem := mem)
       case Arrived(p, u) => Genuine(s, p, u, R) && t == Rx(s, p)
       case Shifted => t == ShiftAck(s)
       case Sending(cwnd) => t == ShiftSend(s, cwnd)
       case TimedOut => t == FullRetrans(s)
  }

  /** ss[i] is the state before event es[i]. A dropped packet is simply one that never arrives. */
  ghost predicate Run(ss: seq<Flow>, es: seq<Event>, R: Results) {
    && |ss| == |es| + 1
    && (exists mem :: ss[0] == Start(mem))
    && (forall i :: 0 <= i < |es| ==> Next(ss[i], es[i], ss[i + 1], R))
  }

  lemma NextKeeps(s: Flow, e: Event, t: Flow, R: Results)
    requires InvM(s, R) && Next(s, e, t, R)
    ensures InvM(t, R)
  {
    match e
    case Posted(sub) => PostKeepsM(s, sub, R);
    case Written(mem) => EnvKeeps(s, mem, R);
    case Arrived(p, u) => RxKeepsM(s, p, u, R);
    case Shifted => ShiftAckKeepsM(s, R);
    case Sending(cwnd) => BurstKeepsM(s, Win(s) == 0, Room(s, cwnd), R);
    case TimedOut => FullRetransKeepsM(s, R);
  }

  /** The window, memory and packet invariants hold in every reachable state. */
  lemma {:induction false} AlwaysInv(ss: seq<Flow>, es: seq<Event>, R: Results, i: nat)
    requires Run(ss, es, R) && i < |ss|
    ensures InvM(ss[i], R)
  {
    if i > 0 {
      AlwaysInv(ss, es, R, i - 1);
      assert Next(ss[i - 1], es[i - 1], ss[i], R);
      NextKeeps(ss[i - 1], es[i - 1], ss[i], R);
    }
  }

  /** Over any run, responses are pushed once per sub-operation and in posting order, and at the
      step that pushes one, its region holds exactly what the network answered. */
  lemma EveryAnswerIsRight(ss: seq<Flow>, es: seq<Event>, R: Results, i: nat)
    requires Run(ss, es, R) && i < |es|
    ensures var s, t := ss[i], ss[i + 1];
      && (forall k :: 0 <= k < |t.answered| ==> t.answered[k] == k)
      && s.answered <= t.answered && |t.answered| <= |t.posted|
      && (|s.answered| < |t.answered| ==> es[i] == Shifted)
      && (forall j :: |s.answered| <= j < |t.answered| ==>
            JobGood(t.posted[j], |t.mem|) && Region(t.mem, t.posted[j].sub) == Outcome(t.posted, j, R))
  {
    AlwaysInv(ss, es, R, i);
    AlwaysInv(ss, es, R, i + 1);
    var s, e, t := ss[i], es[i], ss[i + 1];
    assert Next(s, e, t, R);
    match e
    case Shifted =>
      ShiftAckFrame(s);
      forall j | s.done <= j < t.done ensures Region(t.mem, t.posted[j].sub) == Outcome(t.posted, j, R) {
        AnswerIsRight(s, R, j);
      }
    case Sending(cwnd) => ShiftSendKeeps(s, cwnd);
    case _ =>
  }

  /** Over any run, every transmitted packet carries the bytes its chunk was posted with. */
  lemma EveryTransmissionIsRight(ss: seq<Flow>, es: seq<Event>, R: Results, i: nat, x: nat)
    requires Run(ss, es, R) && i < |ss| && x < |ss[i].wire|
    ensures var s := ss[i];
      && s.wire[x].idx < |s.log|
      && var r := s.log[s.wire[x].idx];
      && PacketRight(s.posted, |s.mem|, r) && s.wire[x].pkt == r.pkt
      && (NeedTx(s.posted[r.job].sub.op) ==>
            Received(s.posted[r.job].sub, r.chunk, s.wire[x].pkt.payload) == InputChunk(s.posted[r.job], r.chunk))
  {
    AlwaysInv(ss, es, R, i);
    TransmissionsCarryInput(ss[i], R, x);
  }

  // ----- progress -----

  function Trues(bs: seq<bool>): nat {
    if bs == [] then 0 else Trues(bs[..|bs| - 1]) + if bs[|bs| - 1] then 1 else 0
  }

  /** Packets of posted sub-operations that are not acknowledged, or not even generated. */
  function Pending(s: Flow): int {
    FirstIdx(s.posted, |s.posted|) - Trues(s.acked)
  }

  lemma {:induction false} TruesUpdate(bs: seq<bool>, i: nat)
    requires i < |bs| && !bs[i]
    ensures Trues(bs[i := true]) == Trues(bs) + 1
  {
    var n := |bs| - 1;
    if i < n {
      TruesUpdate(bs[..n], i);
      assert bs[i := true][..n] == bs[..n][i := true];
    } else {
      assert bs[i := true][..n] == bs[..n];
    }
  }

  lemma {:induction false} TruesBound(bs: seq<bool>)
    ensures Trues(bs) <= |bs|
    ensures Trues(bs) == |bs| <==> forall i :: 0 <= i < |bs| ==> bs[i]
  {
    if bs != [] {
      TruesBound(bs[..|bs| - 1]);
      assert forall i :: 0 <= i < |bs| - 1 ==> bs[..|bs| - 1][i] == bs[i];
    }
  }

  lemma {:induction false} BurstPending(s: Flow, lookedEmpty: bool, n: nat)
    requires Sane(s)
    ensures Pending(Burst(s, lookedEmpty, n)) == Pending(s)
    decreases n
  {
    if n != 0 && CanGen(s, lookedEmpty) {
      GenSane(s);
      var t := Gen(s);
      assert t.acked[..|t.acked| - 1] == s.acked;
      BurstPending(t, lookedEmpty, n - 1);
    }
  }

  ghost predicate Fresh(s: Flow, p: RxPacket)
    requires Sane(s)
  {
    Find(s, p.groupId, p.psn).Some? && !s.acked[Find(s, p.groupId, p.psn).value]
  }

  /** Work only shrinks: a fresh acknowledgement removes exactly one packet, a posting adds its
      packets, and no other step, retransmission included, changes the amount. */
  lemma PendingStep(s: Flow, e: Event, t: Flow, R: Results)
    requires InvM(s, R) && Next(s, e, t, R)
    ensures Pending(t) == match e
      case Posted(sub) => Pending(s) + PktCount(sub.size)
      case Arrived(p, u) => if Fresh(s, p) then Pending(s) - 1 else Pending(s)
      case _ => Pending(s)
  {
    hide OneGroup, GroupNow, JobsOk, MemoryRight, PacketsRight, PktCount, MakePacket, Serials, Trues, Received;
    match e
    case Posted(sub) => NumberingAppend(s.posted, t.posted[|s.posted|], |s.posted|, 0);
    case Arrived(p, u) => if Fresh(s, p) { TruesUpdate(s.acked, Find(s, p.groupId, p.psn).value); }
    case Shifted => ShiftAckFrame(s);
    case Sending(cwnd) => BurstPending(s, Win(s) == 0, Room(s, cwnd));
    case _ =>
  }

  lemma {:induction false} ShiftAckDrains(s: Flow)
    requires Inv(s) && forall i :: 0 <= i < |s.log| ==> s.acked[i]
    ensures ShiftAck(s).base == |s.log| && ShiftAck(s).log == s.log
    ensures ShiftAck(s).popped == s.popped && ShiftAck(s).sent == s.sent && ShiftAck(s).posted == s.posted
    decreases |s.log| - s.base
  {
    if s.base < |s.log| {
      ReleaseKeeps(s);
      ShiftAckDrains(Release(s));
    }
  }

  /** Nothing pending means nothing lost: the next shift has answered every sub-operation. */
  lemma NothingPending(s: Flow)
    requires Inv(s) && Pending(s) == 0
    ensures |ShiftAck(s).answered| == |s.posted|
  {
    hide PktCount, OneGroup, GroupNow, MakePacket, Serials, ShiftAck;
    TruesBound(s.acked);
    var n := |s.posted|;
    if s.popped < n { FirstIdxMono(s.posted, s.popped + 1, n); }
    assert s.popped == n && forall i :: 0 <= i < |s.log| ==> s.acked[i];
    hide Shape, Trues, FirstIdx;
    ShiftAckDrains(s);
    ShiftAckKeeps(s);
    DrainedIsDone(ShiftAck(s));
  }

  lemma DrainedIsDone(s: Flow)
    requires Inv(s) && s.base == |s.log| && s.popped == |s.posted|
    ensures s.done == |s.posted|
  {
    if s.done < |s.posted| { FirstIdxMono(s.posted, s.done + 1, |s.posted|); }
  }

  // ----- retransmission -----

  /** A timeout sends every unacknowledged packet of the window once, in order, and nothing else. */
  lemma {:induction false} ResendUnackedExact(s: Flow, i: nat, j: nat)
    requires |s.acked| == |s.log| && i <= j <= |s.log|
    ensures var w := ResendUnacked(s, i, j);
      && (forall x :: 0 <= x < |w| ==> i <= w[x].idx < j && !s.acked[w[x].idx] && w[x].pkt == s.log[w[x].idx].pkt)
      && (forall x, y :: 0 <= x < y < |w| ==> w[x].idx < w[y].idx)
      && (forall k :: i <= k < j && !s.acked[k] ==> Sent(k, s.log[k].pkt) in w)
    decreases j - i
  {
    if i < j {
      ResendUnackedExact(s, i, j - 1);
      var v, w := ResendUnacked(s, i, j - 1), ResendUnacked(s, i, j);
      forall k | i <= k < j && !s.acked[k] ensures Sent(k, s.log[k].pkt) in w {
        if k == j - 1 { assert w[|w| - 1] == Sent(k, s.log[k].pkt); }
        else { assert Sent(k, s.log[k].pkt) in v; }
      }
    }
  }

  lemma {:induction false} SameRun(s: Flow, t: Flow, i: nat)
    requires |s.acked| == |s.log| && |t.acked| == |t.log| && s.base == t.base <= i <= |s.log| == |t.log|
    requires forall k :: s.base <= k < i ==> s.acked[k] == t.acked[k]
    ensures RunStart(s, i) == RunStart(t, i)
    decreases i
  {
    if i > s.base && !s.acked[i - 1] { SameRun(s, t, i - 1); }
  }

  /** A fresh acknowledgement of entry i resends exactly the maximal unacknowledged run that ends
      just before i. */
  lemma FastRetransmitExact(s: Flow, p: RxPacket)
    requires Inv(s) && Fresh(s, p)
    ensures var i := Find(s, p.groupId, p.psn).value;
            Rx(s, p).wire == s.wire + Resend(s, RunStart(s, i), i)
  {
    var i := Find(s, p.groupId, p.psn).value;
    var a := Ack(s, i, p.payload);
    SameRun(s, a, i);
    var j := RunStart(s, i);
    assert Resend(a, j, i) == Resend(s, j, i);
  }
}
