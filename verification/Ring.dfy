/** How the worker's ring of 1024 packet states and its 32-bit counters represent a `Flow`. */
module Ring {
  import opened NetCommon
  import opened Encoding
  import opened Transport
  import opened TransportShape
  import Modular

  /** One entry of the ring (pkt_state_t); `pkt` is the packet buffer it owns. */
  datatype PktState = PktState(acked: bool, subOp: SubOp, data: nat, size: nat, psn: nat, isLast: bool, pkt: Packet)

  function Pos(i: nat): nat {
    i % MAX_WIN_LEN
  }

  /** The next position, as the source's mask computes it. */
  function NextPos(p: nat): nat {
    (p + 1) % MAX_WIN_LEN
  }

  function PrevPos(p: nat): nat {
    (p - 1) % MAX_WIN_LEN
  }

  lemma PosSteps(i: nat)
    ensures NextPos(Pos(i)) == Pos(i + 1)
    ensures PrevPos(Pos(i + 1)) == Pos(i)
  {}

  lemma PosAdd(i: nat, d: nat)
    requires d < MAX_WIN_LEN
    ensures Pos(i + d) == if Pos(i) + d >= MAX_WIN_LEN then Pos(i) + d - MAX_WIN_LEN else Pos(i) + d
  {}

  lemma PosDistinct(i: nat, k: nat)
    requires i != k && i < k + MAX_WIN_LEN && k < i + MAX_WIN_LEN
    ensures Pos(i) != Pos(k)
  {}

  /** Ring entry e holds log entry i. */
  ghost predicate Holds(e: PktState, f: Flow, i: nat)
    requires Sane(f) && i < |f.log|
  {
    var r := f.log[i];
    var sub := f.posted[r.job].sub;
    && e.acked == f.acked[i]
    && e.subOp == sub
    && e.data == sub.data + PAYLOAD_SIZE * r.chunk
    && e.size == ChunkLen(sub.size, r.chunk)
    && e.psn == Psn(SerialAt(f, i)) == e.pkt.psn
    && e.isLast == (r.chunk + 1 == Count(f.posted, r.job))
    && e.pkt == r.pkt
  }

  ghost predicate RingHolds(st: seq<PktState>, f: Flow)
    requires Sane(f)
  {
    && |st| == MAX_WIN_LEN
    && (forall i :: f.base <= i < |f.log| ==> Holds(st[Pos(i)], f, i))
  }

  /** A packet generated but not yet handed to the transmit buffer. */
  function Fill(f: Flow): (t: Flow)
    requires f.popped < |f.posted| && f.sent < Count(f.posted, f.popped)
    requires JobOk(f.posted[f.popped].sub, |f.mem|)
    ensures t.mem == f.mem && t.wire == f.wire && t.posted == f.posted
  {
    Gen(f).(wire := f.wire)
  }

  function Packets(w: seq<Sent>): seq<Packet> {
    if w == [] then [] else Packets(w[..|w| - 1]) + [w[|w| - 1].pkt]
  }

  lemma PacketsSnoc(w: seq<Sent>, x: Sent)
    ensures Packets(w + [x]) == Packets(w) + [x.pkt]
  {
    assert (w + [x])[..|w|] == w;
  }

  /** Jobs taken from the request queue, the one in progress included. */
  function Started(f: Flow): nat {
    f.popped + if f.sent > 0 then 1 else 0
  }

  function Get(m: map<nat, nat>, g: nat): nat {
    if g in m then m[g] else 0
  }

  /** Every group's 32-bit counter is its unbounded counter modulo 2^32. */
  ghost predicate CountersHold(m: map<nat, nat>, f: Flow)
    requires Sane(f)
  {
    forall g: nat :: Get(m, g) == Psn(Serials(f.posted, Started(f), g))
  }

  ghost predicate QueueHolds(wq: seq<SubOp>, cq: seq<SubOp>, taken: nat, f: Flow)
    requires Sane(f)
  {
    && taken <= f.done
    && |wq| == |f.posted| - f.popped
    && |cq| == f.done - taken
    && (forall k :: 0 <= k < |wq| ==> wq[k] == f.posted[f.popped + k].sub)
    && (forall k :: 0 <= k < |cq| ==> cq[k] == f.posted[taken + k].sub)
  }

  /** Everything the worker keeps, except the published edges of the window. */
  datatype View = View(
    st: seq<PktState>, mem: seq<Byte>, wq: seq<SubOp>, cq: seq<SubOp>, credits: nat, taken: nat,
    stream: seq<Packet>, group: nat, limit: nat,
    sub: Option<SubOp>, pktSent: nat, startPsn: nat, pktCnt: nat, groupPsn: map<nat, nat>)

  /** The generator's variables between two packets. */
  ghost predicate GeneratorHolds(v: View, f: Flow)
    requires Sane(f)
  {
    && (v.sub.Some? <==> f.sent > 0)
    && (v.sub.Some? ==>
          && v.sub.value == f.posted[f.popped].sub
          && v.pktSent == f.sent
          && v.pktCnt == Count(f.posted, f.popped)
          && v.startPsn == Psn(Serial(f.posted, f.popped, 0)))
  }

  ghost predicate Represents(v: View, f: Flow) {
    && Inv(f)
    && RingHolds(v.st, f)
    && v.mem == f.mem
    && v.group == f.group && v.limit == f.limit
    && GeneratorHolds(v, f) && CountersHold(v.groupPsn, f)
    && QueueHolds(v.wq, v.cq, v.taken, f)
    && v.credits == |f.posted| - v.taken <= QUEUE_SIZE
    && v.stream == Packets(f.wire)
  }

  /** The published edges: slots and, while the window is not empty, sequence numbers. */
  ghost predicate LeftEdge(toAck: nat, leftPsn: nat, f: Flow)
    requires Sane(f)
  {
    toAck == Pos(f.base) && (f.base < |f.log| ==> leftPsn == Psn(SerialAt(f, f.base)))
  }

  ghost predicate RightEdge(toSend: nat, rightPsn: nat, f: Flow)
    requires Sane(f)
  {
    toSend == Pos(|f.log|) && (f.base < |f.log| ==> rightPsn == Psn(SerialAt(f, |f.log| - 1)))
  }

  lemma EmptyByEdges(toAck: nat, toSend: nat, leftPsn: nat, rightPsn: nat, f: Flow)
    requires Inv(f) && LeftEdge(toAck, leftPsn, f) && RightEdge(toSend, rightPsn, f)
    ensures toAck == toSend <==> f.base == |f.log|
    ensures Win(f) == if toSend >= toAck then toSend - toAck else MAX_WIN_LEN + toSend - toAck
  {
    hide PktCount, FirstIdx, RecOk;
    var n := Win(f);
    PosAdd(f.base, n);
    assert |f.log| == f.base + n;
  }

  /** The 32-bit comparison of distances, and the addition that wraps around the ring, locate a
      packet exactly. */
  lemma PositionExact(toAck: nat, toSend: nat, leftPsn: nat, rightPsn: nat, f: Flow, gid: nat, psn: nat)
    requires Inv(f) && LeftEdge(toAck, leftPsn, f) && RightEdge(toSend, rightPsn, f) && psn < TWO32
    ensures var d := (psn - leftPsn) % TWO32;
      match Find(f, gid, psn)
      case None => toAck == toSend || gid != f.group || d > (rightPsn - leftPsn) % TWO32
      case Some(i) =>
        && toAck != toSend && gid == f.group && d <= (rightPsn - leftPsn) % TWO32
        && Pos(i) == if d + toAck >= MAX_WIN_LEN then d + toAck - MAX_WIN_LEN else d + toAck
  {
    hide PktCount, OneGroup, GroupNow, Psn, FirstIdx, RecOk, Serials;
    EmptyByEdges(toAck, toSend, leftPsn, rightPsn, f);
    if f.base < |f.log| {
      FindByDistance(f, gid, psn);
      var r := Find(f, gid, psn);
      if r.Some? { PosAdd(f.base, r.value - f.base); }
    }
  }

  // ----- how the parts change -----

  lemma Entry(v: View, f: Flow, i: nat)
    requires Represents(v, f) && f.base <= i < |f.log|
    ensures |v.st| == MAX_WIN_LEN && Sane(f) && Holds(v.st[Pos(i)], f, i)
  {}

  lemma EntryAcked(v: View, f: Flow, i: nat)
    requires Represents(v, f) && f.base <= i < |f.log|
    ensures |v.st| == MAX_WIN_LEN && i < |f.acked| && v.st[Pos(i)].acked == f.acked[i]
    ensures i < f.base + MAX_WIN_LEN && Pos(i) < MAX_WIN_LEN
  {
    Entry(v, f, i);
  }

  lemma SaneFlow(v: View, f: Flow)
    requires Represents(v, f)
    ensures Sane(f) && Releasable(f) && f.base <= |f.log|
  {
    assert forall i :: 0 <= i < |f.log| ==> RecOk(f.posted, f.log[i]);
  }

  lemma EntryPkt(v: View, f: Flow, i: nat)
    requires Represents(v, f) && f.base <= i < |f.log|
    ensures |v.st| == MAX_WIN_LEN && v.st[Pos(i)].pkt == f.log[i].pkt
  {
    Entry(v, f, i);
  }

  lemma Transmitted(v: View, f: Flow, i: nat)
    requires Represents(v, f) && i < |f.log|
    ensures Represents(v.(stream := v.stream + [f.log[i].pkt]), f.(wire := f.wire + [Sent(i, f.log[i].pkt)]))
  {
    hide PktCount, Psn, Holds;
    PacketsSnoc(f.wire, Sent(i, f.log[i].pkt));
    var t := f.(wire := f.wire + [Sent(i, f.log[i].pkt)]);
    assert Inv(t);
    RingHoldsFrame(v.st, f, t);
    CountersFrame(v.groupPsn, f, t);
    hide RingHolds, CountersHold, Inv, Serials, FirstIdx, Sane;
  }

  /** The ring depends on the flow's history only. */
  lemma RingHoldsFrame(st: seq<PktState>, f: Flow, t: Flow)
    requires Sane(f) && Sane(t) && RingHolds(st, f)
    requires t.posted == f.posted && t.log == f.log && t.acked == f.acked && f.base <= t.base
    ensures RingHolds(st, t)
  {
    forall i | t.base <= i < |t.log| ensures Holds(st[Pos(i)], t, i) {
      assert Holds(st[Pos(i)], f, i);
    }
  }

  lemma RingAfterPost(st: seq<PktState>, f: Flow, sub: SubOp)
    requires Shape(f) && RingHolds(st, f) && JobOk(sub, |f.mem|)
    ensures Sane(Post(f, sub)) && RingHolds(st, Post(f, sub))
  {
    var t := Post(f, sub);
    forall i | 0 <= i < |f.log| ensures RecOk(t.posted, t.log[i]) { assert RecOk(f.posted, f.log[i]); }
    forall i | f.base <= i < |f.log| ensures Holds(st[Pos(i)], t, i) {
      assert Holds(st[Pos(i)], f, i);
      var j := f.log[i].job;
      NumberingAppend(f.posted, t.posted[|f.posted|], j, Gid(f.posted, j));
    }
  }

  lemma CountersAfterPost(m: map<nat, nat>, f: Flow, sub: SubOp)
    requires Sane(f) && CountersHold(m, f) && JobOk(sub, |f.mem|) && Sane(Post(f, sub))
    ensures CountersHold(m, Post(f, sub))
  {
    var t := Post(f, sub);
    forall g: nat ensures Get(m, g) == Psn(Serials(t.posted, Started(t), g)) {
      NumberingAppend(f.posted, t.posted[|f.posted|], Started(f), g);
    }
  }

  /** Filling the entry at the right edge leaves the window's entries alone. */
  lemma RingAfterFill(st: seq<PktState>, e: PktState, f: Flow)
    requires Shape(f) && RingHolds(st, f) && f.popped < |f.posted| && Win(f) < MAX_WIN_LEN - 1
    requires Sane(Fill(f)) && Holds(e, Fill(f), |f.log|)
    ensures RingHolds(st[Pos(|f.log|) := e], Fill(f))
  {
    var t := Fill(f);
    var n := |f.log|;
    forall i | t.base <= i < |t.log| ensures Holds(st[Pos(n) := e][Pos(i)], t, i) {
      if i < n {
        PosDistinct(i, n);
        assert Holds(st[Pos(i)], f, i);
      }
    }
  }

  lemma RingAfterAck(st: seq<PktState>, f: Flow, i: nat, p: Payload)
    requires Shape(f) && RingHolds(st, f) && f.base <= i < |f.log|
    requires Sane(Ack(f, i, p))
    ensures RingHolds(st[Pos(i) := st[Pos(i)].(acked := true)], Ack(f, i, p))
  {
    var t := Ack(f, i, p);
    forall k | t.base <= k < |t.log| ensures Holds(st[Pos(i) := st[Pos(i)].(acked := true)][Pos(k)], t, k) {
      assert Holds(st[Pos(k)], f, k);
      if k != i { PosDistinct(i, k); }
    }
  }

  /** Starting a sub-operation advances only its group's counter, by its packets. */
  lemma CountersAfterStart(m: map<nat, nat>, f: Flow)
    requires Sane(f) && CountersHold(m, f) && f.sent == 0 && f.popped < |f.posted|
    ensures var g, n := Gid(f.posted, f.popped), Count(f.posted, f.popped);
            Sane(Fill(f)) && CountersHold(m[g := (Get(m, g) + n) % TWO32], Fill(f))
  {
    GenSane(f);
    var t := Fill(f);
    var gid, n := Gid(f.posted, f.popped), Count(f.posted, f.popped);
    var m' := m[gid := (Get(m, gid) + n) % TWO32];
    assert Started(t) == f.popped + 1;
    forall g: nat ensures Get(m', g) == Psn(Serials(t.posted, Started(t), g)) {
      assert Get(m, g) == Psn(Serials(f.posted, f.popped, g));
      hide PktCount;
      AddPsn(Serials(f.posted, f.popped, g), n);
    }
  }

  lemma AddPsn(a: nat, n: nat)
    ensures (Psn(a) + n) % TWO32 == Psn(a + n)
  {
    Modular.AddMultiple(a / TWO32, Psn(a) + n, TWO32);
  }

  lemma CountersAfterMore(m: map<nat, nat>, f: Flow)
    requires Sane(f) && CountersHold(m, f) && f.sent > 0
    ensures Sane(Fill(f)) && CountersHold(m, Fill(f))
  {
    GenSane(f);
    var t := Fill(f);
    assert Started(t) == Started(f);
    forall g: nat ensures Get(m, g) == Psn(Serials(t.posted, Started(t), g)) {
      assert Get(m, g) == Psn(Serials(f.posted, Started(f), g));
    }
  }

  lemma EdgesFrame(toAck: nat, leftPsn: nat, toSend: nat, rightPsn: nat, f: Flow, t: Flow)
    requires Sane(f) && Sane(t) && LeftEdge(toAck, leftPsn, f) && RightEdge(toSend, rightPsn, f)
    requires t.posted == f.posted && t.log == f.log && t.base == f.base
    ensures LeftEdge(toAck, leftPsn, t) && RightEdge(toSend, rightPsn, t)
  {}

  lemma EdgesAfterPost(toAck: nat, leftPsn: nat, toSend: nat, rightPsn: nat, f: Flow, sub: SubOp)
    requires Sane(f) && LeftEdge(toAck, leftPsn, f) && RightEdge(toSend, rightPsn, f) && JobOk(sub, |f.mem|)
    ensures Sane(Post(f, sub)) && LeftEdge(toAck, leftPsn, Post(f, sub)) && RightEdge(toSend, rightPsn, Post(f, sub))
  {
    var t := Post(f, sub);
    forall i | 0 <= i < |f.log| ensures RecOk(t.posted, t.log[i]) && SerialAt(f, i) == Serial(t.posted, t.log[i].job, t.log[i].chunk) {
      assert RecOk(f.posted, f.log[i]);
      var j := f.log[i].job;
      NumberingAppend(f.posted, t.posted[|f.posted|], j, Gid(f.posted, j));
    }
  }

  lemma RxFresh(f: Flow, p: RxPacket, i: nat)
    requires Sane(f) && Find(f, p.groupId, p.psn) == Some(i) && !f.acked[i]
    ensures var t := Ack(f, i, p.payload);
      && |t.acked| == |t.log| && t.base == f.base <= i < |t.log|
      && Rx(f, p) == t.(wire := t.wire + Resend(t, RunStart(t, i), i))
      && (i == f.base || t.acked[i - 1] ==> Rx(f, p) == t)
  {
    hide PktCount, Psn, Serials;
    var t := Ack(f, i, p.payload);
    if i == f.base || t.acked[i - 1] {
      assert t.wire + [] == t.wire;
    }
  }

  lemma EdgesAfterBurst(toAck: nat, toSend: nat, v: View, f: Flow)
    requires Represents(v, f) && toAck == Pos(f.base) && toSend == Pos(|f.log|)
    ensures Sane(f) && |v.st| == MAX_WIN_LEN && toAck < MAX_WIN_LEN
    ensures (toAck == toSend) == (f.base == |f.log|)
    ensures RightEdge(toSend, if toAck == toSend then 0 else v.st[PrevPos(toSend)].pkt.psn, f)
    ensures LeftEdge(toAck, if toAck == toSend then 0 else v.st[toAck].pkt.psn, f)
  {
    if f.base < |f.log| {
      PosDistinct(f.base, |f.log|);
      Entry(v, f, |f.log| - 1);
      Entry(v, f, f.base);
      PosSteps(|f.log| - 1);
    }
  }

  // ----- how the whole view changes -----

  lemma Acknowledged(v: View, f: Flow, i: nat, p: Payload)
    requires Represents(v, f) && f.base <= i < |f.log|
    ensures |v.st| == MAX_WIN_LEN && Sane(f)
    ensures Represents(v.(st := v.st[Pos(i) := v.st[Pos(i)].(acked := true)], mem := Ack(f, i, p).mem), Ack(f, i, p))
  {
    Parts(v, f);
    assert v.group == f.group && v.limit == f.limit;
    AckParts(f, i, p);
    hide *;
    AckKeeps(f, i, p);
    RingAfterAck(v.st, f, i, p);
    CountersFrame(v.groupPsn, f, Ack(f, i, p));
    MemoryWhole(v, f, v.(st := v.st[Pos(i) := v.st[Pos(i)].(acked := true)], mem := Ack(f, i, p).mem), Ack(f, i, p));
  }

  lemma AckParts(f: Flow, i: nat, p: Payload)
    requires Inv(f) && i < |f.log|
    ensures Sane(Ack(f, i, p)) && Pos(i) < MAX_WIN_LEN
    ensures var t := Ack(f, i, p);
      && t.posted == f.posted && t.popped == f.popped && t.sent == f.sent && t.done == f.done && t.wire == f.wire
      && t.group == f.group && t.limit == f.limit
  {
    hide PktCount, FirstIdx;
  }

  lemma MemoryWhole(v: View, f: Flow, w: View, t: Flow)
    requires Represents(v, f) && Inv(t) && Sane(t)
    requires RingHolds(w.st, t) && CountersHold(w.groupPsn, t) && w.mem == t.mem
    requires w == v.(st := w.st, mem := w.mem)
    requires t.posted == f.posted && t.popped == f.popped && t.sent == f.sent && t.done == f.done && t.wire == f.wire
    requires t.group == f.group && t.limit == f.limit
    ensures Represents(w, t)
  {
    hide RingHolds, CountersHold, Inv, PktCount;
  }

  /** What the entry says about where a received payload goes. */
  lemma EntryTarget(v: View, f: Flow, i: nat, p: Payload)
    requires Represents(v, f) && f.base <= i < |f.log|
    ensures |v.st| == MAX_WIN_LEN && i < |f.acked| && Sane(f)
    ensures var e := v.st[Pos(i)];
      && e.size <= PAYLOAD_SIZE && e.data + e.size <= |f.mem|
      && (Reducing(e.subOp.op.code) ==> e.size % 4 == 0)
      && Ack(f, i, p).mem ==
           if NeedRx(e.subOp.op) then WriteAt(f.mem, e.data, Wire(e.subOp.op.code, p[..e.size])) else f.mem
  {
    Entry(v, f, i);
    assert RecOk(f.posted, f.log[i]);
    hide WriteAt, Wire, PktCount;
  }

  lemma Enqueued(v: View, f: Flow, sub: SubOp)
    requires Represents(v, f) && JobOk(sub, |f.mem|) && v.credits < QUEUE_SIZE
    requires f.done < |f.posted| ==> Gid(f.posted, f.done) == sub.op.group.id
    ensures Represents(v.(wq := v.wq + [sub], credits := v.credits + 1), Post(f, sub))
  {
    hide RingHolds, CountersHold, Packets, Shape, OneGroup, GroupNow, MakePacket, PktCount, FirstIdx;
    RepInv(v, f);
    PostKeeps(f, sub);
    SaneOf(f);
    SaneOf(Post(f, sub));
    RingAfterPost(v.st, f, sub);
    CountersAfterPost(v.groupPsn, f, sub);
    GeneratorAfterPost(v, f, sub);
    hide GeneratorHolds, Inv;
  }

  lemma GeneratorAfterPost(v: View, f: Flow, sub: SubOp)
    requires Sane(f) && GeneratorHolds(v, f) && JobOk(sub, |f.mem|)
    ensures Sane(Post(f, sub)) && GeneratorHolds(v, Post(f, sub))
  {
    hide PktCount, FirstIdx, MakePacket;
    var t := Post(f, sub);
    if f.sent > 0 {
      NumberingAppend(f.posted, t.posted[|f.posted|], f.popped, Gid(f.posted, f.popped));
    }
  }

  lemma Collected(v: View, f: Flow)
    requires Represents(v, f) && v.cq != []
    ensures v.taken < |f.posted| && v.cq[0] == f.posted[v.taken].sub && v.credits > 0
    ensures Represents(v.(cq := v.cq[1..], credits := v.credits - 1, taken := v.taken + 1), f)
  {
    assert f.done <= |f.posted|;
    hide RingHolds, CountersHold, Packets, Inv, PktCount, Serials;
  }

  lemma MemoryWritten(v: View, f: Flow, m: seq<Byte>)
    requires Represents(v, f) && |m| == |f.mem|
    ensures Represents(v.(mem := m), f.(mem := m))
  {
    RingHoldsFrame(v.st, f, f.(mem := m));
    CountersFrame(v.groupPsn, f, f.(mem := m));
    hide RingHolds, CountersHold, PktCount;
  }

  lemma CountersFrame(m: map<nat, nat>, f: Flow, t: Flow)
    requires Sane(f) && Sane(t) && CountersHold(m, f)
    requires t.posted == f.posted && t.popped == f.popped && t.sent == f.sent
    ensures CountersHold(m, t)
  {
    assert Started(t) == Started(f);
  }

  /** Releasing the left entry; its last packet pushes the response of the right sub-operation. */
  lemma Released(v: View, f: Flow)
    requires Represents(v, f) && f.base < |f.log| && f.acked[f.base]
    ensures |v.st| == MAX_WIN_LEN && |v.cq| < QUEUE_SIZE
    ensures var e := v.st[Pos(f.base)];
            Represents(v.(cq := if e.isLast then v.cq + [e.subOp] else v.cq), Release(f))
  {
    Entry(v, f, f.base);
    ReleaseKeeps(f);
    WindowIsLive(f, f.base);
    var t := Release(f);
    RingHoldsFrame(v.st, f, t);
    CountersFrame(v.groupPsn, f, t);
    ReleasedQueue(v, f);
    hide RingHolds, CountersHold, QueueHolds, PktCount, FirstIdx, Packets, Inv, Serials, Psn, Holds;
  }

  lemma ReleasedQueue(v: View, f: Flow)
    requires Sane(f) && f.base < |f.log| && RecOk(f.posted, f.log[f.base]) && Sane(Release(f))
    requires QueueHolds(v.wq, v.cq, v.taken, f) && v.credits == |f.posted| - v.taken <= QUEUE_SIZE
    requires |v.st| == MAX_WIN_LEN && Holds(v.st[Pos(f.base)], f, f.base)
    requires f.log[f.base].job == f.done
    ensures |v.cq| < QUEUE_SIZE
    ensures var e := v.st[Pos(f.base)];
            QueueHolds(v.wq, if e.isLast then v.cq + [e.subOp] else v.cq, v.taken, Release(f))
  {
    hide PktCount, Serials, Psn, FirstIdx, MakePacket, Holds, JobOk, Count, QueueHolds;
    var e := v.st[Pos(f.base)];
    ReleasedEntry(e, f);
    QueueAnswers(v.wq, v.cq, v.taken, f, Release(f), e.subOp);
    QueueRoom(v.wq, v.cq, v.taken, f);
  }

  lemma QueueRoom(wq: seq<SubOp>, cq: seq<SubOp>, taken: nat, f: Flow)
    requires Sane(f) && QueueHolds(wq, cq, taken, f) && |f.posted| - taken <= QUEUE_SIZE && f.done < |f.posted|
    ensures |cq| < QUEUE_SIZE
  {
    hide PktCount, JobOk, RecOk;
  }

  lemma QueueAnswers(wq: seq<SubOp>, cq: seq<SubOp>, taken: nat, f: Flow, t: Flow, sub: SubOp)
    requires Sane(f) && Sane(t) && QueueHolds(wq, cq, taken, f)
    requires t.posted == f.posted && t.popped == f.popped && f.done <= t.done <= f.done + 1
    requires f.done < |f.posted| && sub == f.posted[f.done].sub
    ensures QueueHolds(wq, if t.done == f.done then cq else cq + [sub], taken, t)
  {
    hide Sane;
    CqMore(f.posted, cq, taken, f.done, sub);
  }

  lemma CqMore(ps: seq<Job>, cq: seq<SubOp>, taken: nat, done: nat, sub: SubOp)
    requires taken <= done < |ps| && |cq| == done - taken && sub == ps[done].sub
    requires forall k :: 0 <= k < |cq| ==> cq[k] == ps[taken + k].sub
    ensures forall k :: 0 <= k < |cq| + 1 ==> (cq + [sub])[k] == ps[taken + k].sub
  {}

  lemma ReleasedEntry(e: PktState, f: Flow)
    requires Sane(f) && f.base < |f.log| && RecOk(f.posted, f.log[f.base]) && Holds(e, f, f.base)
    ensures var r := f.log[f.base];
      e.subOp == f.posted[r.job].sub && e.isLast == (r.chunk + 1 == Count(f.posted, r.job))
  {
    hide PktCount, Serials, Psn, FirstIdx, MakePacket;
  }

  /** The entry that the generator writes for the next packet. */
  function NextEntry(f: Flow): PktState
    requires f.popped < |f.posted| && f.sent < Count(f.posted, f.popped)
    requires JobOk(f.posted[f.popped].sub, |f.mem|)
  {
    var sub := f.posted[f.popped].sub;
    PktState(false, sub, sub.data + PAYLOAD_SIZE * f.sent, ChunkLen(sub.size, f.sent),
             Psn(Serial(f.posted, f.popped, f.sent)), f.sent + 1 == Count(f.posted, f.popped), NextRec(f).pkt)
  }

  /** The sequence counters once the sub-operation of the next packet has been started. */
  function NextCounters(m: map<nat, nat>, f: Flow): map<nat, nat>
    requires f.popped < |f.posted|
  {
    var g := Gid(f.posted, f.popped);
    if f.sent == 0 then m[g := (Get(m, g) + Count(f.posted, f.popped)) % TWO32] else m
  }

  /** The generator's variables once it has a sub-operation in progress. */
  function TakenView(v: View, f: Flow): View
    requires f.popped < |f.posted|
  {
    var sub := f.posted[f.popped].sub;
    var g, n := sub.op.group.id, Count(f.posted, f.popped);
    if f.sent > 0 then v
    else v.(group := g, limit := sub.aggLen / 2, sub := Some(sub), pktSent := 0,
            startPsn := Get(v.groupPsn, g), pktCnt := n, groupPsn := NextCounters(v.groupPsn, f))
  }

  /** The generator's variables after it has written a packet. */
  function AfterPacket(v: View, f: Flow): (w: View)
    requires f.popped < |f.posted| && f.sent < Count(f.posted, f.popped)
    requires JobOk(f.posted[f.popped].sub, |f.mem|)
    requires v.wq != [] && |v.st| == MAX_WIN_LEN
    ensures w.mem == v.mem && w.stream == v.stream && w.credits == v.credits && w.taken == v.taken && w.cq == v.cq
    ensures v.group == f.group && v.limit == f.limit ==> w.group == Fill(f).group && w.limit == Fill(f).limit
  {
    var sub := f.posted[f.popped].sub;
    var g, n := sub.op.group.id, Count(f.posted, f.popped);
    var first, last := f.sent == 0, f.sent + 1 == n;
    v.(st := v.st[Pos(|f.log|) := NextEntry(f)],
       wq := if last then v.wq[1..] else v.wq,
       group := if first then g else v.group,
       limit := if first then sub.aggLen / 2 else v.limit,
       sub := if last then None else Some(sub),
       pktSent := f.sent + 1,
       startPsn := if first then Get(v.groupPsn, g) else v.startPsn,
       pktCnt := n,
       groupPsn := NextCounters(v.groupPsn, f))
  }

  /** Writing the packet changes the slot, the request queue and two of the generator's variables. */
  lemma AfterTaken(v: View, f: Flow)
    requires f.popped < |f.posted| && f.sent < Count(f.posted, f.popped)
    requires JobOk(f.posted[f.popped].sub, |f.mem|)
    requires v.wq != [] && |v.st| == MAX_WIN_LEN
    requires f.sent > 0 ==> v.sub == Some(f.posted[f.popped].sub) && v.pktCnt == Count(f.posted, f.popped)
    ensures var t, e := TakenView(v, f), NextEntry(f);
      && t.st == v.st && t.wq == v.wq
      && t.sub == Some(f.posted[f.popped].sub) && t.pktSent == (if f.sent > 0 then v.pktSent else 0)
      && AfterPacket(v, f) == t.(st := v.st[Pos(|f.log|) := e], wq := if e.isLast then v.wq[1..] else v.wq,
                                 sub := if e.isLast then None else t.sub, pktSent := f.sent + 1)
  {
    hide NextRec, PktCount, Psn, Get;
  }

  lemma GeneratorAfter(v: View, f: Flow)
    requires Sane(f) && f.popped < |f.posted| && GeneratorHolds(v, f) && CountersHold(v.groupPsn, f)
    requires v.wq != [] && |v.st| == MAX_WIN_LEN
    ensures Sane(Fill(f)) && GeneratorHolds(AfterPacket(v, f), Fill(f))
  {
    GenSane(f);
    if f.sent == 0 {
      assert Get(v.groupPsn, Gid(f.posted, f.popped)) == Psn(Serials(f.posted, f.popped, Gid(f.posted, f.popped)));
    }
    hide CountersHold, NextEntry, NextRec, Psn, PktCount, Serials, Sane;
  }

  lemma QueueAfter(v: View, f: Flow)
    requires Sane(f) && f.popped < |f.posted| && QueueHolds(v.wq, v.cq, v.taken, f) && |v.st| == MAX_WIN_LEN
    ensures v.wq != [] && v.wq[0] == f.posted[f.popped].sub
    ensures Sane(Fill(f)) && var w := AfterPacket(v, f); QueueHolds(w.wq, w.cq, w.taken, Fill(f))
  {
    GenSane(f);
    AfterQueues(v, f);
    FillQueues(f);
    hide NextEntry, NextRec, PktCount, Fill, AfterPacket, JobOk;
    QueueMoves(v.wq, v.cq, v.taken, f, Fill(f));
  }

  lemma AfterQueues(v: View, f: Flow)
    requires f.popped < |f.posted| && f.sent < Count(f.posted, f.popped) && JobOk(f.posted[f.popped].sub, |f.mem|)
    requires v.wq != [] && |v.st| == MAX_WIN_LEN
    ensures AfterPacket(v, f).wq == if f.sent + 1 == Count(f.posted, f.popped) then v.wq[1..] else v.wq
  {
    hide NextEntry, PktCount, Pos;
  }

  lemma FillQueues(f: Flow)
    requires f.popped < |f.posted| && f.sent < Count(f.posted, f.popped) && JobOk(f.posted[f.popped].sub, |f.mem|)
    ensures var t := Fill(f);
      t.done == f.done && t.posted == f.posted && t.popped == f.popped + if f.sent + 1 == Count(f.posted, f.popped) then 1 else 0
  {
    hide NextRec, PktCount;
  }

  lemma QueueMoves(wq: seq<SubOp>, cq: seq<SubOp>, taken: nat, f: Flow, t: Flow)
    requires Sane(f) && Sane(t) && QueueHolds(wq, cq, taken, f) && wq != []
    requires t.posted == f.posted && t.done == f.done && f.popped <= t.popped <= f.popped + 1
    ensures QueueHolds(if t.popped == f.popped then wq else wq[1..], cq, taken, t)
  {
    hide PktCount, JobOk, RecOk;
  }

  lemma RingAfterPacket(v: View, f: Flow)
    requires Shape(f) && RingHolds(v.st, f) && f.popped < |f.posted| && Win(f) < MAX_WIN_LEN - 1
    ensures Sane(Fill(f)) && RingHolds(v.st[Pos(|f.log|) := NextEntry(f)], Fill(f))
  {
    GenSane(f);
    assert Holds(NextEntry(f), Fill(f), |f.log|);
    RingAfterFill(v.st, NextEntry(f), f);
  }

  lemma CountersAfterPacket(m: map<nat, nat>, f: Flow)
    requires Sane(f) && CountersHold(m, f) && f.popped < |f.posted|
    ensures Sane(Fill(f))
    ensures CountersHold(NextCounters(m, f), Fill(f))
  {
    if f.sent == 0 { CountersAfterStart(m, f); } else { CountersAfterMore(m, f); }
  }

  lemma Parts(v: View, f: Flow)
    requires Represents(v, f)
    ensures (f.popped < |f.posted| <==> v.wq != []) && (f.sent > 0 ==> f.popped < |f.posted|)
    ensures Inv(f) && Shape(f) && Sane(f) && RingHolds(v.st, f) && |v.st| == MAX_WIN_LEN
    ensures GeneratorHolds(v, f) && CountersHold(v.groupPsn, f) && QueueHolds(v.wq, v.cq, v.taken, f)
  {}

  lemma Whole(v: View, f: Flow, w: View, t: Flow)
    requires Represents(v, f) && Inv(t) && Sane(t)
    requires RingHolds(w.st, t) && GeneratorHolds(w, t) && CountersHold(w.groupPsn, t) && QueueHolds(w.wq, w.cq, w.taken, t)
    requires w.mem == v.mem && w.stream == v.stream && w.credits == v.credits && w.taken == v.taken
    requires t.mem == f.mem && t.wire == f.wire && t.posted == f.posted
    requires w.group == t.group && w.limit == t.limit
    ensures Represents(w, t)
  {}

  lemma Generated(v: View, f: Flow, lookedEmpty: bool)
    requires Represents(v, f) && CanGen(f, lookedEmpty) && Win(f) < MAX_WIN_LEN - 1
    requires lookedEmpty ==> f.base == |f.log| || f.done < |f.posted|
    ensures v.wq != [] && |v.st| == MAX_WIN_LEN && Sane(f)
    ensures v.wq[0] == f.posted[f.popped].sub
    ensures Represents(AfterPacket(v, f), Fill(f))
  {
    Parts(v, f);
    assert v.group == f.group && v.limit == f.limit;
    hide *;
    QueueAfter(v, f);
    FillKeeps(f, lookedEmpty);
    RingAfterPacket(v, f);
    CountersAfterPacket(v.groupPsn, f);
    GeneratorAfter(v, f);
    AfterPacketParts(v, f);
    Whole(v, f, AfterPacket(v, f), Fill(f));
  }

  lemma AfterPacketParts(v: View, f: Flow)
    requires Sane(f) && f.popped < |f.posted| && v.wq != [] && |v.st| == MAX_WIN_LEN
    ensures AfterPacket(v, f).st == v.st[Pos(|f.log|) := NextEntry(f)]
    ensures AfterPacket(v, f).groupPsn == NextCounters(v.groupPsn, f)
  {}

  lemma FillKeeps(f: Flow, lookedEmpty: bool)
    requires Inv(f) && CanGen(f, lookedEmpty) && Win(f) < MAX_WIN_LEN - 1
    requires lookedEmpty ==> f.base == |f.log| || f.done < |f.posted|
    ensures Inv(Fill(f))
  {
    GenKeeps(f, lookedEmpty);
    hide PktCount, FirstIdx;
  }

  lemma RightEdgeAfterShift(toSend: nat, rightPsn: nat, f: Flow)
    requires Inv(f) && RightEdge(toSend, rightPsn, f)
    ensures Sane(ShiftAck(f)) && RightEdge(toSend, rightPsn, ShiftAck(f))
    ensures toSend == Pos(|ShiftAck(f).log|)
  {
    hide ShiftAck, PktCount, FirstIdx, Shape, OneGroup, GroupNow, Serials;
    ShiftAckKeeps(f);
    ShiftAckFrame(f);
    SaneOf(f);
    SaneOf(ShiftAck(f));
    hide Sane;
  }

  lemma WinBound(v: View, f: Flow)
    requires Represents(v, f)
    ensures 0 <= Win(f) < MAX_WIN_LEN
  {}

  lemma RepInv(v: View, f: Flow)
    requires Represents(v, f)
    ensures Inv(f)
  {}

  /** The loop test of shift_ack is the condition for releasing one more packet. */
  lemma StepOfShiftAck(v: View, f: Flow, pos: nat, toSend: nat)
    requires Represents(v, f) && Sane(f) && Releasable(f) && pos == Pos(f.base) && toSend == Pos(|f.log|)
    requires |v.st| == MAX_WIN_LEN && pos != toSend && v.st[pos].acked
    ensures f.base < |f.log| && f.base < |f.acked| && f.acked[f.base]
    ensures f.log[f.base].job < |f.posted| && Releasable(Release(f))
    ensures Release(f).base == f.base + 1 && Release(f).log == f.log && ShiftAck(f) == ShiftAck(Release(f))
  {
    EntryAcked(v, f, f.base);
  }

  lemma EndOfShiftAck(v: View, f: Flow, pos: nat, toSend: nat)
    requires Represents(v, f) && Releasable(f) && pos == Pos(f.base) && toSend == Pos(|f.log|)
    requires |v.st| == MAX_WIN_LEN && (pos == toSend || !v.st[pos].acked)
    ensures ShiftAck(f) == f
  {
    if f.base < |f.log| {
      PosDistinct(f.base, |f.log|);
      EntryAcked(v, f, f.base);
    }
  }

  // ----- the generator, value by value -----

  /** Whether a packet can be generated, from what the worker sees. */
  lemma GenTest(v: View, f: Flow, lookedEmpty: bool)
    requires Represents(v, f)
    ensures CanGen(f, lookedEmpty) <==>
      v.sub.Some? || (v.wq != [] && (v.group == v.wq[0].op.group.id || lookedEmpty))
    ensures f.popped < |f.posted| <==> v.wq != []
    ensures v.sub.Some? ==> f.popped < |f.posted|
  {
    hide CountersHold, RingHolds;
  }

  lemma GenFields(v: View, f: Flow)
    requires Represents(v, f) && f.popped < |f.posted|
    ensures |v.st| == MAX_WIN_LEN && v.wq != [] && Sane(f)
    ensures var sub := f.posted[f.popped].sub;
      && v.wq[0] == sub && (v.sub.Some? ==> v.sub.value == sub)
      && (v.sub.Some? <==> f.sent > 0)
      && (v.sub.Some? ==> v.pktSent == f.sent && v.pktCnt == Count(f.posted, f.popped))
      && JobOk(sub, |v.mem|) && PAYLOAD_SIZE * f.sent <= sub.size
      && ChunkLen(sub.size, f.sent) == Min(PAYLOAD_SIZE, sub.size - PAYLOAD_SIZE * f.sent)
  {
    hide CountersHold;
  }

  /** The 32-bit sequence number of the next packet. */
  lemma GenPsn(v: View, f: Flow)
    requires Represents(v, f) && f.popped < |f.posted|
    ensures Sane(f)
    ensures var start := if f.sent == 0 then Get(v.groupPsn, Gid(f.posted, f.popped)) else v.startPsn;
      (start + f.sent) % TWO32 == Psn(Serial(f.posted, f.popped, f.sent))
  {
    assert Get(v.groupPsn, Gid(f.posted, f.popped)) == Psn(Serials(f.posted, Started(f), Gid(f.posted, f.popped)));
    hide CountersHold, RingHolds, Shape, PktCount, Packets, QueueHolds;
    AddPsn(Serials(f.posted, f.popped, Gid(f.posted, f.popped)), f.sent);
  }

  lemma FilledIsNext(f: Flow)
    requires Sane(f) && f.popped < |f.posted|
    ensures var sub := f.posted[f.popped].sub;
      NextRec(f).pkt == FilledPacket(sub, Psn(Serial(f.posted, f.popped, f.sent)), ChunkOf(f.mem, sub, f.sent))
  {}

  /** The left edge once the first packet of a burst is in its slot. */
  lemma LeftAfterFill(toAck: nat, leftPsn: nat, v: View, f: Flow)
    requires Sane(f) && f.popped < |f.posted| && Represents(v, Fill(f)) && LeftEdge(toAck, leftPsn, f)
    ensures |v.st| == MAX_WIN_LEN && toAck < MAX_WIN_LEN && Sane(Fill(f))
    ensures |Fill(f).log| == |f.log| + 1 && Fill(f).base == f.base <= |f.log|
    ensures LeftEdge(toAck, if f.base == |f.log| then v.st[toAck].pkt.psn else leftPsn, Fill(f))
  {
    var t := Fill(f);
    assert f.base < |f.log| ==> t.log[f.base] == f.log[f.base];
    Entry(v, t, f.base);
    hide PktCount, Serials, Psn;
  }

  lemma EdgeAfterSent(toAck: nat, leftPsn: nat, f: Flow, t: Flow)
    requires Sane(f) && f.popped < |f.posted| && Sane(Fill(f)) && LeftEdge(toAck, leftPsn, Fill(f))
    requires |Fill(f).log| == |f.log| + 1
    requires t == Fill(f).(wire := Fill(f).wire + [Sent(|f.log|, Fill(f).log[|f.log|].pkt)])
    ensures t == Gen(f) && Sane(t) && LeftEdge(toAck, leftPsn, t)
  {
    GenSane(f);
    hide PktCount, Serials, Psn;
  }

  // ----- the burst loop -----

  /** Room left of a burst that aims at `goal` packets. */
  function Left(goal: int, winLen: int): nat {
    if winLen < goal then goal - winLen else 0
  }

  /** What holds between two rounds of a burst from f. */
  ghost predicate Bursting(t: Flow, pos: nat, winLen: nat, f: Flow, lookedEmpty: bool, goal: int) {
    && Sane(f) && Sane(t)
    && pos == Pos(|t.log|) && winLen == Win(t)
    && (lookedEmpty ==> t.base == |t.log| || t.done < |t.posted|)
    && Burst(t, lookedEmpty, Left(goal, winLen)) == Burst(f, lookedEmpty, Left(goal, Win(f)))
  }

  /** What holds when the burst from f is over. */
  ghost predicate BurstOver(t: Flow, pos: nat, winLen: nat, f: Flow, lookedEmpty: bool, goal: int) {
    && Sane(f) && Sane(t) && t == Burst(f, lookedEmpty, Left(goal, Win(f)))
    && pos == Pos(|t.log|) && winLen == Win(t)
  }

  /** One more packet, or the burst is over. */
  lemma BurstRound(v: View, t: Flow, pos: nat, winLen: nat, f: Flow, lookedEmpty: bool, goal: int)
    requires Represents(v, t) && Bursting(t, pos, winLen, f, lookedEmpty, goal) && winLen < goal <= MAX_WIN_LEN - 1
    ensures Sane(f) && Sane(t) && pos == Pos(|t.log|) && winLen == Win(t)
    ensures lookedEmpty ==> t.base == |t.log| || t.done < |t.posted|
    ensures CanGen(t, lookedEmpty) ==>
      t.popped < |t.posted| && Bursting(Gen(t), NextPos(pos), winLen + 1, f, lookedEmpty, goal)
    ensures !CanGen(t, lookedEmpty) ==> BurstOver(t, pos, winLen, f, lookedEmpty, goal)
  {
    hide Represents, PktCount, FirstIdx, RecOk, Pos, NextPos, MakePacket, Serials;
    RepInv(v, t);
    if CanGen(t, lookedEmpty) {
      GenRound(t, lookedEmpty);
      hide Gen;
      PosSteps(|t.log|);
    }
  }

  lemma AckFrame(v: View, f: Flow, i: nat, p: Payload)
    requires Represents(v, f) && f.base <= i < |f.log|
    ensures Sane(f) && RecOk(f.posted, f.log[i]) && |f.log| == |f.acked|
    ensures var t := Ack(f, i, p); Sane(t) && t.posted == f.posted && t.log == f.log && t.base == f.base
  {
    hide RingHolds, GeneratorHolds, CountersHold, QueueHolds, Packets, PktCount, Received, OneGroup, GroupNow;
  }

  lemma ViewSane(v: View, f: Flow)
    requires Represents(v, f)
    ensures Sane(f)
  {}

  lemma GenRound(t: Flow, lookedEmpty: bool)
    requires Inv(t) && CanGen(t, lookedEmpty) && Win(t) < MAX_WIN_LEN - 1
    requires lookedEmpty ==> t.base == |t.log| || t.done < |t.posted|
    ensures t.popped < |t.posted| && t.sent < Count(t.posted, t.popped) && JobOk(t.posted[t.popped].sub, |t.mem|)
    ensures Sane(Gen(t)) && |Gen(t).log| == |t.log| + 1 && Win(Gen(t)) == Win(t) + 1
    ensures lookedEmpty ==> Gen(t).base == |Gen(t).log| || Gen(t).done < |Gen(t).posted|
  {
    hide PktCount, FirstIdx, MakePacket, Serials;
    GenSane(t);
  }

  lemma BurstLast(t: Flow, pos: nat, winLen: nat, f: Flow, lookedEmpty: bool, goal: int)
    requires Bursting(t, pos, winLen, f, lookedEmpty, goal) && winLen >= goal
    ensures BurstOver(t, pos, winLen, f, lookedEmpty, goal)
  {}

  lemma BurstStart(v: View, f: Flow, cwnd: nat)
    requires Represents(v, f)
    ensures Sane(f) && f.base <= |f.log| && 0 <= Win(f) <= MAX_WIN_LEN - 1
    ensures Win(f) == 0 ==> f.base == |f.log|
    ensures Burst(f, Win(f) == 0, Left(Target(f, cwnd), Win(f))) == ShiftSend(f, cwnd)
  {
    hide Burst, RingHolds, CountersHold, PktCount;
  }

  /** A finished burst, aimed at the target computed from the published window, is the send step. */
  lemma BurstIsShiftSend(v: View, f: Flow, t: Flow, pos: nat, winLen: nat, lookedEmpty: bool, cwnd: nat)
    requires Represents(v, f) && lookedEmpty == (f.base == |f.log|)
    requires BurstOver(t, pos, winLen, f, lookedEmpty, Target(f, cwnd))
    ensures Sane(f) && t == ShiftSend(f, cwnd) && Sane(t) && pos == Pos(|t.log|) && winLen == Win(t)
  {
    BurstStart(v, f, cwnd);
    hide Represents, Burst, Sane, PktCount;
  }

  /** The flow after the timeout check. */
  function AfterTimeout(f: Flow, late: bool): Flow
    requires Sane(f)
  {
    if late then FullRetrans(f) else f
  }

  lemma AfterTimeoutFacts(f: Flow, t: Flow, toAck: nat, leftPsn: nat, toSend: nat, rightPsn: nat)
    requires Sane(f) && Sane(t) && t == FullRetrans(f) && LeftEdge(toAck, leftPsn, f) && RightEdge(toSend, rightPsn, f)
    ensures LeftEdge(toAck, leftPsn, t) && RightEdge(toSend, rightPsn, t) && Win(t) == Win(f)
  {
    EdgesFrame(toAck, leftPsn, toSend, rightPsn, f, t);
  }

  /** A timeout with an empty window sends nothing. */
  lemma NothingToResend(f: Flow)
    requires Sane(f) && f.base == |f.log|
    ensures FullRetrans(f) == f
  {
    assert f.wire + [] == f.wire;
  }

  /** What gen_pkt does to the flow, and what it reports. */
  ghost predicate GenStep(f: Flow, t: Flow, ok: bool, lookedEmpty: bool) {
    && Sane(f)
    && (ok <==> CanGen(f, lookedEmpty))
    && t == if ok then Fill(f) else f
  }

  lemma GenStepFrom(f: Flow, ok: bool, lookedEmpty: bool)
    requires Sane(f) && (ok <==> CanGen(f, lookedEmpty))
    ensures ok ==> f.popped < |f.posted|
    ensures GenStep(f, if ok then Fill(f) else f, ok, lookedEmpty)
  {}

  /** The first look at a burst, from the published edges. */
  lemma BurstPrepared(v: View, toAck: nat, toSend: nat, leftPsn: nat, rightPsn: nat, f: Flow, goal: int)
    requires Represents(v, f) && Sane(f) && LeftEdge(toAck, leftPsn, f) && RightEdge(toSend, rightPsn, f)
    ensures f.base <= |f.log| && (toAck == toSend <==> f.base == |f.log|)
    ensures Bursting(f, toSend, Win(f), f, toAck == toSend, goal)
    ensures Win(f) == if toSend >= toAck then toSend - toAck else MAX_WIN_LEN + toSend - toAck
  {
    EmptyByEdges(toAck, toSend, leftPsn, rightPsn, f);
    hide Burst, PktCount, FirstIdx;
  }

  /** The packets of a batch, one after the other. */
  ghost function RxAll(f: Flow, batch: seq<RxPacket>): Flow
    requires Inv(f)
    decreases |batch|, 0
  {
    if batch == [] then f
    else
      var n := |batch| - 1;
      var t := RxAll(f, batch[..n]);
      RxAllKeeps(f, batch[..n]);
      Rx(t, batch[n])
  }

  lemma {:induction false} RxAllKeeps(f: Flow, batch: seq<RxPacket>)
    requires Inv(f)
    ensures Inv(RxAll(f, batch))
    decreases |batch|, 1
  {
    if batch != [] {
      var n := |batch| - 1;
      RxAllKeeps(f, batch[..n]);
      RxKeeps(RxAll(f, batch[..n]), batch[n]);
    }
  }
}
