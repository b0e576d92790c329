/** The worker thread as the source writes it (server/backend/worker.cpp): a ring of 1024 packet
    states, 32-bit wrapping sequence numbers, and edges published at the end of a burst. Every
    method is proved to take the corresponding step of `Transport` on the ghost `flow`. */
module WorkerThread {
  import opened NetCommon
  import opened Encoding
  import opened Transport
  import opened TransportShape
  import opened TransportMemory
  import opened Ring
  import opened QueuePairs
  import opened ProcessBuffers
  import CC = CongestionControl
  import TR = TransportRuns

  const INVALID_POSITION: nat := 0xFFFF_FFFF
  const TIMEOUT_TIME: nat := 1000

  /** Unsigned 32-bit subtraction. */
  function Sub32(a: nat, b: nat): nat {
    (a - b) % TWO32
  }

  class Worker {
    const state: array<PktState>
    const mem: array<Byte>
    const qp: QueuePair<SubOp>
    const tx: ProcessBuffer<Packet>
    const cc: CC.Controller

    var toAck: nat
    var toSend: nat
    var leftPsn: nat
    var rightPsn: nat
    var lastAckTs: nat
    var prevAckCnt: nat

    var currentGroupId: nat
    var switchWindowLimit: nat

    // the generator's static variables
    var subOp: Option<SubOp>
    var pktSent: nat
    var startPsn: nat
    var pktCnt: nat
    var groupPsn: map<nat, nat>

    ghost var flow: Flow
    /** Responses that the load balancer has taken. */
    ghost var taken: nat

    ghost function Repr(): set<object> {
      {this, state, mem, qp, tx, tx.nic, tx.txBufs, tx.rxBufs, cc}
    }

    ghost function Seen(): View
      reads this, state, mem, qp, tx, tx.nic, tx.txBufs, tx.rxBufs
      requires tx.Valid()
    {
      View(state[..], mem[..], qp.wq, qp.cq, qp.numInQueue, taken,
           tx.Stream(), currentGroupId, switchWindowLimit,
           subOp, pktSent, startPsn, pktCnt, groupPsn)
    }

    /** Everything but the published edges. */
    ghost predicate Inner()
      reads Repr()
    {
      tx.Valid() && state.Length == MAX_WIN_LEN && Represents(Seen(), flow) && CC.Bounded(cc.Val())
    }

    ghost predicate LeftHolds()
      reads this
    {
      Sane(flow) && LeftEdge(toAck, leftPsn, flow)
    }

    ghost predicate Valid()
      reads Repr()
    {
      Inner() && LeftHolds() && RightEdge(toSend, rightPsn, flow)
    }

    constructor (mem: array<Byte>, qp: QueuePair<SubOp>, tx: ProcessBuffer<Packet>, blank: PktState)
      requires qp.Val() == EmptyQp()
      requires tx.Valid() && tx.Stream() == []
      ensures Valid() && flow == Start(mem[..]) && taken == 0
      ensures this.mem == mem && this.qp == qp && this.tx == tx && fresh(state) && fresh(cc)
    {
      this.mem, this.qp, this.tx := mem, qp, tx;
      state := new PktState[MAX_WIN_LEN](_ => blank);
      cc := new CC.Controller();
      toAck, toSend, leftPsn, rightPsn, lastAckTs, prevAckCnt := 0, 0, 0, 0, 0, 0;
      currentGroupId, switchWindowLimit := 0, CC_CWND_MIN;
      subOp, pktSent, startPsn, pktCnt, groupPsn := None, 0, 0, 0, map[];
      flow, taken := Start(mem[..]), 0;
      new;
    }

    // ----- looking up an acknowledgement -----

    /** window_tx_empty: the published edges meet exactly when the window is empty. */
    lemma WindowTxEmpty()
      requires Valid()
      ensures Sane(flow) && (toAck == toSend <==> Win(flow) == 0)
    {
      EmptyByEdges(toAck, toSend, leftPsn, rightPsn, flow);
    }

    method WindowLen() returns (n: nat)
      requires Valid()
      ensures n == Win(flow)
    {
      EmptyByEdges(toAck, toSend, leftPsn, rightPsn, flow);
      hide Represents, Inv;
      n := if toSend >= toAck then toSend - toAck else MAX_WIN_LEN + toSend - toAck;
    }

    /** Slot of the window entry that the packet names, if there is one: the unsigned comparison of
        distances decides exactly that, across the wrap of the sequence numbers. */
    method GetPosition(p: RxPacket) returns (position: nat)
      requires Valid() && p.psn < TWO32
      ensures Sane(flow)
      ensures position == match Find(flow, p.groupId, p.psn) case None => INVALID_POSITION case Some(i) => Pos(i)
    {
      hide RingHolds, GeneratorHolds, CountersHold, QueueHolds, Packets, Sane, Find, Pos, LeftEdge, RightEdge, Shape, OneGroup, GroupNow, CC.Bounded;
      PositionExact(toAck, toSend, leftPsn, rightPsn, flow, p.groupId, p.psn);
      ViewSane(Seen(), flow);
      assert currentGroupId == flow.group;
      hide Represents;
      position := INVALID_POSITION;
      if toAck == toSend || currentGroupId != p.groupId {
        return;
      }
      if Sub32(p.psn, leftPsn) <= Sub32(rightPsn, leftPsn) {
        position := Sub32(p.psn, leftPsn) + toAck;
        if position >= MAX_WIN_LEN { position := position - MAX_WIN_LEN; }
      }
    }

    // ----- transmission -----

    /** Send the packet of a slot and keep the slot. */
    method Transmit(position: nat, ghost i: nat)
      requires Inner() && flow.base <= i < |flow.log| && position == Pos(i)
      modifies this`flow, tx`txNb, tx`flushTimer, tx.nic, tx.txBufs
      ensures Inner()
      ensures flow == old(flow).(wire := old(flow).wire + [Sent(i, old(flow).log[i].pkt)])
    {
      hide Represents;
      ghost var v := Seen();
      EntryPkt(v, flow, i);
      Transmitted(v, flow, i);
      tx.Send(state[position].pkt);
      flow := flow.(wire := flow.wire + [Sent(i, flow.log[i].pkt)]);
      assert Seen() == v.(stream := tx.Stream());
    }

    method TransmitRange(begin: nat, end: nat, ghost i: nat, ghost j: nat)
      requires Inner() && flow.base <= i <= j <= |flow.log| && j < i + MAX_WIN_LEN
      requires begin == Pos(i) && end == Pos(j)
      modifies this`flow, tx`txNb, tx`flushTimer, tx.nic, tx.txBufs
      ensures Inner()
      ensures flow == old(flow).(wire := old(flow).wire + Resend(old(flow), i, j))
    {
      hide Represents, Pos, NextPos;
      var p := begin;
      ghost var k := i;
      while p != end
        invariant Inner() && i <= k <= j && p == Pos(k)
        invariant flow == old(flow).(wire := old(flow).wire + Resend(old(flow), i, k))
        decreases j - k
      {
        Transmit(p, k);
        PosSteps(k);
        p := NextPos(p);
        k := k + 1;
      }
      if k < j { PosDistinct(k, j); }
    }

    method TransmitUnacked(begin: nat, end: nat, ghost i: nat, ghost j: nat) returns (cnt: nat)
      requires Inner() && flow.base <= i <= j <= |flow.log| == |flow.acked| && j < i + MAX_WIN_LEN
      requires begin == Pos(i) && end == Pos(j)
      modifies this`flow, tx`txNb, tx`flushTimer, tx.nic, tx.txBufs
      ensures Inner()
      ensures flow == old(flow).(wire := old(flow).wire + ResendUnacked(old(flow), i, j))
      ensures cnt == |ResendUnacked(old(flow), i, j)|
    {
      hide Inner, Pos, NextPos, Sane;
      var p := begin;
      ghost var k := i;
      cnt := 0;
      while p != end
        invariant Inner() && i <= k <= j && p == Pos(k)
        invariant flow == old(flow).(wire := old(flow).wire + ResendUnacked(old(flow), i, k))
        invariant cnt == |ResendUnacked(old(flow), i, k)|
        decreases j - k
      {
        var acked := HasAcked(p, k);
        if !acked {
          cnt := cnt + 1;
          Transmit(p, k);
        }
        PosSteps(k);
        p := NextPos(p);
        k := k + 1;
      }
      if k < j { PosDistinct(k, j); }
    }

    /** has_acked: the flag of a window slot. */
    method HasAcked(position: nat, ghost k: nat) returns (r: bool)
      requires Inner() && flow.base <= k < |flow.log| == |flow.acked| && position == Pos(k)
      ensures Inner() && r == flow.acked[k]
    {
      hide Represents, Pos;
      EntryAcked(Seen(), flow, k);
      r := state[position].acked;
    }

    /** Walk back from a slot to the start of the unacknowledged run before it. */
    method RunBefore(position: nat, ghost i: nat) returns (prev: nat, ghost k: nat)
      requires Inner() && LeftHolds() && flow.base <= i < |flow.log| == |flow.acked|
      requires i < flow.base + MAX_WIN_LEN && position == Pos(i)
      ensures k == RunStart(flow, i) && prev == Pos(k)
    {
      assert toAck == Pos(flow.base);
      hide Represents, Sane, LeftEdge, Pos, PrevPos, CC.Bounded, Inner, LeftHolds;
      prev := position;
      k := i;
      while prev != toAck
        invariant Inner()
        invariant flow.base <= k <= i && prev == Pos(k) && RunStart(flow, k) == RunStart(flow, i)
        decreases k
      {
        PosSteps(k - 1);
        var acked := HasAcked(PrevPos(prev), k - 1);
        if acked { return; }
        prev := PrevPos(prev);
        k := k - 1;
      }
      if k > flow.base { PosDistinct(k, flow.base); }
    }

    /** Fast retransmission of the unacknowledged run before a slot. */
    method CollectRetrans(position: nat, ghost i: nat)
      requires Valid() && flow.base <= i < |flow.log| == |flow.acked|
      requires i < flow.base + MAX_WIN_LEN && position == Pos(i)
      modifies this`flow, tx`txNb, tx`flushTimer, tx.nic, tx.txBufs, cc`ackCnt, cc`congestionSeen, cc`pktLossFlag
      ensures Valid()
      ensures flow == old(flow).(wire := old(flow).wire + Resend(old(flow), RunStart(old(flow), i), i))
      ensures cc.pktLossFlag && cc.ackCnt == old(cc.ackCnt) && cc.congestionSeen == old(cc.congestionSeen)
    {
      hide Represents, CC.Bounded, Sane, LeftEdge, RightEdge, Pos;
      var prev;
      ghost var k;
      prev, k := RunBefore(position, i);
      cc.Note(0, false, true);
      ghost var f := flow;
      TransmitRange(prev, position, k, i);
      SaneFlow(Seen(), flow);
      EdgesFrame(toAck, leftPsn, toSend, rightPsn, f, flow);
    }

    // ----- the load balancer's side of the queues -----

    /** Queue a sub-operation unless all credits are used. */
    method PushRequest(sub: SubOp) returns (ok: bool)
      requires Valid() && JobOk(sub, mem.Length)
      requires flow.done < |flow.posted| ==> Gid(flow.posted, flow.done) == sub.op.group.id
      modifies this`flow, qp
      ensures Valid() && taken == old(taken)
      ensures ok == (old(qp.numInQueue) < QUEUE_SIZE)
      ensures flow == if ok then Post(old(flow), sub) else old(flow)
    {
      ghost var v := Seen();
      assert v.mem == flow.mem && |v.wq| <= v.credits <= QUEUE_SIZE;
      if qp.numInQueue < QUEUE_SIZE { Enqueued(v, flow, sub); EdgesAfterPost(toAck, leftPsn, toSend, rightPsn, flow, sub); }
      hide Represents, Inv, LeftEdge, RightEdge;
      ok := qp.PushRequest(sub);
      if ok {
        flow := Post(flow, sub);
        assert Seen() == v.(wq := v.wq + [sub], credits := v.credits + 1);
      } else {
        assert Seen() == v;
      }
    }

    /** Take back the oldest response: responses come in posting order. */
    method PopResponse() returns (r: Option<SubOp>)
      requires Valid()
      modifies this`taken, qp
      ensures Valid() && flow == old(flow)
      ensures r.None? <==> old(taken) == flow.done
      ensures r.Some? ==> old(taken) < |flow.posted| && r.value == flow.posted[old(taken)].sub
      ensures taken == old(taken) + if r.Some? then 1 else 0
    {
      ghost var v := Seen();
      assert |v.cq| == flow.done - taken;
      r := qp.FrontResponse();
      if r.Some? {
        Collected(v, flow);
        hide Represents, Inv, LeftEdge, RightEdge;
        qp.PopResponse();
        taken := taken + 1;
        assert Seen() == v.(cq := v.cq[1..], credits := v.credits - 1, taken := v.taken + 1);
      }
    }

    // ----- memory -----

    /** memcpy. */
    method CopyIn(at: nat, bs: seq<Byte>)
      requires at + |bs| <= mem.Length
      modifies mem
      ensures mem[..] == WriteAt(old(mem[..]), at, bs)
    {
      var k := 0;
      while k < |bs|
        invariant 0 <= k <= |bs|
        invariant forall j :: 0 <= j < mem.Length ==>
          mem[j] == if at <= j < at + k then bs[j - at] else old(mem[j])
        modifies mem
      {
        mem[at + k] := bs[k];
        k := k + 1;
      }
    }

    /** Another thread writes to the shared buffer. */
    method ForeignWrite(at: nat, bs: seq<Byte>)
      requires Valid() && at + |bs| <= mem.Length
      modifies mem, this`flow
      ensures Valid() && flow == old(flow).(mem := WriteAt(old(flow).mem, at, bs))
    {
      ghost var v := Seen();
      assert v.mem == flow.mem;
      MemoryWritten(v, flow, WriteAt(flow.mem, at, bs));
      EdgesFrame(toAck, leftPsn, toSend, rightPsn, flow, flow.(mem := WriteAt(flow.mem, at, bs)));
      hide Represents, Inv, LeftEdge, RightEdge;
      CopyIn(at, bs);
      flow := flow.(mem := WriteAt(flow.mem, at, bs));
      assert Seen() == v.(mem := mem[..]);
    }

    // ----- receiving -----

    method MarkAcked(position: nat)
      requires position < state.Length
      modifies state, cc`ackCnt, cc`congestionSeen, cc`pktLossFlag
      ensures state[..] == old(state[..])[position := old(state[position]).(acked := true)]
      ensures cc.ackCnt == old(cc.ackCnt) + 1 && cc.congestionSeen == old(cc.congestionSeen) && cc.pktLossFlag == old(cc.pktLossFlag)
      ensures CC.Bounded(old(cc.Val())) ==> CC.Bounded(cc.Val())
    {
      cc.Note(1, false, false);
      state[position] := state[position].(acked := true);
    }

    /** Copy a payload to shared memory, back in host byte order, if results are wanted. */
    method StoreResult(st: PktState, p: Payload)
      requires st.size <= PAYLOAD_SIZE && st.data + st.size <= mem.Length
      requires Reducing(st.subOp.op.code) ==> st.size % 4 == 0
      modifies mem
      ensures mem[..] ==
        if NeedRx(st.subOp.op) then WriteAt(old(mem[..]), st.data, Wire(st.subOp.op.code, p[..st.size])) else old(mem[..])
    {
      if NeedRx(st.subOp.op) {
        CopyIn(st.data, Wire(st.subOp.op.code, p[..st.size]));
      }
    }

    /** Mark entry i acknowledged and store its result. */
    method Accept(position: nat, ghost i: nat, p: RxPacket)
      requires Valid() && flow.base <= i < |flow.log| && position == Pos(i)
      modifies state, mem, cc`ackCnt, cc`congestionSeen, cc`pktLossFlag, this`flow
      ensures Valid() && flow == Ack(old(flow), i, p.payload)
      ensures cc.ackCnt == old(cc.ackCnt) + 1 && cc.congestionSeen == old(cc.congestionSeen) && cc.pktLossFlag == old(cc.pktLossFlag)
    {
      hide LeftEdge, RightEdge, CC.Bounded, Ack, WriteAt, Wire, RingHolds, GeneratorHolds, CountersHold, QueueHolds, Packets, Shape, OneGroup, GroupNow;
      ghost var v, t := Seen(), Ack(flow, i, p.payload);
      EntryTarget(v, flow, i, p.payload);
      Acknowledged(v, flow, i, p.payload);
      AckFrame(v, flow, i, p.payload);
      EdgesFrame(toAck, leftPsn, toSend, rightPsn, flow, t);
      assert flow.mem == mem[..] && position < state.Length;
      hide Represents, Sane, Pos;
      MarkAcked(position);
      StoreResult(state[position], p.payload);
      flow := t;
      assert Seen() == v.(st := state[..], mem := mem[..]);
    }

    /** Send again what was lost before slot `position`, if anything was. */
    method RetransBefore(position: nat, ghost i: nat)
      requires Valid() && flow.base <= i < |flow.log| == |flow.acked|
      requires i < flow.base + MAX_WIN_LEN && position == Pos(i)
      modifies this`flow, tx`txNb, tx`flushTimer, tx.nic, tx.txBufs, cc`ackCnt, cc`congestionSeen, cc`pktLossFlag
      ensures Valid()
      ensures flow == old(flow).(wire := old(flow).wire + Resend(old(flow), RunStart(old(flow), i), i))
      ensures cc.pktLossFlag == (old(cc.pktLossFlag) || RunStart(old(flow), i) < i)
      ensures cc.ackCnt == old(cc.ackCnt) && cc.congestionSeen == old(cc.congestionSeen)
    {
      hide Represents, CC.Bounded, Sane;
      assert toAck == Pos(flow.base);
      hide LeftEdge, RightEdge;
      ghost var w := flow.wire;
      assert w + [] == w;
      if position == toAck {
        if i != flow.base { PosDistinct(i, flow.base); }
        return;
      }
      PosSteps(i - 1);
      EntryAcked(Seen(), flow, i - 1);
      if state[PrevPos(position)].acked { return; }
      CollectRetrans(position, i);
    }

    /** One acknowledgement: ignored unless it is the first for a packet of the window, whose result
        is then stored and before which the unacknowledged run is sent again. */
    method RxProcessOne(p: RxPacket, congested: bool)
      requires Valid() && p.psn < TWO32
      modifies this`flow, state, mem, cc`ackCnt, cc`congestionSeen, cc`pktLossFlag, tx`txNb, tx`flushTimer, tx.nic, tx.txBufs
      ensures Valid() && Sane(old(flow)) && flow == Rx(old(flow), p)
      ensures cc.ackCnt - old(cc.ackCnt) == TR.Trues(flow.acked) - TR.Trues(old(flow).acked)
      ensures |flow.wire| >= |old(flow).wire|
      ensures cc.pktLossFlag == (old(cc.pktLossFlag) || |flow.wire| > |old(flow).wire|)
      ensures cc.congestionSeen == (old(cc.congestionSeen) || congested)
    {
      hide Represents, LeftEdge, RightEdge, CC.Bounded;
      cc.Note(0, congested, false);
      var position := GetPosition(p);
      if position == INVALID_POSITION { return; }
      ghost var i := Find(flow, p.groupId, p.psn).value;
      EntryAcked(Seen(), flow, i);
      if state[position].acked { return; }
      RxFresh(flow, p, i);
      TR.TruesUpdate(flow.acked, i);
      ghost var acked := flow.acked[i := true];
      assert Ack(flow, i, p.payload).acked == acked;
      hide Rx, Find, Sane, Ack, TR.Trues;
      Accept(position, i, p);
      RetransBefore(position, i);
    }

    /** complete_pkt: the last packet of a sub-operation pushes its response. */
    method CompletePkt(position: nat)
      requires Inner() && flow.base < |flow.log| && position == Pos(flow.base)
      requires flow.base < |flow.acked| && flow.acked[flow.base] && Sane(flow)
      modifies qp, this`flow
      ensures Inner() && flow == Release(old(flow))
    {
      ghost var v := Seen();
      Released(v, flow);
      hide Represents, CC.Bounded, Sane;
      if state[position].isLast {
        qp.PushResponse(state[position].subOp);
      }
      flow := Release(flow);
      assert Seen() == v.(cq := qp.cq);
    }

    /** One round of the release loop. */
    method ReleaseOne(pos: nat) returns (next: nat)
      requires Inner() && Releasable(flow) && Sane(flow)
      requires pos == Pos(flow.base) && pos < MAX_WIN_LEN && pos != Pos(|flow.log|) && state[pos].acked
      modifies qp, this`flow
      ensures Inner() && Releasable(flow) && Sane(flow) && ShiftAck(flow) == ShiftAck(old(flow))
      ensures next == Pos(flow.base) && |flow.log| == |old(flow).log| && flow.base == old(flow.base) + 1 <= |flow.log|
    {
      hide Represents, CC.Bounded, ShiftAck, Release, Releasable, Sane, Pos, NextPos;
      StepOfShiftAck(Seen(), flow, pos, Pos(|flow.log|));
      PosSteps(flow.base);
      CompletePkt(pos);
      SaneFlow(Seen(), flow);
      next := NextPos(pos);
    }

    /** Walk over the acknowledged packets at the left edge, answering in posting order. */
    method ReleaseAcked() returns (pos: nat)
      requires Valid() && Releasable(flow)
      modifies qp, this`flow
      ensures Inner() && Releasable(old(flow)) && flow == ShiftAck(old(flow))
      ensures flow.base <= |flow.log| && pos == Pos(flow.base)
    {
      pos := toAck;
      assert pos == Pos(flow.base) && toSend == Pos(|flow.log|) && Sane(flow) && flow.base <= |flow.log|;
      hide Represents, CC.Bounded, ShiftAck, Release, Releasable, Sane, LeftEdge, RightEdge, NextPos;
      while pos != toSend && state[pos].acked
        invariant Inner() && Releasable(flow) && Sane(flow) && ShiftAck(flow) == ShiftAck(old(flow))
        invariant pos == Pos(flow.base) && toSend == Pos(|flow.log|) && flow.base <= |flow.log|
        decreases |flow.log| - flow.base
      {
        pos := ReleaseOne(pos);
      }
      EndOfShiftAck(Seen(), flow, pos, toSend);
    }

    /** Publish the left edge after releasing packets. */
    method PublishLeft(pos: nat)
      requires Inner() && Sane(flow) && RightEdge(toSend, rightPsn, flow) && pos == Pos(flow.base)
      modifies this`toAck, this`leftPsn
      ensures Valid()
    {
      EdgesAfterBurst(pos, toSend, Seen(), flow);
      hide Represents, CC.Bounded, Pos, Sane, Inv, LeftEdge, RightEdge;
      toAck := pos;
      leftPsn := if toAck == toSend then 0 else state[toAck].pkt.psn;
    }

    /** Release the acknowledged packets and publish the new left edge. */
    method ShiftAckEdge()
      requires Valid()
      modifies qp, this`flow, this`toAck, this`leftPsn
      ensures Valid() && Releasable(old(flow)) && flow == ShiftAck(old(flow))
    {
      RepInv(Seen(), flow);
      RightEdgeAfterShift(toSend, rightPsn, flow);
      hide Represents, CC.Bounded, ShiftAck, Pos, Inv, LeftEdge, RightEdge;
      var pos := ReleaseAcked();
      PublishLeft(pos);
    }

    // ----- sending -----

    /** Make `sub` the sub-operation in progress and reserve its sequence numbers. */
    method StartSubOp(sub: SubOp)
      modifies this`subOp, this`pktSent, this`startPsn, this`pktCnt, this`currentGroupId, this`switchWindowLimit, this`groupPsn
      ensures subOp == Some(sub) && pktSent == 0 && pktCnt == PktCount(sub.size)
      ensures currentGroupId == sub.op.group.id && switchWindowLimit == sub.aggLen / 2
      ensures startPsn == Get(old(groupPsn), sub.op.group.id)
      ensures groupPsn == old(groupPsn)[sub.op.group.id := (startPsn + pktCnt) % TWO32]
    {
      currentGroupId := sub.op.group.id;
      switchWindowLimit := sub.aggLen / 2;
      startPsn := Get(groupPsn, sub.op.group.id);
      pktCnt := (sub.size + PAYLOAD_SIZE - 1) / PAYLOAD_SIZE;
      // a last packet is needed even for size 0
      if pktCnt == 0 { pktCnt := 1; }
      pktSent := 0;
      groupPsn := groupPsn[sub.op.group.id := (startPsn + pktCnt) % TWO32];
      subOp := Some(sub);
    }

    /** The first half of gen_pkt: take the next sub-operation if none is in progress. Its group
        becomes current only if it already is or the published window is empty. */
    method TakeSubOp() returns (ok: bool)
      requires Inner()
      modifies this`subOp, this`pktSent, this`startPsn, this`pktCnt, this`currentGroupId, this`switchWindowLimit, this`groupPsn
      ensures ok <==> CanGen(flow, toAck == toSend)
      ensures !ok ==> Inner()
      ensures ok ==> old(Seen()).wq != [] && Sane(flow) && flow.popped < |flow.posted|
      ensures ok ==> Seen() == TakenView(old(Seen()), flow)
    {
      ghost var v := Seen();
      GenTest(v, flow, toAck == toSend);
      if v.wq != [] { GenFields(v, flow); }
      hide Represents, CC.Bounded, Inv, CanGen, PktCount, Get;
      hide ProcessBuffer.Valid, ProcessBuffer.Stream;
      if subOp.Some? { return true; }
      var front := qp.FrontRequest();
      if front.None? { return false; }
      if currentGroupId != front.value.op.group.id && toAck != toSend { return false; }
      StartSubOp(front.value);
      ok := true;
    }

    /** fill_pkt. The payload is taken from shared memory, in network byte order. */
    method FillPkt(sub: SubOp, data: nat, size: nat, psn: nat) returns (pkt: Packet)
      requires sub.aggLen > 0 && size <= PAYLOAD_SIZE && data + size <= mem.Length
      requires Reducing(sub.op.code) ==> size % 4 == 0
      ensures pkt == FilledPacket(sub, psn, mem[data..data + size])
    {
      var g := sub.op.group;
      var payload := [];
      if NeedTx(sub.op) {
        payload := Padded(Wire(sub.op.code, mem[data..data + size]));
      }
      pkt := Packet(sub.op.code, g.id, g.rank, sub.op.root, g.switchIp,
                    (sub.aggAddr + psn % sub.aggLen) % 0x10000, psn, payload);
    }

    /** The state of the next packet, computed from the generator's variables. */
    method NextState(ghost v: View) returns (e: PktState)
      requires Represents(v, flow) && Sane(flow) && flow.popped < |flow.posted|
      requires tx.Valid() && Seen() == TakenView(v, flow)
      ensures e == NextEntry(flow)
      ensures subOp.Some? && pktSent == flow.sent && pktCnt == Count(flow.posted, flow.popped)
    {
      GenFields(v, flow);
      GenPsn(v, flow);
      FilledIsNext(flow);
      assert v.mem == flow.mem == mem[..];
      assert subOp == Some(v.wq[0]) && pktSent == flow.sent && pktCnt == Count(flow.posted, flow.popped);
      assert (startPsn + pktSent) % TWO32 == Psn(Serial(flow.posted, flow.popped, flow.sent));
      hide Represents, Inv, PktCount, Psn, Get, FilledPacket, NextRec, NextCounters, TakenView;
      hide ProcessBuffer.Valid, ProcessBuffer.Stream;
      var sub := subOp.value;
      var sizeSent := pktSent * PAYLOAD_SIZE;
      var data, size, psn := sub.data + sizeSent, Min(PAYLOAD_SIZE, sub.size - sizeSent), (startPsn + pktSent) % TWO32;
      var pkt := FillPkt(sub, data, size, psn);
      e := PktState(false, sub, data, size, psn, pktSent + 1 == pktCnt, pkt);
    }

    /** Store a packet's state, and drop the request after its last packet. */
    method PutPacket(position: nat, e: PktState)
      requires position < state.Length && (e.isLast ==> qp.wq != [])
      modifies state, qp, this`subOp, this`pktSent
      ensures state[..] == old(state[..])[position := e]
      ensures pktSent == old(pktSent) + 1 && subOp == if e.isLast then None else old(subOp)
      ensures qp.wq == (if e.isLast then old(qp.wq)[1..] else old(qp.wq))
      ensures qp.cq == old(qp.cq) && qp.numInQueue == old(qp.numInQueue)
    {
      state[position] := e;
      pktSent := pktSent + 1;
      if e.isLast {
        qp.PopRequest();
        subOp := None;
      }
    }

    /** The second half of gen_pkt: write the next packet's state into a slot. */
    method WritePacket(position: nat, ghost v: View)
      requires tx.Valid() && state.Length == MAX_WIN_LEN && position == Pos(|flow.log|)
      requires Represents(v, flow) && Sane(flow) && flow.popped < |flow.posted| && Seen() == TakenView(v, flow)
      modifies state, qp, this`subOp, this`pktSent
      ensures v.wq != [] && |v.st| == MAX_WIN_LEN
      ensures Seen() == AfterPacket(v, flow)
    {
      assert position < MAX_WIN_LEN;
      hide Represents, Sane, AfterPacket, TakenView, Pos, NextEntry, PktCount, ProcessBuffer.Valid, ProcessBuffer.Stream;
      GenFields(v, flow);
      var e := NextState(v);
      AfterTaken(v, flow);
      ghost var t := Seen();
      PutPacket(position, e);
      assert Seen() == t.(st := state[..], wq := qp.wq, sub := subOp, pktSent := pktSent);
    }

    /** Record the packet just written. */
    ghost method NotePacket(v: View)
      requires tx.Valid() && state.Length == MAX_WIN_LEN && CC.Bounded(cc.Val())
      requires Sane(flow) && flow.popped < |flow.posted| && v.wq != [] && |v.st| == MAX_WIN_LEN
      requires Seen() == AfterPacket(v, flow) && Represents(AfterPacket(v, flow), Fill(flow))
      modifies this`flow
      ensures Inner() && flow == Fill(old(flow))
    {
      hide Represents, CC.Bounded, AfterPacket, Fill;
      flow := Fill(flow);
      assert Seen() == old(Seen());
    }

    method CommitPacket(position: nat, ghost v: View)
      requires tx.Valid() && state.Length == MAX_WIN_LEN && position == Pos(|flow.log|) && CC.Bounded(cc.Val())
      requires Represents(v, flow) && Sane(flow) && flow.popped < |flow.posted| && Seen() == TakenView(v, flow)
      requires v.wq != [] && |v.st| == MAX_WIN_LEN && Represents(AfterPacket(v, flow), Fill(flow))
      modifies state, qp, this`subOp, this`pktSent, this`flow
      ensures Inner() && flow == Fill(old(flow))
    {
      hide Represents, CC.Bounded, Sane, Fill, Pos, AfterPacket, TakenView;
      WritePacket(position, v);
      NotePacket(v);
    }

    /** Generate the next packet into the slot at the unpublished right edge, if there is one to
        generate. */
    method GenPkt(position: nat) returns (ok: bool)
      requires Inner() && position == Pos(|flow.log|) && Win(flow) < MAX_WIN_LEN - 1 && Sane(flow)
      requires toAck == toSend ==> flow.base == |flow.log| || flow.done < |flow.posted|
      modifies state, qp, this`flow, this`subOp, this`pktSent, this`startPsn, this`pktCnt,
        this`currentGroupId, this`switchWindowLimit, this`groupPsn
      ensures Inner() && GenStep(old(flow), flow, ok, toAck == toSend)
    {
      ghost var v := Seen();
      hide Represents, Inv, CC.Bounded, Sane, CanGen, Fill, Pos, AfterPacket, TakenView, GenStep;
      ok := TakeSubOp();
      GenStepFrom(flow, ok, toAck == toSend);
      if !ok { return; }
      Generated(v, flow, toAck == toSend);
      CommitPacket(position, v);
    }

    /** One round of the burst: generate a packet and transmit it. */
    method SendOne(position: nat, winLen: nat) returns (ok: bool)
      requires Inner() && LeftHolds() && position == Pos(|flow.log|) && winLen == Win(flow) < MAX_WIN_LEN - 1 && Sane(flow)
      requires toAck == toSend ==> flow.base == |flow.log| || flow.done < |flow.posted|
      modifies state, qp, this`flow, this`subOp, this`pktSent, this`startPsn, this`pktCnt,
        this`currentGroupId, this`switchWindowLimit, this`groupPsn, this`leftPsn, tx`txNb, tx`flushTimer, tx.nic, tx.txBufs
      ensures Inner() && LeftHolds()
      ensures ok <==> CanGen(old(flow), toAck == toSend)
      ensures ok ==> old(flow).popped < |old(flow).posted|
      ensures flow == if ok then Gen(old(flow)) else old(flow)
    {
      ghost var f := flow;
      hide Represents, Inv, CC.Bounded, Pos, LeftEdge;
      ok := GenPkt(position);
      if !ok { return; }
      LeftAfterFill(toAck, leftPsn, Seen(), f);
      hide Sane, Fill, Gen;
      if winLen == 0 { leftPsn := state[toAck].pkt.psn; }
      assert LeftEdge(toAck, leftPsn, Fill(f)) && flow == Fill(f);
      Transmit(position, |f.log|);
      EdgeAfterSent(toAck, leftPsn, f, flow);
    }

    method BurstStep(pos: nat, winLen: nat, goal: nat, ghost f: Flow) returns (ok: bool)
      requires Inner() && LeftHolds() && winLen < goal <= MAX_WIN_LEN - 1
      requires Bursting(flow, pos, winLen, f, toAck == toSend, goal)
      modifies state, qp, this`flow, this`subOp, this`pktSent, this`startPsn, this`pktCnt,
        this`currentGroupId, this`switchWindowLimit, this`groupPsn, this`leftPsn, tx`txNb, tx`flushTimer, tx.nic, tx.txBufs
      ensures Inner() && LeftHolds()
      ensures ok ==> Bursting(flow, NextPos(pos), winLen + 1, f, toAck == toSend, goal)
      ensures !ok ==> BurstOver(flow, pos, winLen, f, toAck == toSend, goal)
    {
      BurstRound(Seen(), flow, pos, winLen, f, toAck == toSend, goal);
      hide *;
      ok := SendOne(pos, winLen);
    }

    /** The burst loop: packets are generated and sent one by one until the window has `goal`
        packets or nothing more can be generated; the right edge is not published meanwhile. */
    method BurstLoop(pos0: nat, winLen0: nat, goal: nat, ghost f: Flow) returns (pos: nat, winLen: nat)
      requires Inner() && LeftHolds() && goal <= MAX_WIN_LEN - 1
      requires Bursting(flow, pos0, winLen0, f, toAck == toSend, goal)
      modifies state, qp, this`flow, this`subOp, this`pktSent, this`startPsn, this`pktCnt,
        this`currentGroupId, this`switchWindowLimit, this`groupPsn, this`leftPsn, tx`txNb, tx`flushTimer, tx.nic, tx.txBufs
      ensures Inner() && LeftHolds() && BurstOver(flow, pos, winLen, f, toAck == toSend, goal)
    {
      hide *;
      pos, winLen := pos0, winLen0;
      while winLen < goal
        invariant Inner() && LeftHolds() && Bursting(flow, pos, winLen, f, toAck == toSend, goal)
        decreases goal - winLen
      {
        var ok := BurstStep(pos, winLen, goal, f);
        if !ok { return; }
        pos := NextPos(pos);
        winLen := winLen + 1;
      }
      BurstLast(flow, pos, winLen, f, toAck == toSend, goal);
    }

    method EndBurst(pos: nat, winLen: nat)
      requires Inner() && LeftHolds() && pos == Pos(|flow.log|) && winLen == Win(flow)
      modifies this`toSend, this`rightPsn, cc`cwndAchieved
      ensures Valid() && cc.Val() == CC.Achieve(old(cc.Val()), winLen)
    {
      WinBound(Seen(), flow);
      hide Represents, LeftEdge, RightEdge, CC.Bounded, CC.Achieve, Sane, Pos;
      cc.BurstEnded(winLen);
      PublishRight(pos);
    }

    /** Publish the right edge after a burst. */
    method PublishRight(pos: nat)
      requires Inner() && LeftHolds() && pos == Pos(|flow.log|)
      modifies this`toSend, this`rightPsn
      ensures Valid()
    {
      assert toAck == Pos(flow.base);
      EdgesAfterBurst(toAck, pos, Seen(), flow);
      hide Represents, CC.Bounded, Pos, Sane, Inv, LeftEdge, RightEdge;
      toSend := pos;
      rightPsn := if toAck == toSend then 0 else state[PrevPos(toSend)].pkt.psn;
    }

    /** The size of window to aim at. */
    method WindowGoal() returns (goal: nat)
      requires Valid()
      ensures flow.base <= |flow.log| && goal == Target(flow, cc.cwnd.Floor) && goal <= MAX_WIN_LEN - 1
    {
      SaneFlow(Seen(), flow);
      var winLen := WindowLen();
      assert switchWindowLimit == flow.limit && cc.cwnd >= 10.0;
      goal := Min(MAX_WIN_LEN - 1, Min(switchWindowLimit, Min(cc.cwnd.Floor, winLen + MAX_PKT_BURST)));
    }

    /** The burst itself, from the published edges. */
    method RunBurst() returns (pos: nat, winLen: nat)
      requires Valid() && cc.cwnd >= 10.0
      modifies state, qp, this`flow, this`subOp, this`pktSent, this`startPsn, this`pktCnt,
        this`currentGroupId, this`switchWindowLimit, this`groupPsn, this`leftPsn, tx`txNb, tx`flushTimer, tx.nic, tx.txBufs
      ensures Inner() && LeftHolds() && pos == Pos(|flow.log|) && winLen == Win(flow)
      ensures Sane(old(flow)) && flow == ShiftSend(old(flow), cc.cwnd.Floor)
    {
      SaneFlow(Seen(), flow);
      var goal := WindowGoal();
      ghost var v, f := Seen(), flow;
      BurstPrepared(v, toAck, toSend, leftPsn, rightPsn, f, goal);
      hide Represents, Inv, LeftEdge, RightEdge, Bursting, BurstOver, Burst, Target, CC.Bounded, Sane, Pos;
      pos, winLen := BurstLoop(toSend, if toSend >= toAck then toSend - toAck else MAX_WIN_LEN + toSend - toAck, goal, f);
      BurstIsShiftSend(v, f, flow, pos, winLen, toAck == toSend, cc.cwnd.Floor);
    }

    /** shift_send: extend the window by one burst and publish the new right edge. */
    method ShiftSendEdge()
      requires Valid()
      modifies state, qp, this`flow, this`subOp, this`pktSent, this`startPsn, this`pktCnt, this`currentGroupId, this`switchWindowLimit,
        this`groupPsn, this`leftPsn, this`toSend, this`rightPsn, tx`txNb, tx`flushTimer, tx.nic, tx.txBufs, cc`cwndAchieved
      ensures Valid() && Sane(old(flow))
      ensures old(cc.cwnd) >= 10.0 && flow == ShiftSend(old(flow), old(cc.cwnd).Floor)
      ensures cc.Val() == CC.Achieve(old(cc.Val()), Max(0, Win(flow)))
    {
      assert cc.cwnd >= 10.0;
      var pos, winLen := RunBurst();
      EndBurst(pos, winLen);
    }

    /** Send the unacknowledged packets of the window again. */
    method ResendWindow()
      requires Valid()
      modifies this`flow, tx`txNb, tx`flushTimer, tx.nic, tx.txBufs
      ensures Valid() && Sane(old(flow)) && flow == FullRetrans(old(flow))
      ensures Win(flow) == Win(old(flow))
    {
      SaneFlow(Seen(), flow);
      WinBound(Seen(), flow);
      ghost var f := flow;
      assert toAck == Pos(f.base) && toSend == Pos(|f.log|) && |f.acked| == |f.log|;
      hide Represents, Inv, LeftEdge, RightEdge, CC.Bounded, Pos, Sane, ResendUnacked;
      var cnt := TransmitUnacked(toAck, toSend, f.base, |f.log|);
      SaneFlow(Seen(), flow);
      AfterTimeoutFacts(f, flow, toAck, leftPsn, toSend, rightPsn);
    }

    method SetAckTime(now: nat)
      requires Valid()
      modifies this`lastAckTs
      ensures Valid() && lastAckTs == now
    {
      hide Represents, LeftEdge, RightEdge, CC.Bounded, Sane;
      lastAckTs := now;
    }

    method SetAckCount()
      requires Valid()
      modifies this`prevAckCnt
      ensures Valid() && prevAckCnt == cc.ackCnt
    {
      hide Represents, LeftEdge, RightEdge, CC.Bounded, Sane;
      prevAckCnt := cc.ackCnt;
    }

    method RestartRate(now: nat)
      requires Valid()
      modifies cc
      ensures Valid() && cc.Val() == CC.Reinit(old(cc.Val()), now)
    {
      hide Represents, LeftEdge, RightEdge, CC.Bounded, Sane, CC.Reinit;
      cc.ReinitAt(now);
    }

    /** Timeout: every unacknowledged packet again, and the rate restarts from its minimum. */
    method FullRetransAt(now: nat)
      requires Valid() && Sane(flow)
      modifies this`flow, this`lastAckTs, tx`txNb, tx`flushTimer, tx.nic, tx.txBufs, cc
      ensures Valid() && flow == FullRetrans(old(flow))
      ensures lastAckTs == if Win(old(flow)) == 0 then old(lastAckTs) else now
      ensures cc.Val() == if Win(old(flow)) == 0 then old(cc.Val()) else CC.Reinit(old(cc.Val()), now)
    {
      WindowTxEmpty();
      hide Valid, Sane, FullRetrans, CC.Reinit;
      if toAck == toSend {
        NothingToResend(flow);
        return;
      }
      SetAckTime(now);
      ResendWindow();
      RestartRate(now);
    }

    /** The timeout check of tx_process: late means no new acknowledgement for TIMEOUT_TIME. */
    method CheckTimeout(now: nat) returns (late: bool)
      requires Valid() && Sane(flow)
      modifies this`flow, this`lastAckTs, this`prevAckCnt, tx`txNb, tx`flushTimer, tx.nic, tx.txBufs, cc
      ensures late == (CC.Elapsed(now, if old(cc.ackCnt) != old(prevAckCnt) then now else old(lastAckTs)) >= TIMEOUT_TIME)
      ensures Valid() && flow == AfterTimeout(old(flow), late)
      ensures prevAckCnt == old(cc.ackCnt)
      ensures lastAckTs == if old(cc.ackCnt) != old(prevAckCnt) || (late && Win(old(flow)) != 0) then now else old(lastAckTs)
      ensures cc.Val() == if late && Win(old(flow)) != 0 then CC.Reinit(old(cc.Val()), now) else old(cc.Val())
    {
      hide Valid, Sane, FullRetrans, CC.Reinit;
      if cc.ackCnt != prevAckCnt {
        SetAckCount();
        SetAckTime(now);
      }
      late := CC.Elapsed(now, lastAckTs) >= TIMEOUT_TIME;
      if late {
        FullRetransAt(now);
      }
    }

    /** tx_process: a timeout without new acknowledgements resends; then one burst. */
    method TxProcess(now: nat) returns (late: bool)
      requires Valid() && Sane(flow)
      modifies state, qp, this`flow, this`subOp, this`pktSent, this`startPsn, this`pktCnt, this`currentGroupId, this`switchWindowLimit,
        this`groupPsn, this`leftPsn, this`toSend, this`rightPsn, this`lastAckTs, this`prevAckCnt,
        tx`txNb, tx`flushTimer, tx.nic, tx.txBufs, cc
      ensures Valid() && Sane(AfterTimeout(old(flow), late))
      ensures late == (CC.Elapsed(now, if old(cc.ackCnt) != old(prevAckCnt) then now else old(lastAckTs)) >= TIMEOUT_TIME)
      ensures var c := if late && Win(old(flow)) != 0 then CC.Reinit(old(cc.Val()), now) else old(cc.Val());
        c.cwnd >= 10.0 && flow == ShiftSend(AfterTimeout(old(flow), late), c.cwnd.Floor) && cc.Val() == CC.Achieve(c, Max(0, Win(flow)))
      ensures prevAckCnt == old(cc.ackCnt)
      ensures lastAckTs ==
        if Win(flow) == 0 || old(cc.ackCnt) != old(prevAckCnt) || (late && Win(old(flow)) != 0) then now else old(lastAckTs)
    {
      hide Valid, Sane, CC.Achieve, CC.Reinit, ShiftSend, AfterTimeout;
      late := CheckTimeout(now);
      ShiftSendEdge();
      WindowTxEmpty();
      if toAck == toSend { SetAckTime(now); }
    }

    /** The end of a round of the worker loop. */
    method React(now: nat)
      requires Valid()
      modifies cc
      ensures Valid() && cc.Val() == CC.React(old(cc.Val()), now)
    {
      hide Represents, LeftEdge, RightEdge, CC.Bounded, Sane, CC.React;
      cc.CongestionControl(now);
    }

    /** rx_process over the packets that arrived. */
    method RxProcess(batch: seq<RxPacket>, congested: bool)
      requires Valid() && Inv(flow) && forall k :: 0 <= k < |batch| ==> batch[k].psn < TWO32
      modifies this`flow, this`toAck, this`leftPsn, state, mem, qp, cc`ackCnt, cc`congestionSeen, cc`pktLossFlag,
        tx`txNb, tx`flushTimer, tx.nic, tx.txBufs
      ensures Valid()
      ensures Inv(old(flow)) && Inv(RxAll(old(flow), batch)) && Releasable(RxAll(old(flow), batch))
      ensures flow == ShiftAck(RxAll(old(flow), batch))
      ensures cc.ackCnt - old(cc.ackCnt) == TR.Trues(RxAll(old(flow), batch).acked) - TR.Trues(old(flow).acked)
      ensures cc.pktLossFlag == (old(cc.pktLossFlag) || |RxAll(old(flow), batch).wire| > |old(flow).wire|)
      ensures cc.congestionSeen == (old(cc.congestionSeen) || (batch != [] && congested))
    {
      hide Valid, Inv, Sane, Rx, TR.Trues;
      var k := 0;
      assert batch[..0] == [];
      while k < |batch|
        invariant 0 <= k <= |batch| && Valid()
        invariant flow == RxAll(old(flow), batch[..k])
        invariant cc.ackCnt - old(cc.ackCnt) == TR.Trues(flow.acked) - TR.Trues(old(flow).acked)
        invariant |flow.wire| >= |old(flow).wire| && cc.pktLossFlag == (old(cc.pktLossFlag) || |flow.wire| > |old(flow).wire|)
        invariant cc.congestionSeen == (old(cc.congestionSeen) || (k > 0 && congested))
      {
        assert batch[..k + 1][..k] == batch[..k] && batch[..k + 1][k] == batch[k];
        RxProcessOne(batch[k], congested);
        k := k + 1;
      }
      assert batch[..k] == batch;
      RxAllKeeps(old(flow), batch);
      ShiftAckEdge();
    }
  }
}
