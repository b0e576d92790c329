/** The Python thread's objects (server/frontend/src/c/api.cpp:153-227): operations are created in
    the slot ring and the byte ring together, queued, and destroyed when their responses come back. */
module Frontends {
  import opened NetCommon
  import opened QueuePairs
  import opened CB = CopyBuffers
  import Partition
  import P = Pipeline

  type Oper = NetCommon.Op

  class Frontend {
    const opBuffer: OpBuffer
    const copyBuffer: CopyBuffer
    const py: QueuePair<Oper>
    /** Operations created and not destroyed, oldest first. */
    ghost var live: seq<Oper>

    ghost function Repr(): set<object> {
      {this, opBuffer, copyBuffer, py}
    }

    /** Slots, blocks and credits agree with the live operations, and responses come back in order.
        No block ends on the ring's last byte. */
    ghost predicate Valid()
      reads Repr()
    {
      && opBuffer.Valid() && copyBuffer.Valid()
      && |live| == opBuffer.cnt == |copyBuffer.Live()| == py.numInQueue
      && |py.wq| + |py.cq| <= |live|
      && py.cq <= live
      && (forall i :: 0 <= i < |live| ==> OpHeld(live[i], copyBuffer.Live()[i], (opBuffer.first + i) % QUEUE_SIZE))
    }

    /** The Python thread's part of the pipeline is in this state. */
    ghost predicate Mirrors(s: P.Pipe)
      reads Repr()
    {
      && s.buf == CB.State(Ends(copyBuffer.head, copyBuffer.tail), copyBuffer.Live())
      && s.head == opBuffer.head && s.cnt == opBuffer.cnt && s.d.py == py.Val()
    }

    constructor ()
      ensures Valid() && fresh(Repr()) && live == [] && py.Val() == EmptyQp()
    {
      opBuffer := new OpBuffer();
      copyBuffer := new CopyBuffer();
      py := new QueuePair();
      live := [];
    }

    /** Create an operation when there is a slot and space for it. */
    method CreateOp(code: OpCode, root: nat, size: nat, group: Group) returns (op: Oper)
      requires Valid() && OffEnd(BlockAt(copyBuffer.head, size))
      requires opBuffer.cnt < QUEUE_SIZE && size <= Available(Ends(copyBuffer.head, copyBuffer.tail))
      modifies opBuffer, copyBuffer
      ensures opBuffer.Valid() && copyBuffer.Valid()
      ensures opBuffer.first == old(opBuffer.first) && opBuffer.cnt == old(opBuffer.cnt) + 1
      ensures op == NetCommon.Op((opBuffer.first + old(opBuffer.cnt)) % QUEUE_SIZE, code, root, size, op.buffer, group)
      ensures copyBuffer.Live() == old(copyBuffer.Live()) + [Block(op.buffer, size)]
      ensures Block(op.buffer, size) == BlockAt(old(copyBuffer.head), size) && copyBuffer.head == NextHead(old(copyBuffer.head), size)
      ensures (op.buffer, Ends(copyBuffer.head, copyBuffer.tail)) == CB.Place(old(Ends(copyBuffer.head, copyBuffer.tail)), size)
    {
      var slot := opBuffer.FifoAllocate();
      assert slot.Some?;
      var start := copyBuffer.FifoAllocate(size);
      assert start.Some?;
      op := NetCommon.Op(slot.value, code, root, size, start.value, group);
    }

    /** Release what an operation holds; the byte ring is told only its size. */
    method DestroyOp(op: Oper)
      requires Valid() && live != [] && op == live[0]
      modifies opBuffer, copyBuffer
      ensures opBuffer.Valid() && copyBuffer.Valid()
      ensures opBuffer.first == old(opBuffer.first) + 1 && opBuffer.cnt == old(opBuffer.cnt) - 1
      ensures copyBuffer.Live() == old(copyBuffer.Live())[1..] && copyBuffer.head == old(copyBuffer.head)
      ensures Ends(copyBuffer.head, copyBuffer.tail) == Freed(old(Ends(copyBuffer.head, copyBuffer.tail)), op.size)
    {
      assert OpHeld(live[0], copyBuffer.Live()[0], opBuffer.first % QUEUE_SIZE);
      copyBuffer.FifoFree(op.size);
      opBuffer.FifoFree();
    }

    /** Take back the oldest response, if there is one, and destroy its operation. */
    method RecvOne(ghost s: P.Pipe) returns (got: bool)
      requires Valid() && Mirrors(s)
      modifies this`live, opBuffer, copyBuffer, py
      ensures Valid() && py.wq == old(py.wq) && copyBuffer.head == old(copyBuffer.head)
      ensures got <==> old(py.cq) != []
      ensures got ==> old(live) != [] && live == old(live)[1..] && py.cq == old(py.cq)[1..]
      ensures !got ==> live == old(live) && py.cq == []
      ensures got <==> P.Enabled(s, P.Destroy)
      ensures got ==> s.cnt > 0 && s.d.py.credits > 0 && Mirrors(P.Destroyed(s))
      ensures !got ==> Mirrors(s)
    {
      var front := py.FrontResponse();
      if front.None? { return false; }
      assert py.cq[0] == live[0];
      HeldAfterDestroy(live, copyBuffer.Live(), opBuffer.first);
      hide CopyBuffer.Live, CopyBuffer.Valid, OpBuffer.Valid, OpHeld;
      DestroyOp(front.value);
      py.PopResponse();
      live := live[1..];
      got := true;
    }

    /** Destroy every operation whose response has come back. */
    method RecvAllResp(ghost s: P.Pipe)
      requires Valid() && Mirrors(s)
      modifies this`live, opBuffer, copyBuffer, py
      ensures Valid() && live == old(live)[|old(py.cq)|..] && py.cq == [] && py.wq == old(py.wq)
      ensures copyBuffer.head == old(copyBuffer.head) && Mirrors(Cleared(s))
    {
      hide Valid;
      ghost var k := 0;
      InOrder();
      var got := RecvOne(s);
      ghost var t := if got then P.Destroyed(s) else s;
      while got
        invariant Valid() && Mirrors(t) && Cleared(t) == Cleared(s)
        invariant !got ==> py.cq == []
        invariant k + One(got) + |py.cq| == |old(py.cq)| <= |old(live)|
        invariant live == old(live)[k + One(got)..]
        invariant py.wq == old(py.wq) && copyBuffer.head == old(copyBuffer.head)
        decreases |py.cq| + One(got)
      {
        got := RecvOne(t);
        if got { t := P.Destroyed(t); }
        k := k + 1;
      }
    }

    static function One(b: bool): nat {
      if b then 1 else 0
    }

    lemma InOrder()
      requires Valid()
      ensures |py.cq| <= |live| && py.cq == live[..|py.cq|]
    {}

    /** One round of waiting for space: clear responses, and post if there is room, which is exactly when
        the pipeline can create the next operation. A frontend whose operations are all answered always
        has room for a segment. */
    method TryPostSub(code: OpCode, root: nat, size: nat, group: Group, ghost s: P.Pipe) returns (r: Option<Oper>)
      requires Valid() && OffEnd(BlockAt(copyBuffer.head, size))
      requires Mirrors(s) && s.todo != [] && s.todo[0].size == size && s.call == P.Call(code, root, group, s.call.size)
      modifies this`live, opBuffer, copyBuffer, py
      ensures Valid() && py.cq == []
      ensures r.None? ==> live == old(live)[|old(py.cq)|..] && py.wq == old(py.wq)
      ensures r.Some? ==>
        && live == old(live)[|old(py.cq)|..] + [r.value] && py.wq == old(py.wq) + [r.value]
        && r.value.code == code && r.value.root == root && r.value.size == size && r.value.group == group
        && Block(r.value.buffer, size) == BlockAt(old(copyBuffer.head), size)
      ensures copyBuffer.head == if r.Some? then NextHead(old(copyBuffer.head), size) else old(copyBuffer.head)
      ensures r.Some? <==> P.Enabled(Cleared(s), P.Create)
      ensures Cleared(s).todo == s.todo && Mirrors(if r.Some? then P.Created(Cleared(s)) else Cleared(s))
      ensures r.Some? ==> r.value == P.NewOp(Cleared(s))
      ensures |old(py.cq)| == |old(live)| && size <= Partition.SEGMENT_SIZE ==> r.Some?
    {
      hide Cleared, P.Created, P.NewOp, OffEnd, BlockAt, NextHead, CopyBuffer.Valid, CopyBuffer.Live, OpBuffer.Valid, OpHeld, Available;
      ghost var t := Cleared(s);
      ClearedCall(s);
      RecvAllResp(s);
      var slots := opBuffer.Available();
      var space := copyBuffer.AvailableSpace();
      if !(slots > 0 && space >= size) {
        NoneLive();
        return None;
      }
      var op := PostNow(code, root, size, group, t);
      r := Some(op);
    }

    /** With nothing live there is a slot, and room for a segment. */
    lemma NoneLive()
      requires Valid()
      ensures live == [] ==> opBuffer.cnt == 0 && Available(Ends(copyBuffer.head, copyBuffer.tail)) >= Partition.SEGMENT_SIZE
    {
      if live == [] { EmptyRoom(Ends(copyBuffer.head, copyBuffer.tail), copyBuffer.layout); }
    }

    method PostNow(code: OpCode, root: nat, size: nat, group: Group, ghost s: P.Pipe) returns (op: Oper)
      requires Mirrors(s) && s.todo != [] && s.todo[0].size == size && s.call == P.Call(code, root, group, s.call.size)
      requires Valid() && OffEnd(BlockAt(copyBuffer.head, size))
      requires opBuffer.cnt < QUEUE_SIZE && size <= Available(Ends(copyBuffer.head, copyBuffer.tail))
      modifies this`live, opBuffer, copyBuffer, py
      ensures Valid() && live == old(live) + [op] && py.cq == old(py.cq) && py.wq == old(py.wq) + [op]
      ensures op.code == code && op.root == root && op.size == size && op.group == group
      ensures op == P.NewOp(s) && Mirrors(P.Created(s))
      ensures Block(op.buffer, size) == BlockAt(old(copyBuffer.head), size) && copyBuffer.head == NextHead(old(copyBuffer.head), size)
    {
      ghost var bs := copyBuffer.Live();
      op := CreateOp(code, root, size, group);
      HeldAfterCreate(live, bs, opBuffer.first, op);
      hide CopyBuffer.Live, CopyBuffer.Valid, OpBuffer.Valid, OpHeld;
      var ret := py.PushRequest(op);
      assert ret;
      live := live + [op];
    }
  }

  /** All responses that have come back are cleared. */
  function Cleared(s: P.Pipe): P.Pipe
    decreases |s.d.py.cq|
  {
    if s.d.py.cq == [] || s.cnt == 0 || s.d.py.credits == 0 then s else Cleared(P.Destroyed(s))
  }

  lemma {:induction false} ClearedCall(s: P.Pipe)
    ensures Cleared(s).todo == s.todo && Cleared(s).call == s.call
    decreases |s.d.py.cq|
  {
    if !(s.d.py.cq == [] || s.cnt == 0 || s.d.py.credits == 0) { ClearedCall(P.Destroyed(s)); }
  }

  predicate OpHeld(op: Oper, b: Block, slot: nat) {
    b == Block(op.buffer, op.size) && op.slot == slot && OffEnd(b)
  }

  lemma HeldAfterDestroy(live: seq<Oper>, bs: seq<Block>, first: nat)
    requires |live| == |bs| > 0
    requires forall i :: 0 <= i < |live| ==> OpHeld(live[i], bs[i], (first + i) % QUEUE_SIZE)
    ensures forall i :: 0 <= i < |live| - 1 ==> OpHeld(live[1..][i], bs[1..][i], (first + 1 + i) % QUEUE_SIZE)
  {
    forall i | 0 <= i < |live| - 1 ensures OpHeld(live[1..][i], bs[1..][i], (first + 1 + i) % QUEUE_SIZE) {
      assert OpHeld(live[i + 1], bs[i + 1], (first + (i + 1)) % QUEUE_SIZE);
    }
  }

  lemma HeldAfterCreate(live: seq<Oper>, bs: seq<Block>, first: nat, op: Oper)
    requires |live| == |bs| && OpHeld(op, Block(op.buffer, op.size), (first + |live|) % QUEUE_SIZE)
    requires forall i :: 0 <= i < |live| ==> OpHeld(live[i], bs[i], (first + i) % QUEUE_SIZE)
    ensures var l, b := live + [op], bs + [Block(op.buffer, op.size)];
      forall i :: 0 <= i < |l| ==> OpHeld(l[i], b[i], (first + i) % QUEUE_SIZE)
  {
    var l, b := live + [op], bs + [Block(op.buffer, op.size)];
    forall i | 0 <= i < |l| ensures OpHeld(l[i], b[i], (first + i) % QUEUE_SIZE) {
      if i < |live| { assert OpHeld(live[i], bs[i], (first + i) % QUEUE_SIZE); }
    }
  }
}
