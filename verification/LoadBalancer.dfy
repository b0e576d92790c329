/** The load balancer thread (server/backend/load_balancer.cpp:39-91): it forks every operation into
    one share per worker and joins the shares' responses into one answer. */
module LoadBalancers {
  import opened NetCommon
  import opened QueuePairs
  import opened Partition

  type WorkQueues = seq<Qp<SubOp>>

  /** Each worker's queue gets its share; the source does not look whether it was refused. */
  function Forked(qs: WorkQueues, op: Op): (r: WorkQueues)
    requires qs != []
    ensures |r| == |qs| && forall i :: 0 <= i < |qs| ==> r[i] == PushReq(qs[i], Share(op, |qs|, i))
  {
    seq(|qs|, i requires 0 <= i < |qs| => PushReq(qs[i], Share(op, |qs|, i)))
  }

  predicate CanJoin(qs: WorkQueues) {
    forall i :: 0 <= i < |qs| ==> qs[i].cq != [] && qs[i].credits > 0
  }

  function Joined(qs: WorkQueues): (r: WorkQueues)
    requires CanJoin(qs)
    ensures |r| == |qs| && forall i :: 0 <= i < |qs| ==> r[i] == PopResp(qs[i])
  {
    seq(|qs|, i requires 0 <= i < |qs| => PopResp(qs[i]))
  }

  lemma ShareStart(size: nat, n: nat)
    requires n > 0
    ensures ShareOffset(size, n, 0) == 0
  {}

  lemma ShareParts(op: Op, n: nat, i: nat)
    requires i < n
    ensures Share(op, n, i) == SubOp(op, op.buffer + ShareOffset(op.size, n, i),
      (op.size / 4 / n + if i < op.size / 4 % n then 1 else 0) * 4 + if i == n - 1 then op.size % 4 else 0,
      (op.group.aggAddr + op.group.aggLen / n * i) % 0x10000, op.group.aggLen / n)
    ensures ShareOffset(op.size, n, i + 1) == ShareOffset(op.size, n, i) + Share(op, n, i).size
  {}

  class LoadBalancer {
    const shm: QueuePair<Op>
    const qps: seq<QueuePair<SubOp>>

    ghost function Queues(): (r: WorkQueues)
      reads qps
      ensures |r| == |qps| && forall i :: 0 <= i < |qps| ==> r[i] == qps[i].Val()
    {
      seq(|qps|, i requires 0 <= i < |qps| reads qps => qps[i].Val())
    }

    ghost predicate Valid()
      reads shm, qps
    {
      && qps != []
      && (forall i, j :: 0 <= i < j < |qps| ==> qps[i] != qps[j])
      && (forall i :: 0 <= i < |qps| ==> |qps[i].wq| + |qps[i].cq| <= qps[i].numInQueue <= QUEUE_SIZE)
      && |shm.wq| + |shm.cq| <= shm.numInQueue <= QUEUE_SIZE
    }

    constructor (shm: QueuePair<Op>, qps: seq<QueuePair<SubOp>>)
      requires qps != [] && (forall i, j :: 0 <= i < j < |qps| ==> qps[i] != qps[j])
      requires forall i :: 0 <= i < |qps| ==> |qps[i].wq| + |qps[i].cq| <= qps[i].numInQueue <= QUEUE_SIZE
      requires |shm.wq| + |shm.cq| <= shm.numInQueue <= QUEUE_SIZE
      ensures Valid() && this.shm == shm && this.qps == qps
    {
      this.shm, this.qps := shm, qps;
    }

    /** Fork the oldest request, if there is one. */
    method TryPostOp() returns (ok: bool)
      requires Valid()
      requires shm.wq != [] && Reducing(shm.wq[0].code) ==> shm.wq[0].size % 4 == 0
      modifies shm, qps
      ensures ok <==> old(shm.wq) != []
      ensures !ok ==> shm.Val() == old(shm.Val()) && Queues() == old(Queues())
      ensures ok ==> shm.Val() == PopReq(old(shm.Val())) && Queues() == Forked(old(Queues()), old(shm.wq)[0])
    {
      var front := shm.FrontRequest();
      if front.None? { return false; }
      var op := front.value;
      shm.PopRequest();
      PushAll(op);
      ok := true;
    }

    /** Queue a share at every worker. */
    method PushAll(op: Op)
      requires qps != [] && (forall i, j :: 0 <= i < j < |qps| ==> qps[i] != qps[j])
      requires forall i :: 0 <= i < |qps| ==> |qps[i].wq| <= qps[i].numInQueue <= QUEUE_SIZE
      requires Reducing(op.code) ==> op.size % 4 == 0
      modifies qps
      ensures forall i :: 0 <= i < |qps| ==> qps[i].Val() == PushReq(old(qps[i].Val()), Share(op, |qps|, i))
    {
      hide Share, ShareSize, ShareOffset;
      var n := |qps|;
      var offset := 0;
      ShareStart(op.size, n);
      var words, additional := op.size / 4, op.size % 4;
      if Reducing(op.code) { assert additional == 0; }
      var i := 0;
      while i < n
        invariant 0 <= i <= n && offset == ShareOffset(op.size, n, i)
        invariant forall k :: 0 <= k < i ==> qps[k].Val() == PushReq(old(qps[k].Val()), Share(op, n, k))
        invariant forall k :: i <= k < n ==> qps[k].Val() == old(qps[k].Val())
      {
        var sub := NewSubOp(op, n, i, offset, words, additional);
        var pushed := qps[i].PushRequest(sub);
        offset := offset + sub.size;
        i := i + 1;
      }
    }

    /** The body of the loop: worker i's share, which starts at `offset`. */
    method NewSubOp(op: Op, n: nat, i: nat, offset: nat, words: nat, additional: nat) returns (sub: SubOp)
      requires i < n && offset == ShareOffset(op.size, n, i) && words == op.size / 4 && additional == op.size % 4
      ensures sub == Share(op, n, i) && ShareOffset(op.size, n, i + 1) == offset + sub.size
    {
      var size := (words / n + if i < words % n then 1 else 0) * 4;
      if i == n - 1 { size := size + additional; }
      var len := op.group.aggLen / n;
      var addr := (op.group.aggAddr + len * i) % 0x10000;
      sub := SubOp(op, op.buffer + offset, size, addr, len);
      ShareParts(op, n, i);
    }

    /** Does every worker have a response waiting? */
    method AllAnswered() returns (r: bool)
      ensures r <==> forall i :: 0 <= i < |qps| ==> qps[i].cq != []
    {
      var i := 0;
      while i < |qps|
        invariant 0 <= i <= |qps| && forall k :: 0 <= k < i ==> qps[k].cq != []
      {
        var front := qps[i].FrontResponse();
        if front.None? { return false; }
        i := i + 1;
      }
      r := true;
    }

    /** Join the responses at the front, if every worker has one, and answer the last one's operation. */
    method TryCompleteOp() returns (ok: bool)
      requires Valid() && |shm.cq| < QUEUE_SIZE
      modifies shm, qps
      ensures ok <==> CanJoin(old(Queues()))
      ensures !ok ==> shm.Val() == old(shm.Val()) && Queues() == old(Queues())
      ensures ok ==> Queues() == Joined(old(Queues()))
      ensures ok ==> shm.Val() == PushResp(old(shm.Val()), old(qps[|qps| - 1].cq[0].op))
    {
      var all := AllAnswered();
      if !all { return false; }
      var op := PopAll();
      shm.PushResponse(op);
      ok := true;
    }

    /** Take every worker's response, and the operation from the last of them. */
    method PopAll() returns (op: Op)
      requires qps != [] && (forall i, j :: 0 <= i < j < |qps| ==> qps[i] != qps[j])
      requires forall i :: 0 <= i < |qps| ==> qps[i].cq != [] && qps[i].numInQueue > 0
      modifies qps
      ensures forall i :: 0 <= i < |qps| ==> qps[i].Val() == PopResp(old(qps[i].Val()))
      ensures op == old(qps[|qps| - 1].cq[0].op)
    {
      var n := |qps|;
      var answered: Option<Op> := None;
      var i := 0;
      while i < n
        invariant 0 <= i <= n
        invariant i > 0 ==> answered == Some(old(qps[i - 1].cq[0].op))
        invariant forall k :: 0 <= k < i ==> qps[k].Val() == PopResp(old(qps[k].Val()))
        invariant forall k :: i <= k < n ==> qps[k].Val() == old(qps[k].Val())
      {
        var front := qps[i].FrontResponse();
        qps[i].PopResponse();
        answered := Some(front.value.op);
        i := i + 1;
      }
      op := answered.value;
    }
  }
}
