/** A work queue and a completion queue with a shared credit count (server/common/common.hpp:62-147).
    The single-producer single-consumer queues are linearizable FIFOs of 1024 entries. */
module QueuePairs {
  import opened NetCommon

  /** `credits` counts requests whose responses have not been taken back. */
  datatype Qp<T> = Qp(wq: seq<T>, cq: seq<T>, credits: nat)

  function EmptyQp<T>(): Qp<T> {
    Qp([], [], 0)
  }

  function PushReq<T>(q: Qp<T>, e: T): Qp<T> {
    if q.credits == QUEUE_SIZE then q else q.(wq := q.wq + [e], credits := q.credits + 1)
  }

  function PopReq<T>(q: Qp<T>): Qp<T>
    requires q.wq != []
  {
    q.(wq := q.wq[1..])
  }

  function PushResp<T>(q: Qp<T>, e: T): Qp<T> {
    q.(cq := q.cq + [e])
  }

  function PopResp<T>(q: Qp<T>): Qp<T>
    requires q.cq != [] && q.credits > 0
  {
    q.(cq := q.cq[1..], credits := q.credits - 1)
  }

  class QueuePair<T> {
    var wq: seq<T>
    var cq: seq<T>
    var numInQueue: nat

    ghost function Val(): Qp<T>
      reads this
    {
      Qp(wq, cq, numInQueue)
    }

    constructor ()
      ensures Val() == EmptyQp()
    {
      wq, cq, numInQueue := [], [], 0;
    }

    method Available() returns (n: int)
      ensures n == QUEUE_SIZE - numInQueue
    {
      n := QUEUE_SIZE - numInQueue;
    }

    /** Refused exactly when the credits are used up; the queue itself then never overflows. */
    method PushRequest(e: T) returns (ok: bool)
      requires |wq| <= numInQueue <= QUEUE_SIZE
      modifies this
      ensures Val() == PushReq(old(Val()), e)
      ensures ok == (old(numInQueue) < QUEUE_SIZE)
    {
      if numInQueue == QUEUE_SIZE { return false; }
      numInQueue := numInQueue + 1;
      assert |wq| < QUEUE_SIZE;
      wq := wq + [e];
      ok := true;
    }

    method FrontRequest() returns (r: Option<T>)
      ensures r == if wq == [] then None else Some(wq[0])
    {
      if |wq| > 0 { r := Some(wq[0]); } else { r := None; }
    }

    method PopRequest()
      requires wq != []
      modifies this
      ensures Val() == PopReq(old(Val()))
    {
      wq := wq[1..];
    }

    method PushResponse(e: T)
      requires |cq| < QUEUE_SIZE
      modifies this
      ensures Val() == PushResp(old(Val()), e)
    {
      cq := cq + [e];
    }

    method FrontResponse() returns (r: Option<T>)
      ensures r == if cq == [] then None else Some(cq[0])
    {
      if |cq| > 0 { r := Some(cq[0]); } else { r := None; }
    }

    method PopResponse()
      requires cq != [] && numInQueue > 0
      modifies this
      ensures Val() == PopResp(old(Val()))
    {
      cq := cq[1..];
      numInQueue := numInQueue - 1;
    }
  }
}
