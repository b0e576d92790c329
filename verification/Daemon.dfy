/** The frontend's daemon thread (server/frontend/src/c/daemon.cpp:8-104). Forwarding an operation
    takes two steps when its bytes have to be copied: the first starts the copy, and a later one
    finds it finished and forwards. An operation and its op_with_fut point at each other, so its slot
    names both, and `copying` holds the slots whose flag is set. */
module Daemons {
  import opened NetCommon
  import opened QueuePairs

  datatype Copy = ToHost(op: Op) | ToDevice(op: Op)

  /** `copies` lists the memory copies in the order they were started. */
  datatype DaemonState = DaemonState(py: Qp<Op>, shm: Qp<Op>, copying: set<nat>, copies: seq<Copy>)

  datatype Action = Idle | Starts | Waits | Forwards

  /** What the thread does for the operation at a queue's front. */
  function Decide(front: Option<Op>, needed: bool, copying: set<nat>, finished: bool): Action {
    if front.None? then Idle
    else if needed && front.value.slot !in copying then Starts
    else if needed && !finished then Waits
    else Forwards
  }

  function Front<T>(q: seq<T>): Option<T> {
    if q == [] then None else Some(q[0])
  }

  /** `finished` is what the query of the operation's copy event returns. */
  function PostAction(d: DaemonState, finished: bool): Action {
    Decide(Front(d.py.wq), d.py.wq != [] && NeedTx(d.py.wq[0]), d.copying, finished)
  }

  function Post(d: DaemonState, finished: bool): DaemonState {
    match PostAction(d, finished)
    case Idle => d
    case Waits => d
    case Starts =>
      var op := d.py.wq[0];
      d.(copying := d.copying + {op.slot}, copies := d.copies + if op.size > 0 then [ToHost(op)] else [])
    case Forwards =>
      var op := d.py.wq[0];
      d.(py := PopReq(d.py), shm := PushReq(d.shm, op), copying := if NeedTx(op) then d.copying - {op.slot} else d.copying)
  }

  function CompleteAction(d: DaemonState, finished: bool): Action {
    Decide(Front(d.shm.cq), d.shm.cq != [] && NeedRx(d.shm.cq[0]), d.copying, finished)
  }

  function Complete(d: DaemonState, finished: bool): DaemonState
    requires d.shm.credits > 0
  {
    match CompleteAction(d, finished)
    case Idle => d
    case Waits => d
    case Starts =>
      var op := d.shm.cq[0];
      d.(copying := d.copying + {op.slot}, copies := d.copies + if op.size > 0 then [ToDevice(op)] else [])
    case Forwards =>
      var op := d.shm.cq[0];
      d.(shm := PopResp(d.shm), py := PushResp(d.py, op), copying := if NeedRx(op) then d.copying - {op.slot} else d.copying)
  }

  class Daemon {
    const py: QueuePair<Op>
    const shm: QueuePair<Op>
    var copying: set<nat>
    ghost var copies: seq<Copy>

    ghost function Val(): DaemonState
      reads this, py, shm
    {
      DaemonState(py.Val(), shm.Val(), copying, copies)
    }

    ghost predicate Valid()
      reads this, py, shm
    {
      && py != shm
      && |py.wq| + |py.cq| <= py.numInQueue <= QUEUE_SIZE
      && |shm.wq| + |shm.cq| <= shm.numInQueue <= QUEUE_SIZE
    }

    constructor (py: QueuePair<Op>, shm: QueuePair<Op>)
      requires py != shm
      requires |py.wq| + |py.cq| <= py.numInQueue <= QUEUE_SIZE
      requires |shm.wq| + |shm.cq| <= shm.numInQueue <= QUEUE_SIZE
      ensures Valid() && Val() == DaemonState(py.Val(), shm.Val(), {}, [])
    {
      this.py, this.shm, copying, copies := py, shm, {}, [];
    }

    /** Move the oldest request one step towards the backend. The source asserts that the push is
        accepted, which is the precondition on credits. */
    method TryPostOp(finished: bool) returns (progress: bool)
      requires Valid() && (py.wq != [] ==> shm.numInQueue < QUEUE_SIZE)
      modifies this, py, shm
      ensures Val() == Post(old(Val()), finished)
      ensures progress <==> PostAction(old(Val()), finished).Starts? || PostAction(old(Val()), finished).Forwards?
    {
      var front := py.FrontRequest();
      if front.None? { return false; }
      var op := front.value;
      if NeedTx(op) {
        if op.slot !in copying {
          copying := copying + {op.slot};
          if op.size > 0 { copies := copies + [ToHost(op)]; }
          return true;
        }
        if !finished { return false; }
        copying := copying - {op.slot};
      }
      py.PopRequest();
      var ret := shm.PushRequest(op);
      assert ret;
      progress := true;
    }

    /** Move the oldest response one step towards Python. */
    method TryCompleteOp(finished: bool) returns (progress: bool)
      requires Valid() && (shm.cq != [] ==> |py.cq| < QUEUE_SIZE && shm.numInQueue > 0)
      modifies this, py, shm
      ensures old(shm.numInQueue) > 0 ==> Val() == Complete(old(Val()), finished)
      ensures old(shm.numInQueue) == 0 ==> Val() == old(Val())
      ensures progress <==> CompleteAction(old(Val()), finished).Starts? || CompleteAction(old(Val()), finished).Forwards?
    {
      var front := shm.FrontResponse();
      if front.None? { return false; }
      var op := front.value;
      if NeedRx(op) {
        if op.slot !in copying {
          copying := copying + {op.slot};
          if op.size > 0 { copies := copies + [ToDevice(op)]; }
          return true;
        }
        if !finished { return false; }
        copying := copying - {op.slot};
      }
      shm.PopResponse();
      py.PushResponse(op);
      progress := true;
    }
  }
}
