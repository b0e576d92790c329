/** All threads together, from the Python call to the workers' queues and back: the Python thread
    (server/frontend/src/c/api.cpp:153-257), the daemon, the load balancer and the workers take
    turns in any order. What a worker does between taking a request and answering it is the subject
    of `Transport`; here it serves its queue in order. */
module Pipeline {
  import opened NetCommon
  import opened QueuePairs
  import opened Partition
  import opened LoadBalancers
  import D = Daemons
  import CB = CopyBuffers

  /** One collective call of the Python thread. */
  datatype Call = Call(code: OpCode, root: nat, group: Group, size: nat)

  /** `ops` lists every operation ever created. The counters say how far they have come: destroyed,
      returned to Python, joined, forked, forwarded to the backend. `todo` is what the segmentation
      loop has left, and `first` the number of operations created before the current call. Worker w
      has taken hand[w] from its queue and not answered it. */
  datatype Pipe = Pipe(
    ops: seq<Op>, freed: nat, returned: nat, joined: nat, forked: nat, forwarded: nat,
    call: Call, first: nat, todo: seq<Segment>,
    buf: CB.State, head: nat, cnt: nat,
    d: D.DaemonState, work: WorkQueues, hand: seq<seq<SubOp>>)

  datatype Event =
    | Begin(call: Call)
    | Create
    | Destroy
    | DaemonPosts(finished: bool)
    | DaemonCompletes(finished: bool)
    | Forks
    | Joins
    | Serves(w: nat, takes: nat, answers: nat)

  function Start(n: nat): Pipe {
    Pipe([], 0, 0, 0, 0, 0, Call(AllReduce, 0, Group(0, 0, 0, 0, 0, 0), 0), 0, [],
         CB.State(CB.Ends(0, 0), []), 0, 0,
         D.DaemonState(EmptyQp(), EmptyQp(), {}, []), seq(n, _ => EmptyQp()), seq(n, _ => []))
  }

  /** A collective whose size, when it reduces, suits the 32-bit words. */
  predicate GoodCall(call: Call) {
    Reducing(call.code) ==> call.size % 4 == 0
  }

  /** No segment to come gets a block that ends on the byte ring's last byte: exactly then all frees go
      well (`CopyBuffers.RunsWellIff`). Even sizes from an even head on are such sizes. */
  predicate Suits(head: nat, segs: seq<Segment>) {
    CB.OffEnds(head, Lengths(segs))
  }

  function NewOp(s: Pipe): Op
    requires s.todo != []
  {
    Op(s.head, s.call.code, s.call.root, s.todo[0].size, CB.Place(s.buf.ends, s.todo[0].size).0, s.call.group)
  }

  // ----- which thread can act -----

  /** A call begins when the previous one has returned, which waits until no operation is left. */
  predicate Enabled(s: Pipe, e: Event) {
    match e
    case Begin(call) => s.todo == [] && s.cnt == 0 && GoodCall(call) && Suits(s.buf.ends.head, Cut(call.size, 0))
    case Create => s.todo != [] && s.cnt < QUEUE_SIZE && s.todo[0].size <= CB.Available(s.buf.ends)
    case Destroy => s.d.py.cq != []
    case DaemonPosts(_) => s.d.py.wq != []
    case DaemonCompletes(_) => s.d.shm.cq != []
    case Forks => s.d.shm.wq != []
    case Joins => forall i :: 0 <= i < |s.work| ==> s.work[i].cq != []
    case Serves(w, t, a) => w < |s.work| == |s.hand| && t <= |s.work[w].wq| && a <= |s.hand[w]| + t
  }

  /** The assertions of the source at the step, and that no push is refused. */
  predicate Asserts(s: Pipe, e: Event) {
    match e
    case Begin(_) => true
    case Create => s.d.py.credits < QUEUE_SIZE && |s.d.py.wq| < QUEUE_SIZE
    case Destroy =>
      && s.d.py.cq != [] && s.cnt != 0 && s.d.py.credits > 0
      && CB.Freeable(s.buf.ends, s.d.py.cq[0].size)
    case DaemonPosts(f) => D.PostAction(s.d, f).Forwards? ==> s.d.shm.credits < QUEUE_SIZE && |s.d.shm.wq| < QUEUE_SIZE
    case DaemonCompletes(f) => s.d.shm.credits > 0 && (D.CompleteAction(s.d, f).Forwards? ==> |s.d.py.cq| < QUEUE_SIZE)
    case Forks =>
      && s.d.shm.wq != [] && s.work != []
      && (Reducing(s.d.shm.wq[0].code) ==> s.d.shm.wq[0].size % 4 == 0)
      && (forall i :: 0 <= i < |s.work| ==> s.work[i].credits < QUEUE_SIZE && |s.work[i].wq| < QUEUE_SIZE)
    case Joins =>
      && s.work != [] && CanJoin(s.work) && |s.d.shm.cq| < QUEUE_SIZE
      && (forall i :: 0 <= i < |s.work| ==> s.work[i].cq[0].op == s.work[|s.work| - 1].cq[0].op)
    case Serves(w, t, a) => w < |s.work| && |s.work[w].cq| + a <= QUEUE_SIZE
  }

  // ----- the steps -----

  function Created(s: Pipe): Pipe
    requires s.todo != []
  {
    var op := NewOp(s);
    s.(ops := s.ops + [op], todo := s.todo[1..],
       buf := CB.Step(s.buf, CB.Alloc(op.size)),
       head := if s.head + 1 == QUEUE_SIZE then 0 else s.head + 1, cnt := s.cnt + 1,
       d := s.d.(py := PushReq(s.d.py, op)))
  }

  function Destroyed(s: Pipe): Pipe
    requires s.d.py.cq != [] && s.cnt > 0 && s.d.py.credits > 0
  {
    s.(freed := s.freed + 1,
       buf := CB.State(CB.Freed(s.buf.ends, s.d.py.cq[0].size), if s.buf.live == [] then [] else s.buf.live[1..]), cnt := s.cnt - 1,
       d := s.d.(py := PopResp(s.d.py)))
  }

  function Posted(s: Pipe, finished: bool): Pipe {
    s.(forwarded := if D.PostAction(s.d, finished).Forwards? then s.forwarded + 1 else s.forwarded,
       d := D.Post(s.d, finished))
  }

  function Completed(s: Pipe, finished: bool): Pipe
    requires s.d.shm.credits > 0
  {
    s.(returned := if D.CompleteAction(s.d, finished).Forwards? then s.returned + 1 else s.returned,
       d := D.Complete(s.d, finished))
  }

  function ForkStep(s: Pipe): Pipe
    requires s.d.shm.wq != [] && s.work != []
  {
    s.(forked := s.forked + 1, d := s.d.(shm := PopReq(s.d.shm)), work := Forked(s.work, s.d.shm.wq[0]))
  }

  function JoinStep(s: Pipe): Pipe
    requires s.work != [] && CanJoin(s.work)
  {
    s.(joined := s.joined + 1, d := s.d.(shm := PushResp(s.d.shm, s.work[|s.work| - 1].cq[0].op)), work := Joined(s.work))
  }

  /** Worker w takes t requests and answers its a oldest ones. */
  function Served(s: Pipe, w: nat, t: nat, a: nat): Pipe
    requires w < |s.work| == |s.hand| && t <= |s.work[w].wq| && a <= |s.hand[w]| + t
  {
    var q, h := s.work[w], s.hand[w] + s.work[w].wq[..t];
    s.(work := s.work[w := q.(wq := q.wq[t..], cq := q.cq + h[..a])], hand := s.hand[w := h[a..]])
  }

  function Step(s: Pipe, e: Event): Pipe
    requires Enabled(s, e) && Asserts(s, e)
  {
    match e
    case Begin(call) => s.(call := call, first := |s.ops|, todo := Cut(call.size, 0))
    case Create => Created(s)
    case Destroy => Destroyed(s)
    case DaemonPosts(f) => Posted(s, f)
    case DaemonCompletes(f) => Completed(s, f)
    case Forks => ForkStep(s)
    case Joins => JoinStep(s)
    case Serves(w, t, a) => Served(s, w, t, a)
  }

  /** Past a failed assertion anything may follow. */
  predicate Next(s: Pipe, e: Event, t: Pipe) {
    Enabled(s, e) && (Asserts(s, e) ==> t == Step(s, e))
  }

  // ----- the invariant -----

  predicate OrderInv(s: Pipe) {
    s.first <= s.freed <= s.returned <= s.joined <= s.forked <= s.forwarded <= |s.ops|
  }

  /** The Python queue pair holds the newest and the oldest operations. */
  predicate PyInv(ops: seq<Op>, py: Qp<Op>, freed: nat, returned: nat, forwarded: nat)
    requires freed <= returned <= forwarded <= |ops|
  {
    py == Qp(ops[forwarded..], ops[freed..returned], |ops| - freed)
  }

  predicate ShmInv(ops: seq<Op>, shm: Qp<Op>, returned: nat, joined: nat, forked: nat, forwarded: nat)
    requires returned <= joined <= forked <= forwarded <= |ops|
  {
    shm == Qp(ops[forked..forwarded], ops[returned..joined], forwarded - returned)
  }

  function Subs(ops: seq<Op>, n: nat, w: nat): (r: seq<SubOp>)
    requires n > 0
    ensures |r| == |ops| && forall k :: 0 <= k < |ops| ==> r[k] == Share(ops[k], n, w)
  {
    seq(|ops|, k requires 0 <= k < |ops| => Share(ops[k], n, w))
  }

  /** A worker's answers, the requests in its hands and its queue are the shares of the operations
      that are forked and not joined, in this order. */
  predicate WorkerInv(pending: seq<Op>, n: nat, w: nat, q: Qp<SubOp>, hand: seq<SubOp>)
    requires n > 0
  {
    q.cq + hand + q.wq == Subs(pending, n, w) && q.credits == |pending|
  }

  predicate WorkInv(pending: seq<Op>, work: WorkQueues, hand: seq<seq<SubOp>>) {
    |work| == |hand| > 0 && forall w :: 0 <= w < |work| ==> WorkerInv(pending, |work|, w, work[w], hand[w])
  }

  predicate SlotsInv(ops: seq<Op>, freed: nat, head: nat, cnt: nat)
    requires freed <= |ops|
  {
    && cnt == |ops| - freed <= QUEUE_SIZE && head == |ops| % QUEUE_SIZE
    && (forall k :: 0 <= k < |ops| ==> ops[k].slot == k % QUEUE_SIZE)
  }

  function BlockOf(op: Op): CB.Block {
    CB.Block(op.buffer, op.size)
  }

  ghost predicate BufInv(ops: seq<Op>, freed: nat, buf: CB.State)
    requires freed <= |ops|
  {
    && CB.Sound(buf) && |buf.live| == |ops| - freed
    && (forall i :: 0 <= i < |buf.live| ==> buf.live[i] == BlockOf(ops[freed + i]))
  }

  predicate OfCall(op: Op, call: Call) {
    op.code == call.code && op.root == call.root && op.group == call.group
  }

  /** Every live operation belongs to the current call, and the call's operations are its segments. */
  predicate CallInv(ops: seq<Op>, first: nat, call: Call, todo: seq<Segment>)
    requires first <= |ops|
  {
    && GoodCall(call)
    && (first < |ops| || todo != [] ==>
          && |ops| - first <= |Cut(call.size, 0)|
          && todo == Cut(call.size, 0)[|ops| - first..])
    && (forall k :: first <= k < |ops| ==>
          && OfCall(ops[k], call) && k - first < |Cut(call.size, 0)|
          && ops[k].size == Cut(call.size, 0)[k - first].size)
  }

  function Outs(cs: seq<D.Copy>): seq<Op> {
    if cs == [] then [] else Outs(cs[..|cs| - 1]) + if cs[|cs| - 1].ToHost? then [cs[|cs| - 1].op] else []
  }

  function Backs(cs: seq<D.Copy>): seq<Op> {
    if cs == [] then [] else Backs(cs[..|cs| - 1]) + if cs[|cs| - 1].ToDevice? then [cs[|cs| - 1].op] else []
  }

  function TxOnly(ops: seq<Op>): seq<Op> {
    if ops == [] then [] else TxOnly(ops[..|ops| - 1]) + if NeedTx(ops[|ops| - 1]) && ops[|ops| - 1].size > 0 then [ops[|ops| - 1]] else []
  }

  function RxOnly(ops: seq<Op>): seq<Op> {
    if ops == [] then [] else RxOnly(ops[..|ops| - 1]) + if NeedRx(ops[|ops| - 1]) && ops[|ops| - 1].size > 0 then [ops[|ops| - 1]] else []
  }

  /** Is the copy of the operation at position `at` under way? */
  predicate Flagged(ops: seq<Op>, at: nat, edge: nat, copying: set<nat>) {
    at < edge <= |ops| && ops[at].slot in copying
  }

  /** Only operations at the two fronts are being copied, and each operation is copied once in each
      direction that it needs. */
  predicate CopyInv(ops: seq<Op>, returned: nat, joined: nat, forwarded: nat, copying: set<nat>, copies: seq<D.Copy>)
    requires returned <= joined <= forwarded <= |ops|
  {
    && (forall x :: x in copying ==>
          || (forwarded < |ops| && x == ops[forwarded].slot && NeedTx(ops[forwarded]))
          || (returned < joined && x == ops[returned].slot && NeedRx(ops[returned])))
    && Outs(copies) == TxOnly(ops[..if Flagged(ops, forwarded, |ops|, copying) then forwarded + 1 else forwarded])
    && Backs(copies) == RxOnly(ops[..if Flagged(ops, returned, joined, copying) then returned + 1 else returned])
  }

  ghost predicate Inv(s: Pipe) {
    && OrderInv(s)
    && PyInv(s.ops, s.d.py, s.freed, s.returned, s.forwarded)
    && ShmInv(s.ops, s.d.shm, s.returned, s.joined, s.forked, s.forwarded)
    && WorkInv(s.ops[s.joined..s.forked], s.work, s.hand)
    && SlotsInv(s.ops, s.freed, s.head, s.cnt)
    && BufInv(s.ops, s.freed, s.buf)
    && CallInv(s.ops, s.first, s.call, s.todo)
    && Suits(s.buf.ends.head, s.todo)
    && CopyInv(s.ops, s.returned, s.joined, s.forwarded, s.d.copying, s.d.copies)
  }

  // ----- the assertions hold -----

  lemma SegSizes(call: Call, i: nat)
    requires GoodCall(call) && i < |Cut(call.size, 0)|
    ensures var z := Cut(call.size, 0)[i].size; z <= SEGMENT_SIZE && (Reducing(call.code) ==> z % 4 == 0)
  {
    hide Cut;
    CutShape(call.size, 0, i);
    assert i * SEGMENT_SIZE == 4 * (i * (SEGMENT_SIZE / 4));
  }

  /** What every live operation is like. */
  lemma LiveOp(s: Pipe, k: nat)
    requires OrderInv(s) && CallInv(s.ops, s.first, s.call, s.todo) && s.freed <= k < |s.ops|
    ensures OfCall(s.ops[k], s.call)
    ensures s.ops[k].size <= SEGMENT_SIZE && (Reducing(s.ops[k].code) ==> s.ops[k].size % 4 == 0)
  {
    hide Cut;
    SegSizes(s.call, k - s.first);
  }

  lemma OldestBlock(s: Pipe)
    requires OrderInv(s) && BufInv(s.ops, s.freed, s.buf) && s.freed < |s.ops|
    ensures s.buf.live != [] && s.buf.live[0] == BlockOf(s.ops[s.freed])
    ensures CB.Freeable(s.buf.ends, s.ops[s.freed].size)
  {
    hide CB.Sound, CB.Freeable, CB.Apart;
    CB.SoundState(s.buf);
  }

  lemma PendingParts(s: Pipe, w: nat)
    requires OrderInv(s) && WorkInv(s.ops[s.joined..s.forked], s.work, s.hand) && w < |s.work|
    ensures |s.work[w].cq| + |s.hand[w]| + |s.work[w].wq| == s.work[w].credits == s.forked - s.joined
    ensures s.work[w].cq != [] ==> s.joined < s.forked && s.work[w].cq[0] == Share(s.ops[s.joined], |s.work|, w)
  {
    var pending := s.ops[s.joined..s.forked];
    assert WorkerInv(pending, |s.work|, w, s.work[w], s.hand[w]);
    if s.work[w].cq != [] {
      assert s.work[w].cq[0] == (s.work[w].cq + s.hand[w] + s.work[w].wq)[0];
    }
  }

  /** Credits nest: worker queues hold no more than the shared-memory queue, that no more than the
      Python queue, and that no more than the operation ring. */
  lemma CreditsNest(s: Pipe, w: nat)
    requires Inv(s) && w < |s.work|
    ensures s.work[w].credits <= s.d.shm.credits <= s.d.py.credits == s.cnt <= QUEUE_SIZE
    ensures s.d.shm.wq != [] ==> s.work[w].credits < s.d.shm.credits
    ensures s.d.py.wq != [] ==> s.d.shm.credits < s.d.py.credits
  {
    hide BufInv, CallInv, CopyInv, WorkInv;
    PendingParts(s, w);
  }

  /** No assertion of the source fails and no push is refused, in any state that the invariant allows. */
  lemma AssertsHold(s: Pipe, e: Event)
    requires Inv(s) && Enabled(s, e)
    ensures Asserts(s, e)
  {
    hide BufInv, CallInv, CopyInv, WorkInv, CB.Freeable, Share;
    assert s.work != [] by { HasWorkers(s); }
    match e
    case Destroy => OldestBlock(s);
    case Forks =>
      LiveOp(s, s.forked);
      forall w | 0 <= w < |s.work| ensures s.work[w].credits < QUEUE_SIZE && |s.work[w].wq| < QUEUE_SIZE {
        PendingParts(s, w);
      }
    case Joins =>
      PendingParts(s, 0);
      forall w | 0 <= w < |s.work|
        ensures s.work[w].cq != [] && s.work[w].credits > 0 && s.work[w].cq[0].op == s.ops[s.joined]
      {
        assert s.work[w].cq != [];
        PendingParts(s, w);
        SharesOp(s.ops[s.joined], |s.work|, w);
      }
    case Serves(w, t, a) => PendingParts(s, w);
    case _ =>
  }

  lemma HasWorkers(s: Pipe)
    requires Inv(s)
    ensures s.work != [] && |s.work| == |s.hand|
  {
    hide BufInv, CallInv, CopyInv, SlotsInv, PyInv, ShmInv, OrderInv;
  }

  lemma SharesOp(op: Op, n: nat, w: nat)
    requires n > 0
    ensures Share(op, n, w).op == op
  {}

  // ----- every step keeps the invariant -----

  lemma StartInv(n: nat)
    requires n > 0
    ensures Inv(Start(n))
  {
    CB.StartSound();
    var s := Start(n);
    forall w | 0 <= w < n ensures WorkerInv(s.ops[0..0], n, w, s.work[w], s.hand[w]) {
      assert Subs(s.ops[0..0], n, w) == [];
    }
  }

  lemma SliceAppend<T>(ops: seq<T>, op: T, i: nat, j: nat)
    requires i <= j <= |ops|
    ensures (ops + [op])[i..j] == ops[i..j]
    ensures (ops + [op])[i..] == ops[i..] + [op]
  {}

  lemma SliceMore<T>(ops: seq<T>, i: nat, j: nat)
    requires i <= j < |ops|
    ensures ops[i..j + 1] == ops[i..j] + [ops[j]]
    ensures ops[i..j + 1][1..] == ops[i + 1..j + 1]
  {}

  lemma BeginKeeps(s: Pipe, call: Call)
    requires Inv(s) && Enabled(s, Begin(call))
    ensures Inv(Step(s, Begin(call)))
  {
    hide PyInv, ShmInv, WorkInv, BufInv, CopyInv, Cut;
    CutCount(call.size, 0);
  }

  lemma CreateCall(ops: seq<Op>, first: nat, call: Call, todo: seq<Segment>, op: Op)
    requires first <= |ops| && CallInv(ops, first, call, todo) && todo != []
    requires OfCall(op, call) && op.size == todo[0].size
    ensures CallInv(ops + [op], first, call, todo[1..])
  {
    hide Cut, OfCall;
    var c, i := Cut(call.size, 0), |ops| - first;
    assert i < |c| && c[i] == c[i..][0];
    assert c[i..][1..] == c[i + 1..];
  }

  lemma CreateBuf(ops: seq<Op>, freed: nat, buf: CB.State, op: Op)
    requires freed <= |ops| && BufInv(ops, freed, buf) && CB.OffEnd(CB.BlockAt(buf.ends.head, op.size))
    requires op.size <= CB.Available(buf.ends) && op.buffer == CB.Place(buf.ends, op.size).0
    ensures BufInv(ops + [op], freed, CB.Step(buf, CB.Alloc(op.size)))
  {
    hide CB.Sound, CB.Available, CB.OffEnd, CB.BlockAt;
    CB.StepSound(buf, CB.Alloc(op.size));
  }

  lemma CreateCopy(ops: seq<Op>, returned: nat, joined: nat, forwarded: nat, copying: set<nat>, copies: seq<D.Copy>, op: Op, freed: nat)
    requires freed <= returned <= joined <= forwarded <= |ops| < freed + QUEUE_SIZE
    requires CopyInv(ops, returned, joined, forwarded, copying, copies)
    requires forall k :: 0 <= k <= |ops| ==> (ops + [op])[k].slot == k % QUEUE_SIZE
    ensures CopyInv(ops + [op], returned, joined, forwarded, copying, copies)
  {
    hide Outs, Backs, TxOnly, RxOnly;
    var now := ops + [op];
    assert forall k :: 0 <= k < |ops| ==> now[k] == ops[k];
    if forwarded == |ops| && returned < joined {
      CB.SlotsDistinct(freed, |ops| + 1 - freed, returned, |ops|);
    }
    assert Flagged(now, forwarded, |now|, copying) <==> Flagged(ops, forwarded, |ops|, copying);
    var i := if Flagged(ops, forwarded, |ops|, copying) then forwarded + 1 else forwarded;
    var j := if Flagged(ops, returned, joined, copying) then returned + 1 else returned;
    assert now[..i] == ops[..i] && now[..j] == ops[..j];
  }

  lemma CreateSlots(ops: seq<Op>, freed: nat, head: nat, cnt: nat, op: Op)
    requires freed <= |ops| && SlotsInv(ops, freed, head, cnt) && cnt < QUEUE_SIZE && op.slot == head
    ensures SlotsInv(ops + [op], freed, if head + 1 == QUEUE_SIZE then 0 else head + 1, cnt + 1)
  {}

  lemma CreateSuits(ends: CB.Ends, todo: seq<Segment>)
    requires Suits(ends.head, todo) && todo != []
    ensures CB.OffEnd(CB.BlockAt(ends.head, todo[0].size)) && Suits(CB.Place(ends, todo[0].size).1.head, todo[1..])
  {
    hide CB.OffEnds;
    CB.OffEndsFirst(ends.head, Lengths(todo));
    assert Lengths(todo)[1..] == Lengths(todo[1..]);
  }

  lemma CreateKeeps(s: Pipe)
    requires Inv(s) && Enabled(s, Create) && Asserts(s, Create)
    ensures Inv(Step(s, Create))
  {
    hide WorkInv, CopyInv, CallInv, BufInv, CB.Available, CB.Place, CB.Step, Cut, SlotsInv, Suits, CB.OffEnd, CB.BlockAt;
    var op := NewOp(s);
    CreateHead(s);
    CreateSlots(s.ops, s.freed, s.head, s.cnt, op);
    TodoSize(s);
    CreateSuits(s.buf.ends, s.todo);
    CreateCall(s.ops, s.first, s.call, s.todo, op);
    CreateBuf(s.ops, s.freed, s.buf, op);
    AllSlots(s.ops + [op], s.freed, Step(s, Create).head, s.cnt + 1);
    CreateCopy(s.ops, s.returned, s.joined, s.forwarded, s.d.copying, s.d.copies, op, s.freed);
    SliceAppend(s.ops, op, s.forwarded, |s.ops|);
    SliceAppend(s.ops, op, s.freed, s.returned);
    SliceAppend(s.ops, op, s.forked, s.forwarded);
    SliceAppend(s.ops, op, s.returned, s.joined);
    SliceAppend(s.ops, op, s.joined, s.forked);
  }

  lemma CreateHead(s: Pipe)
    requires s.todo != [] && s.todo[0].size <= CB.Available(s.buf.ends)
    ensures Created(s).buf.ends.head == CB.Place(s.buf.ends, s.todo[0].size).1.head
  {}

  lemma AllSlots(ops: seq<Op>, freed: nat, head: nat, cnt: nat)
    requires freed <= |ops| && SlotsInv(ops, freed, head, cnt)
    ensures |ops| - freed <= QUEUE_SIZE && forall k :: 0 <= k < |ops| ==> ops[k].slot == k % QUEUE_SIZE
  {}

  lemma TodoSize(s: Pipe)
    requires s.first <= |s.ops| && CallInv(s.ops, s.first, s.call, s.todo) && s.todo != []
    ensures s.todo[0].size <= SEGMENT_SIZE
  {
    hide Cut;
    assert s.todo[0] == Cut(s.call.size, 0)[|s.ops| - s.first];
    SegSizes(s.call, |s.ops| - s.first);
  }

  lemma DestroyBuf(ops: seq<Op>, freed: nat, buf: CB.State)
    requires freed < |ops| && BufInv(ops, freed, buf)
    ensures buf.live != [] && buf.live[0].size == ops[freed].size
    ensures BufInv(ops, freed + 1, CB.Step(buf, CB.Free))
  {
    hide CB.Sound;
    CB.StepSound(buf, CB.Free);
  }

  lemma DestroyKeeps(s: Pipe)
    requires Inv(s) && Enabled(s, Destroy) && Asserts(s, Destroy)
    ensures Inv(Step(s, Destroy))
  {
    hide WorkInv, CopyInv, CallInv, BufInv, CB.Freeable, ShmInv;
    DestroyBuf(s.ops, s.freed, s.buf);
    assert Step(s, Destroy).buf == CB.Step(s.buf, CB.Free);
    assert s.ops[s.freed..s.returned][1..] == s.ops[s.freed + 1..s.returned];
  }

  lemma ForkWork(pending: seq<Op>, work: WorkQueues, hand: seq<seq<SubOp>>, op: Op)
    requires WorkInv(pending, work, hand) && |pending| < QUEUE_SIZE
    ensures WorkInv(pending + [op], Forked(work, op), hand)
  {
    var n := |work|;
    hide Share;
    forall w | 0 <= w < n ensures WorkerInv(pending + [op], n, w, Forked(work, op)[w], hand[w]) {
      assert WorkerInv(pending, n, w, work[w], hand[w]);
      assert Subs(pending + [op], n, w) == Subs(pending, n, w) + [Share(op, n, w)];
      assert work[w].cq + hand[w] + (work[w].wq + [Share(op, n, w)]) == work[w].cq + hand[w] + work[w].wq + [Share(op, n, w)];
    }
  }

  lemma ForksKeeps(s: Pipe)
    requires Inv(s) && Enabled(s, Forks) && Asserts(s, Forks)
    ensures Inv(Step(s, Forks))
  {
    hide WorkInv, CopyInv, CallInv, BufInv, SlotsInv;
    PendingParts(s, 0);
    SliceMore(s.ops, s.joined, s.forked);
    ForkWork(s.ops[s.joined..s.forked], s.work, s.hand, s.ops[s.forked]);
    assert s.ops[s.forked..s.forwarded][1..] == s.ops[s.forked + 1..s.forwarded];
  }

  lemma JoinWork(pending: seq<Op>, work: WorkQueues, hand: seq<seq<SubOp>>)
    requires WorkInv(pending, work, hand) && CanJoin(work)
    ensures pending != [] && WorkInv(pending[1..], Joined(work), hand)
  {
    var n := |work|;
    hide Share;
    assert WorkerInv(pending, n, 0, work[0], hand[0]);
    forall w | 0 <= w < n ensures WorkerInv(pending[1..], n, w, Joined(work)[w], hand[w]) {
      assert WorkerInv(pending, n, w, work[w], hand[w]);
      assert Subs(pending[1..], n, w) == Subs(pending, n, w)[1..];
      assert work[w].cq[1..] + hand[w] + work[w].wq == (work[w].cq + hand[w] + work[w].wq)[1..];
    }
  }

  lemma JoinsKeeps(s: Pipe)
    requires Inv(s) && Enabled(s, Joins) && Asserts(s, Joins)
    ensures Inv(Step(s, Joins))
  {
    hide WorkInv, CallInv, BufInv, SlotsInv, CopyInv;
    var w := |s.work| - 1;
    PendingParts(s, w);
    SharesOp(s.ops[s.joined], |s.work|, w);
    JoinWork(s.ops[s.joined..s.forked], s.work, s.hand);
    assert s.ops[s.joined..s.forked][1..] == s.ops[s.joined + 1..s.forked];
    SliceMore(s.ops, s.returned, s.joined);
    JoinCopy(s);
  }

  lemma JoinCopy(s: Pipe)
    requires Inv(s) && s.joined < s.forked
    ensures CopyInv(s.ops, s.returned, s.joined + 1, s.forwarded, s.d.copying, s.d.copies)
  {
    hide WorkInv, CallInv, BufInv, PyInv, ShmInv, Outs, Backs, TxOnly, RxOnly;
    if s.returned == s.joined && s.forwarded < |s.ops| {
      CB.SlotsDistinct(s.freed, s.cnt, s.returned, s.forwarded);
    }
    assert Flagged(s.ops, s.returned, s.joined + 1, s.d.copying) <==> Flagged(s.ops, s.returned, s.joined, s.d.copying);
  }

  lemma ServeWorker(pending: seq<Op>, n: nat, w: nat, q: Qp<SubOp>, hand: seq<SubOp>, t: nat, a: nat)
    requires n > 0 && WorkerInv(pending, n, w, q, hand) && t <= |q.wq| && a <= |hand| + t
    ensures var h := hand + q.wq[..t]; WorkerInv(pending, n, w, q.(wq := q.wq[t..], cq := q.cq + h[..a]), h[a..])
  {
    var h := hand + q.wq[..t];
    assert q.wq == q.wq[..t] + q.wq[t..] && h == h[..a] + h[a..];
    assert q.cq + h[..a] + h[a..] + q.wq[t..] == q.cq + hand + q.wq;
  }

  lemma ServesKeeps(s: Pipe, w: nat, t: nat, a: nat)
    requires Inv(s) && Enabled(s, Serves(w, t, a))
    ensures Inv(Served(s, w, t, a))
  {
    hide CallInv, BufInv, SlotsInv, CopyInv, PyInv, ShmInv;
    var pending := s.ops[s.joined..s.forked];
    var r := Served(s, w, t, a);
    assert WorkerInv(pending, |s.work|, w, s.work[w], s.hand[w]);
    ServeWorker(pending, |s.work|, w, s.work[w], s.hand[w], t, a);
    forall v | 0 <= v < |r.work| ensures WorkerInv(pending, |r.work|, v, r.work[v], r.hand[v]) {
      assert WorkerInv(pending, |s.work|, v, s.work[v], s.hand[v]);
    }
  }

  // ----- the daemon's steps -----

  /** Live operations have different slots. */
  lemma SlotsDiffer(ops: seq<Op>, freed: nat, head: nat, cnt: nat, i: nat, j: nat)
    requires freed <= i < j < |ops| && SlotsInv(ops, freed, head, cnt)
    ensures ops[i].slot != ops[j].slot
  {
    CB.SlotsDistinct(freed, |ops| - freed, i, j);
  }

  predicate Apart(ops: seq<Op>, returned: nat, joined: nat, forwarded: nat) {
    returned < joined <= forwarded < |ops| ==> ops[returned].slot != ops[forwarded].slot
  }

  lemma OutsMore(cs: seq<D.Copy>, c: D.Copy)
    ensures Outs(cs + [c]) == Outs(cs) + if c.ToHost? then [c.op] else []
    ensures Backs(cs + [c]) == Backs(cs) + if c.ToDevice? then [c.op] else []
  {
    assert (cs + [c])[..|cs|] == cs;
  }

  lemma OnlyMore(ops: seq<Op>, k: nat)
    requires k < |ops|
    ensures TxOnly(ops[..k + 1]) == TxOnly(ops[..k]) + if NeedTx(ops[k]) && ops[k].size > 0 then [ops[k]] else []
    ensures RxOnly(ops[..k + 1]) == RxOnly(ops[..k]) + if NeedRx(ops[k]) && ops[k].size > 0 then [ops[k]] else []
  {
    assert ops[..k + 1][..k] == ops[..k];
  }

  lemma PostStarts(ops: seq<Op>, returned: nat, joined: nat, forwarded: nat, copying: set<nat>, copies: seq<D.Copy>)
    requires returned <= joined <= forwarded < |ops| && Apart(ops, returned, joined, forwarded)
    requires CopyInv(ops, returned, joined, forwarded, copying, copies)
    requires NeedTx(ops[forwarded]) && ops[forwarded].slot !in copying
    ensures var op := ops[forwarded];
      CopyInv(ops, returned, joined, forwarded, copying + {op.slot}, copies + if op.size > 0 then [D.ToHost(op)] else [])
  {
    hide Outs, Backs, TxOnly, RxOnly;
    OutsMore(copies, D.ToHost(ops[forwarded]));
    OnlyMore(ops, forwarded);
    var now := copying + {ops[forwarded].slot};
    assert copies + [] == copies;
    assert Flagged(ops, returned, joined, now) <==> Flagged(ops, returned, joined, copying);
  }

  lemma PostForwards(ops: seq<Op>, returned: nat, joined: nat, forwarded: nat, copying: set<nat>, copies: seq<D.Copy>)
    requires returned <= joined <= forwarded < |ops|
    requires Apart(ops, returned, joined, forwarded) && Apart(ops, returned, joined, forwarded + 1)
    requires forwarded + 1 < |ops| ==> ops[forwarded].slot != ops[forwarded + 1].slot
    requires CopyInv(ops, returned, joined, forwarded, copying, copies)
    requires NeedTx(ops[forwarded]) ==> ops[forwarded].slot in copying
    ensures var op := ops[forwarded];
      CopyInv(ops, returned, joined, forwarded + 1, if NeedTx(op) then copying - {op.slot} else copying, copies)
  {
    hide Outs, Backs, TxOnly, RxOnly;
    var op := ops[forwarded];
    OnlyMore(ops, forwarded);
    assert !NeedTx(op) ==> op.slot !in copying;
    var now := if NeedTx(op) then copying - {op.slot} else copying;
    assert !Flagged(ops, forwarded + 1, |ops|, now);
    assert Flagged(ops, forwarded, |ops|, copying) <==> NeedTx(op);
    assert Flagged(ops, returned, joined, now) <==> Flagged(ops, returned, joined, copying);
  }

  lemma CompleteStarts(ops: seq<Op>, returned: nat, joined: nat, forwarded: nat, copying: set<nat>, copies: seq<D.Copy>)
    requires returned < joined <= forwarded <= |ops| && Apart(ops, returned, joined, forwarded)
    requires CopyInv(ops, returned, joined, forwarded, copying, copies)
    requires NeedRx(ops[returned]) && ops[returned].slot !in copying
    ensures var op := ops[returned];
      CopyInv(ops, returned, joined, forwarded, copying + {op.slot}, copies + if op.size > 0 then [D.ToDevice(op)] else [])
  {
    hide Outs, Backs, TxOnly, RxOnly;
    OutsMore(copies, D.ToDevice(ops[returned]));
    OnlyMore(ops, returned);
    var now := copying + {ops[returned].slot};
    assert copies + [] == copies;
    assert Flagged(ops, forwarded, |ops|, now) <==> Flagged(ops, forwarded, |ops|, copying);
  }

  lemma CompleteForwards(ops: seq<Op>, returned: nat, joined: nat, forwarded: nat, copying: set<nat>, copies: seq<D.Copy>)
    requires returned < joined <= forwarded <= |ops|
    requires Apart(ops, returned, joined, forwarded) && Apart(ops, returned + 1, joined, forwarded)
    requires returned + 1 < joined ==> ops[returned].slot != ops[returned + 1].slot
    requires CopyInv(ops, returned, joined, forwarded, copying, copies)
    requires NeedRx(ops[returned]) ==> ops[returned].slot in copying
    ensures var op := ops[returned];
      CopyInv(ops, returned + 1, joined, forwarded, if NeedRx(op) then copying - {op.slot} else copying, copies)
  {
    hide Outs, Backs, TxOnly, RxOnly;
    var op := ops[returned];
    OnlyMore(ops, returned);
    assert !NeedRx(op) ==> op.slot !in copying;
    var now := if NeedRx(op) then copying - {op.slot} else copying;
    assert !Flagged(ops, returned + 1, joined, now);
    assert Flagged(ops, returned, joined, copying) <==> NeedRx(op);
    assert Flagged(ops, forwarded, |ops|, now) <==> Flagged(ops, forwarded, |ops|, copying);
  }

  /** The slots that the daemon's two fronts could confuse differ. */
  lemma FrontsApart(s: Pipe)
    requires Inv(s)
    ensures Apart(s.ops, s.returned, s.joined, s.forwarded)
    ensures Apart(s.ops, s.returned, s.joined, s.forwarded + 1)
    ensures Apart(s.ops, s.returned + 1, s.joined, s.forwarded)
    ensures s.forwarded + 1 < |s.ops| ==> s.ops[s.forwarded].slot != s.ops[s.forwarded + 1].slot
    ensures s.returned + 1 < s.joined ==> s.ops[s.returned].slot != s.ops[s.returned + 1].slot
  {
    hide PyInv, ShmInv, WorkInv, BufInv, CallInv, CopyInv, SlotsInv;
    forall i, j | s.freed <= i < j < |s.ops| ensures s.ops[i].slot != s.ops[j].slot {
      SlotsDiffer(s.ops, s.freed, s.head, s.cnt, i, j);
    }
  }

  lemma DaemonPostsKeeps(s: Pipe, f: bool)
    requires Inv(s) && Enabled(s, DaemonPosts(f)) && Asserts(s, DaemonPosts(f))
    ensures Inv(Posted(s, f))
  {
    hide WorkInv, BufInv, CallInv, CopyInv, SlotsInv, NeedTx, Apart;
    FrontsApart(s);
    assert s.forwarded < |s.ops| && s.d.py.wq[0] == s.ops[s.forwarded];
    assert s.d.py.wq[1..] == s.ops[s.forwarded + 1..];
    SliceMore(s.ops, s.forked, s.forwarded);
    if D.PostAction(s.d, f).Starts? {
      PostStarts(s.ops, s.returned, s.joined, s.forwarded, s.d.copying, s.d.copies);
    }
    if D.PostAction(s.d, f).Forwards? {
      PostForwards(s.ops, s.returned, s.joined, s.forwarded, s.d.copying, s.d.copies);
    }
  }

  lemma DaemonCompletesKeeps(s: Pipe, f: bool)
    requires Inv(s) && Enabled(s, DaemonCompletes(f)) && Asserts(s, DaemonCompletes(f))
    ensures Inv(Completed(s, f))
  {
    hide WorkInv, BufInv, CallInv, CopyInv, SlotsInv, NeedRx, Apart;
    FrontsApart(s);
    assert s.returned < s.joined && s.d.shm.cq[0] == s.ops[s.returned];
    assert s.d.shm.cq[1..] == s.ops[s.returned + 1..s.joined];
    SliceMore(s.ops, s.freed, s.returned);
    if D.CompleteAction(s.d, f).Starts? {
      CompleteStarts(s.ops, s.returned, s.joined, s.forwarded, s.d.copying, s.d.copies);
    }
    if D.CompleteAction(s.d, f).Forwards? {
      CompleteForwards(s.ops, s.returned, s.joined, s.forwarded, s.d.copying, s.d.copies);
    }
  }

  lemma NextKeeps(s: Pipe, e: Event, t: Pipe)
    requires Inv(s) && Next(s, e, t)
    ensures Inv(t) && Asserts(s, e) && |t.work| == |s.work|
  {
    hide Inv;
    AssertsHold(s, e);
    match e
    case Begin(call) => BeginKeeps(s, call);
    case Create => CreateKeeps(s);
    case Destroy => DestroyKeeps(s);
    case DaemonPosts(f) => DaemonPostsKeeps(s, f);
    case DaemonCompletes(f) => DaemonCompletesKeeps(s, f);
    case Forks => ForksKeeps(s);
    case Joins => JoinsKeeps(s);
    case Serves(w, k, a) => ServesKeeps(s, w, k, a);
  }

  // ----- whole runs -----

  ghost predicate Run(n: nat, ss: seq<Pipe>, es: seq<Event>) {
    && n > 0 && |ss| == |es| + 1 && ss[0] == Start(n)
    && (forall i :: 0 <= i < |es| ==> Next(ss[i], es[i], ss[i + 1]))
  }

  /** Over every run of any number of workers and every interleaving of the threads, the invariant
      holds and no assertion of the source ever fails. */
  lemma {:induction false} AlwaysSafe(n: nat, ss: seq<Pipe>, es: seq<Event>, i: nat)
    requires Run(n, ss, es) && i < |ss|
    ensures Inv(ss[i]) && |ss[i].work| == n
    ensures i < |es| ==> Asserts(ss[i], es[i])
  {
    hide Inv, Enabled, Asserts, Step;
    if i == 0 {
      StartInv(n);
    } else {
      AlwaysSafe(n, ss, es, i - 1);
      assert Next(ss[i - 1], es[i - 1], ss[i]);
      NextKeeps(ss[i - 1], es[i - 1], ss[i]);
    }
    if i < |es| {
      assert Next(ss[i], es[i], ss[i + 1]);
      NextKeeps(ss[i], es[i], ss[i + 1]);
    }
  }

  function OpLengths(ops: seq<Op>): (r: seq<nat>)
    ensures |r| == |ops| && forall k :: 0 <= k < |ops| ==> r[k] == ops[k].size
  {
    seq(|ops|, k requires 0 <= k < |ops| => ops[k].size)
  }

  /** Over every run the head is where the sizes so far leave it, however the threads took turns. So
      whether a call suits the ring depends on its size and on those of the calls before it only. */
  lemma {:induction false} AlwaysPlaced(n: nat, ss: seq<Pipe>, es: seq<Event>, i: nat)
    requires Run(n, ss, es) && i < |ss|
    ensures ss[i].buf.ends.head == CB.HeadAfter(0, OpLengths(ss[i].ops))
  {
    hide Inv, Enabled, Asserts, Step, CB.HeadAfter;
    if i == 0 {
      NoOps();
    } else {
      AlwaysPlaced(n, ss, es, i - 1);
      AlwaysSafe(n, ss, es, i - 1);
      assert Next(ss[i - 1], es[i - 1], ss[i]);
      StepPlaced(ss[i - 1], es[i - 1]);
    }
  }

  lemma NoOps()
    ensures CB.HeadAfter(0, OpLengths([])) == 0
  {}

  lemma StepPlaced(s: Pipe, e: Event)
    requires Enabled(s, e) && Asserts(s, e) && s.buf.ends.head == CB.HeadAfter(0, OpLengths(s.ops))
    ensures Step(s, e).buf.ends.head == CB.HeadAfter(0, OpLengths(Step(s, e).ops))
  {
    hide CB.HeadAfter, CB.Place, CB.Available, CB.Freeable, CB.Step, Suits;
    match e
    case Create =>
      CreateHead(s);
      var z := s.todo[0].size;
      CB.PlacedSnoc(0, OpLengths(s.ops), z);
      SameHead(s.buf.ends, z);
      assert OpLengths(Created(s).ops) == OpLengths(s.ops) + [z];
    case _ =>
  }

  lemma SameHead(e: CB.Ends, size: nat)
    ensures CB.Place(e, size).1.head == CB.NextHead(e.head, size)
  {}

  /** The condition on the next call, in terms of all sizes so far. */
  lemma NextCallSuitsIff(n: nat, ss: seq<Pipe>, es: seq<Event>, i: nat, size: nat)
    requires Run(n, ss, es) && i < |ss| && ss[i].todo == []
    ensures CB.OffEnds(0, OpLengths(ss[i].ops))
    ensures Suits(ss[i].buf.ends.head, Cut(size, 0)) <==> CB.OffEnds(0, OpLengths(ss[i].ops) + Lengths(Cut(size, 0)))
  {
    hide CB.OffEnds, CB.HeadAfter, Cut, Next;
    AlwaysPlaced(n, ss, es, i);
    AlwaysOff(n, ss, es, i);
    assert OpLengths(ss[i].ops) + Lengths(ss[i].todo) == OpLengths(ss[i].ops);
    CB.OffEndsAppend(0, OpLengths(ss[i].ops), Lengths(Cut(size, 0)));
  }

  lemma {:induction false} AlwaysOff(n: nat, ss: seq<Pipe>, es: seq<Event>, i: nat)
    requires Run(n, ss, es) && i < |ss|
    ensures CB.OffEnds(0, OpLengths(ss[i].ops) + Lengths(ss[i].todo))
  {
    hide Inv, Enabled, Asserts, Step, CB.OffEnds, CB.HeadAfter;
    if i == 0 {
      CB.NoneEnds(0);
      assert OpLengths(ss[0].ops) + Lengths(ss[0].todo) == [];
    } else {
      AlwaysOff(n, ss, es, i - 1);
      AlwaysSafe(n, ss, es, i - 1);
      AlwaysPlaced(n, ss, es, i - 1);
      assert Next(ss[i - 1], es[i - 1], ss[i]);
      StepOff(ss[i - 1], es[i - 1]);
    }
  }

  lemma StepOff(s: Pipe, e: Event)
    requires Enabled(s, e) && Asserts(s, e) && s.buf.ends.head == CB.HeadAfter(0, OpLengths(s.ops))
    requires CB.OffEnds(0, OpLengths(s.ops) + Lengths(s.todo))
    ensures var t := Step(s, e); CB.OffEnds(0, OpLengths(t.ops) + Lengths(t.todo))
  {
    hide CB.OffEnds, CB.HeadAfter, CB.Place, CB.Available, CB.Freeable, CB.Step, Cut;
    match e
    case Begin(call) =>
      assert OpLengths(s.ops) + Lengths(s.todo) == OpLengths(s.ops);
      CB.OffEndsAppend(0, OpLengths(s.ops), Lengths(Cut(call.size, 0)));
    case Create =>
      var t := Created(s);
      assert OpLengths(t.ops) + Lengths(t.todo) == OpLengths(s.ops) + Lengths(s.todo);
    case _ =>
  }

  /** Even sizes always suit. */
  lemma EvenSuits(sizes: seq<nat>, size: nat)
    requires size % 2 == 0 && forall i :: 0 <= i < |sizes| ==> sizes[i] % 2 == 0
    ensures CB.OffEnds(0, sizes + Lengths(Cut(size, 0)))
  {
    hide Cut;
    var c := Cut(size, 0);
    forall i | 0 <= i < |c| ensures c[i].size % 2 == 0 { CutShape(size, 0, i); }
    CB.EvenOffEnds(0, sizes + Lengths(c));
  }

  /** Over every run: operations are answered once each and in posting order, and at a join all
      workers' responses are shares of the same operation, the oldest unanswered one. */
  lemma EveryJoinMatches(n: nat, ss: seq<Pipe>, es: seq<Event>, i: nat, w: nat)
    requires Run(n, ss, es) && i < |es| && es[i] == Joins && w < n
    ensures var s, t := ss[i], ss[i + 1];
      && s.joined < |s.ops| && t.joined == s.joined + 1
      && w < |s.work| && s.work[w].cq != [] && s.work[w].cq[0] == Share(s.ops[s.joined], n, w)
      && t.d.shm.cq == s.d.shm.cq + [s.ops[s.joined]]
  {
    AlwaysSafe(n, ss, es, i);
    hide Inv;
    assert Next(ss[i], es[i], ss[i + 1]);
    JoinParts(ss[i], w);
    JoinParts(ss[i], n - 1);
  }

  lemma JoinParts(s: Pipe, w: nat)
    requires Inv(s) && w < |s.work| && s.work[w].cq != []
    ensures s.joined < |s.ops| && s.work[w].cq[0] == Share(s.ops[s.joined], |s.work|, w)
    ensures s.work[w].cq[0].op == s.ops[s.joined]
  {
    hide PyInv, ShmInv, SlotsInv, BufInv, CallInv, CopyInv, WorkInv;
    PendingParts(s, w);
  }

  /** Over every run, the operation that Python takes back is the oldest live one, and the ring's
      free, which is told only its size, releases exactly its block. */
  lemma EveryFreeIsOldest(n: nat, ss: seq<Pipe>, es: seq<Event>, i: nat)
    requires Run(n, ss, es) && i < |es| && es[i] == Destroy
    ensures var s, t := ss[i], ss[i + 1];
      && s.freed < |s.ops| && s.d.py.cq != [] && s.d.py.cq[0] == s.ops[s.freed]
      && s.buf.live != [] && s.buf.live[0] == BlockOf(s.ops[s.freed])
      && t.buf.live == s.buf.live[1..] && CB.Sound(t.buf)
  {
    AlwaysSafe(n, ss, es, i);
    AlwaysSafe(n, ss, es, i + 1);
    assert Next(ss[i], es[i], ss[i + 1]);
    DestroyParts(ss[i]);
    hide Inv;
    BufParts(ss[i + 1]);
  }

  lemma DestroyParts(s: Pipe)
    requires Inv(s) && s.d.py.cq != []
    ensures s.freed < |s.ops| && s.d.py.cq[0] == s.ops[s.freed]
    ensures s.buf.live != [] && s.buf.live[0] == BlockOf(s.ops[s.freed])
  {
    hide ShmInv, WorkInv, SlotsInv, CallInv, CopyInv, BufInv;
    OldestBlock(s);
  }

  lemma BufParts(s: Pipe)
    requires Inv(s)
    ensures CB.Sound(s.buf)
  {
    hide ShmInv, PyInv, WorkInv, SlotsInv, CallInv, CopyInv, CB.Sound;
  }

  /** Over every run, everything between the Python thread and the workers is of one group at any
      time: a call returns only when all of its operations are gone. */
  lemma OneGroupLive(n: nat, ss: seq<Pipe>, es: seq<Event>, i: nat, j: nat)
    requires Run(n, ss, es) && i < |ss| && ss[i].freed <= j < |ss[i].ops|
    ensures ss[i].ops[j].group == ss[i].call.group
  {
    AlwaysSafe(n, ss, es, i);
    hide ShmInv, PyInv, WorkInv, SlotsInv, BufInv, CopyInv, CallInv;
    LiveOp(ss[i], j);
  }

  /** Over every run, each operation is copied to the host once if it sends and back once if it
      receives, in order, before it is passed on; the two directions never confuse each other's flag. */
  lemma CopiedOnce(n: nat, ss: seq<Pipe>, es: seq<Event>, i: nat)
    requires Run(n, ss, es) && i < |ss|
    ensures var s := ss[i];
      && s.returned <= s.forwarded <= |s.ops|
      && TxOnly(s.ops[..s.forwarded]) <= Outs(s.d.copies) && |Outs(s.d.copies)| <= |TxOnly(s.ops[..s.forwarded])| + 1
      && RxOnly(s.ops[..s.returned]) <= Backs(s.d.copies) && |Backs(s.d.copies)| <= |RxOnly(s.ops[..s.returned])| + 1
  {
    hide ShmInv, PyInv, WorkInv, SlotsInv, BufInv, CallInv, Outs, Backs, TxOnly, RxOnly, Run;
    AlwaysSafe(n, ss, es, i);
    CopyParts(ss[i]);
  }

  lemma CopyParts(s: Pipe)
    requires OrderInv(s) && CopyInv(s.ops, s.returned, s.joined, s.forwarded, s.d.copying, s.d.copies)
    ensures
      && TxOnly(s.ops[..s.forwarded]) <= Outs(s.d.copies) && |Outs(s.d.copies)| <= |TxOnly(s.ops[..s.forwarded])| + 1
      && RxOnly(s.ops[..s.returned]) <= Backs(s.d.copies) && |Backs(s.d.copies)| <= |RxOnly(s.ops[..s.returned])| + 1
  {
    hide Outs, Backs, TxOnly, RxOnly;
    if s.forwarded < |s.ops| { OnlyMore(s.ops, s.forwarded); }
    if s.returned < |s.ops| { OnlyMore(s.ops, s.returned); }
  }
}
