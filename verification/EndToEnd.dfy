/** The threads of `Pipeline`, the workers of `Transport` and the bytes they share, put together. The
    assumptions that `Transport` makes on its surroundings are proved here, and what is left is the
    one on the network: an arriving packet answers a packet that was sent less than 2^32 ago. */
module EndToEnd {
  import opened NetCommon
  import opened QueuePairs
  import opened Partition
  import opened Transport
  import opened TransportMemory
  import opened SharedMemory
  import TS = TransportShape
  import TR = TransportRuns
  import P = Pipeline
  import D = Daemons
  import CB = CopyBuffers

  /** `mem` is the copy buffer, which all threads map, `input` the tensor as the current call found
      it, and `tensor` the tensor now. Worker w's own view of memory is flows[w].mem. */
  datatype Sys = Sys(p: P.Pipe, flows: seq<Flow>, mem: seq<Byte>, input: seq<Byte>, tensor: seq<Byte>)

  datatype SysEvent =
    | Calls(call: P.Call, tensor: seq<Byte>)
    | Thread(e: P.Event)
    | Works(w: nat, step: TR.Event, takes: nat, answers: nat)
    | Copies(out: bool, bytes: seq<Byte>)

  // ----- the steps -----

  function Segs(s: Sys): seq<Segment> {
    Cut(s.p.call.size, 0)
  }

  /** The segment of the tensor that operation k of the current call covers. */
  predicate HasSeg(s: Sys, k: nat) {
    s.p.first <= k && k - s.p.first < |Segs(s)|
  }

  function Seg(s: Sys, k: nat): Segment
    requires HasSeg(s, k)
  {
    Segs(s)[k - s.p.first]
  }

  /** A copy stays inside the tensor and the copy buffer, and both ends have the same length. */
  predicate CopyFits(s: Sys, k: nat) {
    && k < |s.p.ops| && HasSeg(s, k)
    && Seg(s, k).size == s.p.ops[k].size
    && Seg(s, k).offset + Seg(s, k).size <= |s.tensor|
    && s.p.ops[k].buffer + s.p.ops[k].size <= |s.mem|
  }

  /** A copy to the host, or back, has been started and not been seen finished. */
  predicate GoingOut(p: P.Pipe) {
    P.Flagged(p.ops, p.forwarded, |p.ops|, p.d.copying)
  }

  predicate GoingBack(p: P.Pipe) {
    P.Flagged(p.ops, p.returned, p.joined, p.d.copying)
  }

  predicate SendsNow(s: Sys, e: P.Event) {
    e.DaemonPosts? && D.PostAction(s.p.d, e.finished).Forwards? && NeedTx(s.p.d.py.wq[0])
  }

  predicate BringsBackNow(s: Sys, e: P.Event) {
    e.DaemonCompletes? && D.CompleteAction(s.p.d, e.finished).Forwards? && NeedRx(s.p.d.shm.cq[0])
  }

  /** Memory safety of the step: every access is inside its buffer. */
  predicate InBounds(s: Sys, e: P.Event) {
    && (SendsNow(s, e) ==> CopyFits(s, s.p.forwarded))
    && (BringsBackNow(s, e) ==> CopyFits(s, s.p.returned))
    && (e.Forks? ==>
          && s.p.d.shm.wq != [] && s.flows != []
          && (forall w :: 0 <= w < |s.flows| ==> JobOk(Share(s.p.d.shm.wq[0], |s.flows|, w), |s.flows[w].mem|)))
  }

  /** Every worker sees the shared memory. */
  function Seeing(flows: seq<Flow>, mem: seq<Byte>): (r: seq<Flow>)
    ensures |r| == |flows| && forall w :: 0 <= w < |flows| ==> r[w] == flows[w].(mem := mem)
  {
    seq(|flows|, w requires 0 <= w < |flows| => flows[w].(mem := mem))
  }

  function Posts(flows: seq<Flow>, op: Op): (r: seq<Flow>)
    requires flows != [] && forall w :: 0 <= w < |flows| ==> JobOk(Share(op, |flows|, w), |flows[w].mem|)
    ensures |r| == |flows| && forall w :: 0 <= w < |flows| ==> r[w] == Post(flows[w], Share(op, |flows|, w))
  {
    seq(|flows|, w requires 0 <= w < |flows| => Post(flows[w], Share(op, |flows|, w)))
  }

  function OutMem(s: Sys, bytes: seq<Byte>): (r: seq<Byte>)
    requires CopyFits(s, s.p.forwarded) && |bytes| == s.p.ops[s.p.forwarded].size
    ensures |r| == |s.mem|
  {
    WriteAt(s.mem, s.p.ops[s.p.forwarded].buffer, bytes)
  }

  function SentBytes(s: Sys): (r: seq<Byte>)
    requires CopyFits(s, s.p.forwarded)
    ensures |r| == s.p.ops[s.p.forwarded].size
  {
    var g := Seg(s, s.p.forwarded);
    s.tensor[g.offset..g.offset + g.size]
  }

  function SentMem(s: Sys): seq<Byte>
    requires CopyFits(s, s.p.forwarded)
  {
    OutMem(s, SentBytes(s))
  }

  function Block(mem: seq<Byte>, op: Op): (r: seq<Byte>)
    requires op.buffer + op.size <= |mem|
    ensures |r| == op.size
  {
    mem[op.buffer..op.buffer + op.size]
  }

  function BackTo(s: Sys, bytes: seq<Byte>): (r: seq<Byte>)
    requires CopyFits(s, s.p.returned) && |bytes| == s.p.ops[s.p.returned].size
    ensures |r| == |s.tensor|
  {
    WriteAt(s.tensor, Seg(s, s.p.returned).offset, bytes)
  }

  function BroughtBack(s: Sys): seq<Byte>
    requires CopyFits(s, s.p.returned)
  {
    BackTo(s, Block(s.mem, s.p.ops[s.p.returned]))
  }

  /** The memory side of a thread's step. The bytes of a copy are in place once its event has been found
      finished, if it had been started; an event that was never recorded reads as finished, too. */
  function ThreadStep(s: Sys, e: P.Event, p: P.Pipe): Sys
    requires InBounds(s, e)
  {
    if SendsNow(s, e) && GoingOut(s.p) && e.finished then s.(p := p, mem := SentMem(s), flows := Seeing(s.flows, SentMem(s)))
    else if BringsBackNow(s, e) && GoingBack(s.p) && e.finished then s.(p := p, tensor := BroughtBack(s))
    else if e.Forks? then s.(p := p, flows := Posts(s.flows, s.p.d.shm.wq[0]))
    else s.(p := p)
  }

  /** The aggregator range of a group must give every worker at least one. */
  predicate CallOk(call: P.Call, n: nat) {
    P.GoodCall(call) && n <= call.group.aggLen
  }

  /** While a copy is under way, the bytes at its destination may be anything. */
  ghost predicate CopyNext(s: Sys, out: bool, bytes: seq<Byte>, t: Sys) {
    if out then
      GoingOut(s.p) && (CopyFits(s, s.p.forwarded) ==>
        && |bytes| == s.p.ops[s.p.forwarded].size
        && t == s.(mem := OutMem(s, bytes), flows := Seeing(s.flows, OutMem(s, bytes))))
    else
      GoingBack(s.p) && (CopyFits(s, s.p.returned) ==>
        |bytes| == s.p.ops[s.p.returned].size && t == s.(tensor := BackTo(s, bytes)))
  }

  /** Past a failed assertion or an access out of bounds anything may follow. */
  ghost predicate SysNext(s: Sys, e: SysEvent, t: Sys, R: seq<Results>) {
    match e
    case Calls(call, tensor) =>
      && CallOk(call, |s.flows|) && |tensor| == call.size
      && P.Next(s.p, P.Begin(call), t.p) && t == s.(p := t.p, input := tensor, tensor := tensor)
    case Thread(pe) =>
      && !pe.Begin? && !pe.Serves? && P.Next(s.p, pe, t.p)
      && (InBounds(s, pe) ==> t == ThreadStep(s, pe, t.p))
    case Works(w, fe, takes, answers) =>
      && w < |s.flows| == |t.flows| == |R| && Own(fe) && TR.Next(s.flows[w], fe, t.flows[w], R[w])
      && t.flows[w].popped == s.flows[w].popped + takes && t.flows[w].done == s.flows[w].done + answers
      && P.Next(s.p, P.Serves(w, takes, answers), t.p)
      && t == s.(p := t.p, mem := t.flows[w].mem, flows := Seeing(s.flows[w := t.flows[w]], t.flows[w].mem))
    case Copies(out, bytes) => CopyNext(s, out, bytes, t)
  }

  function Start(n: nat, mem: seq<Byte>): Sys {
    Sys(P.Start(n), seq(n, _ => Transport.Start(mem)), mem, [], [])
  }

  // ----- the invariant -----

  /** The worker's queue in `Pipeline` and its jobs in `Transport` are the same. */
  ghost predicate Linked(ops: seq<Op>, forked: nat, joined: nat, n: nat, w: nat, q: Qp<SubOp>, hand: seq<SubOp>, f: Flow)
    requires forked <= |ops| && n > 0
  {
    && |f.posted| == forked
    && (forall k :: 0 <= k < forked ==> f.posted[k].sub == Share(ops[k], n, w))
    && |hand| == f.popped - f.done && |q.cq| == f.done - joined && |q.wq| == |f.posted| - f.popped
  }

  /** Worker w's part of a tensor segment. */
  function Part(tensor: seq<Byte>, g: Segment, n: nat, w: nat): seq<Byte>
    requires w < n && g.offset + g.size <= |tensor|
  {
    ShareEnds(g.size, n, w);
    tensor[g.offset + ShareOffset(g.size, n, w)..g.offset + ShareOffset(g.size, n, w) + ShareSize(g.size, n, w)]
  }

  predicate SegsFit(segs: seq<Segment>, size: nat) {
    forall i :: 0 <= i < |segs| ==> segs[i].offset + segs[i].size <= size
  }

  /** What the workers got to send is what the call found in the tensor. */
  ghost predicate Fed(f: Flow, first: nat, segs: seq<Segment>, n: nat, w: nat, input: seq<Byte>)
    requires w < n && SegsFit(segs, |input|)
  {
    forall k :: first <= k < |f.posted| && NeedTx(f.posted[k].sub.op) ==>
      k - first < |segs| && f.posted[k].input == Part(input, segs[k - first], n, w)
  }

  ghost predicate WorkerGood(p: P.Pipe, n: nat, w: nat, mem: seq<Byte>, input: seq<Byte>, f: Flow, R: Results)
    requires w < n == |p.work| == |p.hand| && p.forked <= |p.ops| && SegsFit(Cut(p.call.size, 0), |input|)
  {
    && InvM(f, R) && f.done <= |f.posted| && f.mem == mem
    && Linked(p.ops, p.forked, p.joined, n, w, p.work[w], p.hand[w], f)
    && Kept(f, p.freed, R)
    && Fed(f, p.first, Cut(p.call.size, 0), n, w, input)
  }

  ghost predicate InBuffer(ops: seq<Op>, k: nat, g: Segment, mem: seq<Byte>, input: seq<Byte>)
    requires k < |ops|
  {
    && ops[k].buffer + ops[k].size <= |mem| && g.offset + g.size <= |input|
    && Block(mem, ops[k]) == input[g.offset..g.offset + g.size]
  }

  /** Operations that are forwarded and not forked have their input in the copy buffer. */
  ghost predicate Waiting(s: Sys) {
    forall k :: s.p.forked <= k < s.p.forwarded && k < |s.p.ops| && NeedTx(s.p.ops[k]) ==>
      HasSeg(s, k) && InBuffer(s.p.ops, k, Seg(s, k), s.mem, s.input)
  }

  predicate CanResult(flows: seq<Flow>, R: seq<Results>, k: nat) {
    |R| == |flows| && forall w :: 0 <= w < |flows| ==>
      k < |flows[w].posted| && (Reducing(flows[w].posted[k].sub.op.code) ==> flows[w].posted[k].sub.size % 4 == 0)
  }

  /** What the first n workers leave of operation k, one after the other. */
  function OpResult(flows: seq<Flow>, R: seq<Results>, k: nat, n: nat): seq<Byte>
    requires CanResult(flows, R, k) && n <= |flows|
  {
    if n == 0 then [] else OpResult(flows, R, k, n - 1) + Outcome(flows[n - 1].posted, k, R[n - 1])
  }

  predicate CallReceives(call: P.Call) {
    NeedRx(Op(0, call.code, call.root, 0, 0, call.group))
  }

  predicate AsFound(s: Sys, i: nat)
    requires i < |Segs(s)| && var g := Segs(s)[i]; g.offset + g.size <= |s.tensor| == |s.input|
  {
    var g := Segs(s)[i];
    (s.p.first + i == s.p.returned && GoingBack(s.p)) || s.tensor[g.offset..g.offset + g.size] == s.input[g.offset..g.offset + g.size]
  }

  /** Segment i of the tensor holds its result once its operation has returned, and its input before its
      result is being copied. */
  ghost predicate SegRight(s: Sys, i: nat, R: seq<Results>)
    requires i < |Segs(s)|
  {
    var g := Segs(s)[i];
    && g.offset + g.size <= |s.tensor| == |s.input|
    && if s.p.first + i < s.p.returned && CallReceives(s.p.call) then
         CanResult(s.flows, R, s.p.first + i) &&
         s.tensor[g.offset..g.offset + g.size] == OpResult(s.flows, R, s.p.first + i, |s.flows|)
       else AsFound(s, i)
  }

  ghost predicate TensorRight(s: Sys, R: seq<Results>) {
    forall i :: 0 <= i < |Segs(s)| ==> SegRight(s, i, R)
  }

  ghost predicate Sizes(s: Sys, R: seq<Results>) {
    && |s.flows| == |s.p.work| == |s.p.hand| == |R| && |s.flows| > 0
    && |s.mem| == CB.CAPACITY + 1
    && |s.tensor| == |s.input| == s.p.call.size
    && SegsFit(Segs(s), |s.input|)
    && (s.p.first < |s.p.ops| || s.p.todo != [] ==> |s.flows| <= s.p.call.group.aggLen)
  }

  ghost predicate WorkersGood(s: Sys, R: seq<Results>)
    requires s.p.forked <= |s.p.ops| && Sizes(s, R)
  {
    forall w :: 0 <= w < |s.flows| ==> WorkerGood(s.p, |s.flows|, w, s.mem, s.input, s.flows[w], R[w])
  }

  ghost predicate SysInv(s: Sys, R: seq<Results>) {
    && P.Inv(s.p) && s.p.forked <= |s.p.ops| && Sizes(s, R)
    && WorkersGood(s, R)
    && Waiting(s) && TensorRight(s, R)
  }

  // ----- where things lie -----

  lemma LiveBlocks(p: P.Pipe, j: nat, k: nat)
    requires P.Inv(p) && p.freed <= j < |p.ops| && p.freed <= k < |p.ops|
    ensures p.ops[k].buffer + p.ops[k].size <= CB.CAPACITY + 1
    ensures j != k ==> CB.NoOverlap(P.BlockOf(p.ops[j]), P.BlockOf(p.ops[k]))
  {
    hide P.PyInv, P.ShmInv, P.WorkInv, P.SlotsInv, P.CallInv, P.CopyInv, CB.Sound;
    CB.SoundState(p.buf);
    var a, b := j - p.freed, k - p.freed;
    assert p.buf.live[a] == P.BlockOf(p.ops[j]) && p.buf.live[b] == P.BlockOf(p.ops[k]);
    assert a < b ==> CB.NoOverlap(p.buf.live[a], p.buf.live[b]);
    assert b < a ==> CB.NoOverlap(p.buf.live[b], p.buf.live[a]);
  }

  lemma ShareInBlock(op: Op, n: nat, w: nat)
    requires w < n
    ensures var x := Share(op, n, w); op.buffer <= x.data && x.data + x.size <= op.buffer + op.size
  {
    ShareEnds(op.size, n, w);
  }

  /** Shares of live operations lie apart unless they are the same share. */
  lemma LiveShares(p: P.Pipe, n: nat, j: nat, v: nat, k: nat, w: nat)
    requires P.Inv(p) && p.freed <= j < |p.ops| && p.freed <= k < |p.ops| && v < n && w < n
    requires j != k || v != w
    ensures Disjoint(Share(p.ops[j], n, v), Share(p.ops[k], n, w))
  {
    hide P.Inv, Share;
    LiveBlocks(p, j, k);
    SharesApart(p.ops[j], p.ops[k], n, v, w);
  }

  lemma ShareClearOfBlock(p: P.Pipe, n: nat, j: nat, v: nat, k: nat)
    requires P.Inv(p) && p.freed <= j < |p.ops| && p.freed <= k < |p.ops| && v < n && j != k
    ensures var op := p.ops[k]; Clear(Share(p.ops[j], n, v), op.buffer, op.buffer + op.size)
  {
    hide P.Inv, Share;
    LiveBlocks(p, j, k);
    ShareInBlock(p.ops[j], n, v);
  }

  lemma OrderOf(p: P.Pipe)
    requires P.Inv(p)
    ensures p.first <= p.freed <= p.returned <= p.joined <= p.forked <= p.forwarded <= |p.ops|
    ensures p.cnt == |p.ops| - p.freed
  {
    hide P.PyInv, P.ShmInv, P.WorkInv, P.BufInv, P.CallInv, P.CopyInv;
  }

  /** What the current call says of its operations. */
  lemma CallOf(p: P.Pipe, k: nat)
    requires P.Inv(p) && p.first <= k < |p.ops|
    ensures k - p.first < |Cut(p.call.size, 0)|
    ensures var op := p.ops[k];
      && P.OfCall(op, p.call) && op.size == Cut(p.call.size, 0)[k - p.first].size
      && (Reducing(op.code) ==> op.size % 4 == 0)
  {
    hide P.PyInv, P.ShmInv, P.WorkInv, P.BufInv, P.SlotsInv, P.CopyInv, Cut;
    P.SegSizes(p.call, k - p.first);
  }

  lemma SameNeeds(op: Op, call: P.Call)
    requires P.OfCall(op, call)
    ensures NeedRx(op) <==> CallReceives(call)
  {}

  lemma CutFits(size: nat)
    ensures SegsFit(Cut(size, 0), size)
  {
    hide Cut;
    forall i | 0 <= i < |Cut(size, 0)| ensures Cut(size, 0)[i].offset + Cut(size, 0)[i].size <= size { CutShape(size, 0, i); }
  }

  // ----- steps that touch no memory -----

  /** The other threads' progress leaves a worker good. */
  lemma WorkerFrame(p: P.Pipe, q: P.Pipe, n: nat, w: nat, mem: seq<Byte>, input: seq<Byte>, f: Flow, R: Results)
    requires w < n == |p.work| == |p.hand| == |q.work| == |q.hand| && p.forked <= |p.ops| && SegsFit(Cut(p.call.size, 0), |input|)
    requires WorkerGood(p, n, w, mem, input, f, R)
    requires p.ops <= q.ops && q.forked == p.forked && q.first == p.first && q.call == p.call && p.freed <= q.freed
    requires |q.hand[w]| == |p.hand[w]| && |q.work[w].wq| == |p.work[w].wq|
    requires |q.work[w].cq| + q.joined == |p.work[w].cq| + p.joined
    ensures WorkerGood(q, n, w, mem, input, f, R)
  {
    hide InvM, Cut, HoldsOutcome, Fed, Share;
    assert forall k :: 0 <= k < p.forked ==> q.ops[k] == p.ops[k];
  }

  // ----- memory written by others -----

  lemma WorkerForeign(p: P.Pipe, n: nat, w: nat, mem: seq<Byte>, input: seq<Byte>, f: Flow, R: Results, now: seq<Byte>)
    requires w < n == |p.work| == |p.hand| && p.forked <= |p.ops| && SegsFit(Cut(p.call.size, 0), |input|)
    requires WorkerGood(p, n, w, mem, input, f, R) && p.freed <= p.joined && |now| == |mem|
    requires forall k :: p.freed <= k < p.forked ==>
      var x := Share(p.ops[k], n, w); x.data + x.size <= |mem| && now[x.data..x.data + x.size] == mem[x.data..x.data + x.size]
    ensures WorkerGood(p, n, w, now, input, f.(mem := now), R)
  {
    hide InvM, Cut, Fed, Share, Kept, Region;
    Parts(f, R);
    assert p.freed <= f.done;
    forall k | p.freed <= k < |f.posted| ensures Region(now, f.posted[k].sub) == Region(f.mem, f.posted[k].sub) {
      assert f.posted[k].sub == Share(p.ops[k], n, w);
      assert JobGood(f.posted[k], |f.mem|);
      RegionSlice(f.mem, now, f.posted[k].sub);
    }
    ForeignWrite(f, p.freed, now, R);
    FedFrame(f, now, p.first, Cut(p.call.size, 0), n, w, input);
  }

  lemma FedFrame(f: Flow, now: seq<Byte>, first: nat, segs: seq<Segment>, n: nat, w: nat, input: seq<Byte>)
    requires w < n && SegsFit(segs, |input|) && Fed(f, first, segs, n, w, input)
    ensures Fed(f.(mem := now), first, segs, n, w, input)
  {
    hide Part;
  }

  // ----- the load balancer's request -----

  /** The assumption that the transport makes on a new request holds: one group, and a region apart
      from every unanswered one. */
  lemma ForkCanPost(p: P.Pipe, n: nat, w: nat, mem: seq<Byte>, input: seq<Byte>, f: Flow, R: Results)
    requires P.Inv(p) && p.forked < |p.ops| && |mem| == CB.CAPACITY + 1
    requires w < n == |p.work| == |p.hand| && SegsFit(Cut(p.call.size, 0), |input|) && n <= p.call.group.aggLen
    requires WorkerGood(p, n, w, mem, input, f, R)
    ensures CanPost(f, Share(p.ops[p.forked], n, w))
  {
    hide P.Inv, InvM, Cut, Fed, Share, Kept;
    OrderOf(p);
    CallOf(p, p.forked);
    var sub := Share(p.ops[p.forked], n, w);
    ForkJobOk(p, n, w);
    forall j | f.done <= j < |f.posted| ensures Gid(f.posted, j) == sub.op.group.id && Disjoint(f.posted[j].sub, sub) {
      assert p.freed <= j < p.forked;
      LiveShares(p, n, j, w, p.forked, w);
      CallOf(p, j);
      ShareOp(p.ops[j], n, w);
      ShareOp(p.ops[p.forked], n, w);
    }
  }

  lemma ShareOp(op: Op, n: nat, w: nat)
    requires w < n
    ensures Share(op, n, w).op == op
  {}

  lemma ForkJobOk(p: P.Pipe, n: nat, w: nat)
    requires P.Inv(p) && p.freed <= p.forked < |p.ops| && p.first <= p.forked
    requires w < n <= p.call.group.aggLen
    ensures JobOk(Share(p.ops[p.forked], n, w), CB.CAPACITY + 1)
  {
    hide P.Inv, Cut;
    var op := p.ops[p.forked];
    LiveBlocks(p, p.forked, p.forked);
    CallOf(p, p.forked);
    hide ShareSize, ShareOffset;
    ShareInBlock(op, n, w);
    ShareEnds(op.size, n, w);
    Positive(op.group.aggLen, n);
  }

  lemma Positive(a: nat, n: nat)
    requires 0 < n <= a
    ensures a / n > 0
  {
    assert a == a / n * n + a % n;
  }

  lemma RegionIsPart(mem: seq<Byte>, op: Op, input: seq<Byte>, g: Segment, n: nat, w: nat)
    requires w < n && op.buffer + op.size <= |mem| && g.offset + g.size <= |input| && g.size == op.size
    requires Block(mem, op) == input[g.offset..g.offset + g.size]
    ensures var x := Share(op, n, w);
      x.data + x.size <= |mem| && mem[x.data..x.data + x.size] == Part(input, g, n, w)
  {
    hide ShareSize, ShareOffset;
    ShareEnds(op.size, n, w);
    var o, z := ShareOffset(op.size, n, w), ShareSize(op.size, n, w);
    SliceOfSlice(mem, op.buffer, op.buffer + op.size, o, o + z);
    SliceOfSlice(input, g.offset, g.offset + g.size, o, o + z);
  }

  lemma SliceOfSlice<T>(s: seq<T>, a: nat, b: nat, c: nat, d: nat)
    requires a <= b <= |s| && c <= d <= b - a
    ensures s[a..b][c..d] == s[a + c..a + d]
  {
    var x, y := s[a..b][c..d], s[a + c..a + d];
    assert |x| == |y| && forall i :: 0 <= i < |x| ==> x[i] == y[i];
  }

  /** Forking the operation gives worker w its share, filled from the call's input. */
  lemma WorkerForks(p: P.Pipe, q: P.Pipe, n: nat, w: nat, mem: seq<Byte>, input: seq<Byte>, f: Flow, R: Results)
    requires P.Inv(p) && p.forked < p.forwarded <= |p.ops| && p.first <= p.forked && |mem| == CB.CAPACITY + 1
    requires w < n == |p.work| == |p.hand| == |q.work| == |q.hand| && SegsFit(Cut(p.call.size, 0), |input|) && n <= p.call.group.aggLen
    requires WorkerGood(p, n, w, mem, input, f, R)
    requires q.ops == p.ops && q.forked == p.forked + 1 && q.first == p.first && q.call == p.call && q.freed == p.freed && q.joined == p.joined
    requires q.hand[w] == p.hand[w] && q.work[w].cq == p.work[w].cq && |q.work[w].wq| == |p.work[w].wq| + 1
    requires NeedTx(p.ops[p.forked]) ==>
      p.forked - p.first < |Cut(p.call.size, 0)| && InBuffer(p.ops, p.forked, Cut(p.call.size, 0)[p.forked - p.first], mem, input)
    ensures JobOk(Share(p.ops[p.forked], n, w), |mem|)
    ensures WorkerGood(q, n, w, mem, input, Post(f, Share(p.ops[p.forked], n, w)), R)
  {
    hide P.Inv, InvM, Cut, Share, Kept, CanPost, Fed;
    ForkCanPost(p, n, w, mem, input, f, R);
    var op := p.ops[p.forked];
    var sub := Share(op, n, w);
    JobOfPost(f, sub);
    PostKept(f, sub, p.freed, R);
    ForkFed(p, n, w, mem, input, f);
  }

  lemma ForkFed(p: P.Pipe, n: nat, w: nat, mem: seq<Byte>, input: seq<Byte>, f: Flow)
    requires P.Inv(p) && p.first <= p.forked < |p.ops| && |f.posted| == p.forked && f.mem == mem
    requires w < n && SegsFit(Cut(p.call.size, 0), |input|)
    requires Fed(f, p.first, Cut(p.call.size, 0), n, w, input)
    requires JobOk(Share(p.ops[p.forked], n, w), |mem|)
    requires NeedTx(p.ops[p.forked]) ==>
      p.forked - p.first < |Cut(p.call.size, 0)| && InBuffer(p.ops, p.forked, Cut(p.call.size, 0)[p.forked - p.first], mem, input)
    ensures Fed(Post(f, Share(p.ops[p.forked], n, w)), p.first, Cut(p.call.size, 0), n, w, input)
  {
    hide P.Inv, Cut, Share, Part, JobOk;
    var op := p.ops[p.forked];
    ShareOp(op, n, w);
    if NeedTx(op) {
      CallOf(p, p.forked);
      RegionIsPart(mem, op, input, Cut(p.call.size, 0)[p.forked - p.first], n, w);
    }
  }

  // ----- the worker's own step -----

  lemma WorkerOwn(p: P.Pipe, q: P.Pipe, n: nat, w: nat, mem: seq<Byte>, input: seq<Byte>, f: Flow, e: TR.Event, g: Flow, R: Results)
    requires P.Inv(p) && w < n == |p.work| == |p.hand| == |q.work| == |q.hand| && SegsFit(Cut(p.call.size, 0), |input|)
    requires p.forked <= |p.ops| && WorkerGood(p, n, w, mem, input, f, R)
    requires TR.Next(f, e, g, R) && Own(e)
    requires q.ops == p.ops && q.forked == p.forked && q.first == p.first && q.call == p.call && q.freed == p.freed && q.joined == p.joined
    requires |q.hand[w]| == g.popped - g.done && |q.work[w].cq| == g.done - p.joined && |q.work[w].wq| == p.forked - g.popped
    ensures WorkerGood(q, n, w, g.mem, input, g, R)
  {
    hide P.Inv, InvM, Cut, Share, Kept, Fed, TR.Next;
    OrderOf(p);
    StepCounts(f, e, g, R);
    forall k, j | p.freed <= k < f.done <= j < |f.posted| ensures Apart(f.posted, k, j) {
      LiveShares(p, n, k, w, j, w);
    }
    OwnStepKeeps(f, e, g, R, p.freed);
    FedSame(f, g, p.first, Cut(p.call.size, 0), n, w, input);
  }

  lemma FedSame(f: Flow, g: Flow, first: nat, segs: seq<Segment>, n: nat, w: nat, input: seq<Byte>)
    requires w < n && SegsFit(segs, |input|) && Fed(f, first, segs, n, w, input) && g.posted == f.posted
    ensures Fed(g, first, segs, n, w, input)
  {
    hide Part;
  }

  /** What worker w writes is clear of every other live share and of every block not yet forked. */
  lemma OthersUntouched(p: P.Pipe, n: nat, w: nat, mem: seq<Byte>, input: seq<Byte>, f: Flow, e: TR.Event, g: Flow, R: Results, lo: nat, hi: nat)
    requires P.Inv(p) && w < n == |p.work| == |p.hand| && SegsFit(Cut(p.call.size, 0), |input|)
    requires p.forked <= |p.ops| && WorkerGood(p, n, w, mem, input, f, R)
    requires TR.Next(f, e, g, R) && Own(e) && lo <= hi <= |mem|
    requires forall k :: p.joined <= k < p.forked ==> Clear(Share(p.ops[k], n, w), lo, hi)
    ensures |g.mem| == |mem| && g.mem[lo..hi] == mem[lo..hi]
  {
    hide P.Inv, InvM, Cut, Share, Kept, Fed, TR.Next;
    assert forall j :: f.done <= j < |f.posted| ==> Clear(f.posted[j].sub, lo, hi);
    StepFrame(f, e, g, R, lo, hi);
  }

  /** Another worker's step leaves worker v good. */
  lemma WorkerOther(p: P.Pipe, q: P.Pipe, n: nat, v: nat, w: nat, mem: seq<Byte>, input: seq<Byte>, h: Flow, f: Flow, e: TR.Event, g: Flow, Rv: Results, R: Results)
    requires P.Inv(p) && w < n == |p.work| == |p.hand| == |q.work| == |q.hand| && v < n && v != w && SegsFit(Cut(p.call.size, 0), |input|)
    requires |mem| == CB.CAPACITY + 1
    requires p.forked <= |p.ops| && WorkerGood(p, n, v, mem, input, h, Rv) && WorkerGood(p, n, w, mem, input, f, R)
    requires TR.Next(f, e, g, R) && Own(e)
    requires q.ops == p.ops && q.forked == p.forked && q.first == p.first && q.call == p.call && q.freed == p.freed && q.joined == p.joined
    requires q.hand[v] == p.hand[v] && q.work[v] == p.work[v]
    ensures WorkerGood(q, n, v, g.mem, input, h.(mem := g.mem), Rv)
  {
    hide P.Inv, WorkerGood, Cut, Share, TR.Next;
    OrderOf(p);
    OthersUntouched(p, n, w, mem, input, f, e, g, R, 0, 0) by { EmptyClear(p, n, w); }
    forall k | p.freed <= k < p.forked
      ensures var x := Share(p.ops[k], n, v); x.data + x.size <= |mem| && g.mem[x.data..x.data + x.size] == mem[x.data..x.data + x.size]
    {
      var x := Share(p.ops[k], n, v);
      ShareInBlock(p.ops[k], n, v);
      LiveBlocks(p, k, k);
      forall j | p.joined <= j < p.forked ensures Clear(Share(p.ops[j], n, w), x.data, x.data + x.size) {
        LiveShares(p, n, j, w, k, v);
      }
      OthersUntouched(p, n, w, mem, input, f, e, g, R, x.data, x.data + x.size);
    }
    WorkerForeign(p, n, v, mem, input, h, Rv, g.mem);
    WorkerFrame(p, q, n, v, g.mem, input, h.(mem := g.mem), Rv);
  }

  lemma EmptyClear(p: P.Pipe, n: nat, w: nat)
    requires w < n
    ensures forall k :: 0 <= k < |p.ops| ==> Clear(Share(p.ops[k], n, w), 0, 0)
  {}

  // ----- results -----

  lemma {:induction false} OpResultSame(flows: seq<Flow>, now: seq<Flow>, R: seq<Results>, k: nat, n: nat)
    requires CanResult(flows, R, k) && |now| == |flows| && n <= |flows|
    requires forall w :: 0 <= w < |flows| ==> now[w].posted == flows[w].posted
    ensures CanResult(now, R, k) && OpResult(now, R, k, n) == OpResult(flows, R, k, n)
  {
    hide Outcome;
    if n > 0 { OpResultSame(flows, now, R, k, n - 1); }
  }

  lemma {:induction false} OpResultPost(flows: seq<Flow>, now: seq<Flow>, R: seq<Results>, k: nat, n: nat)
    requires CanResult(flows, R, k) && |now| == |flows| && n <= |flows|
    requires forall w :: 0 <= w < |flows| ==> |now[w].posted| > 0 && now[w].posted[..|now[w].posted| - 1] == flows[w].posted
    ensures CanResult(now, R, k) && OpResult(now, R, k, n) == OpResult(flows, R, k, n)
  {
    hide Outcome;
    forall w | 0 <= w < |flows| ensures k < |now[w].posted| && now[w].posted[k] == flows[w].posted[k] {
      assert now[w].posted[..|now[w].posted| - 1][k] == flows[w].posted[k];
    }
    if n > 0 {
      OpResultPost(flows, now, R, k, n - 1);
      var ps := now[n - 1].posted;
      assert ps == flows[n - 1].posted + [ps[|ps| - 1]];
      OutcomeAppend(flows[n - 1].posted, ps[|ps| - 1], k, R[n - 1]);
    }
  }

  /** When every worker has answered operation k, its block holds the workers' results in a row. */
  lemma {:induction false} BlockIsResult(flows: seq<Flow>, R: seq<Results>, mem: seq<Byte>, op: Op, k: nat, n: nat)
    requires CanResult(flows, R, k) && n <= |flows| && flows != [] && op.buffer + op.size <= |mem|
    requires forall w :: 0 <= w < |flows| ==>
      && flows[w].posted[k].sub == Share(op, |flows|, w) && flows[w].mem == mem
      && JobGood(flows[w].posted[k], |mem|) && HoldsOutcome(flows[w], k, R[w])
    ensures op.buffer + ShareOffset(op.size, |flows|, n) <= |mem|
    ensures mem[op.buffer..op.buffer + ShareOffset(op.size, |flows|, n)] == OpResult(flows, R, k, n)
  {
    hide Outcome, ShareSize, ShareOffset, JobGood, HoldsOutcome, Share, OpResult;
    OneMoreResult(flows, R, op, k, n);
    if n > 0 {
      BlockIsResult(flows, R, mem, op, k, n - 1);
      RegionIsOutcome(flows[n - 1], R[n - 1], mem, op, k, |flows|, n - 1);
      SlicesJoin(mem, op.buffer, op.buffer + ShareOffset(op.size, |flows|, n - 1), op.buffer + ShareOffset(op.size, |flows|, n));
    }
  }

  lemma OneMoreResult(flows: seq<Flow>, R: seq<Results>, op: Op, k: nat, n: nat)
    requires CanResult(flows, R, k) && n <= |flows| && flows != []
    ensures n == 0 ==> ShareOffset(op.size, |flows|, n) == 0 && OpResult(flows, R, k, n) == []
    ensures n > 0 ==>
      && ShareOffset(op.size, |flows|, n) == ShareOffset(op.size, |flows|, n - 1) + ShareSize(op.size, |flows|, n - 1)
      && OpResult(flows, R, k, n) == OpResult(flows, R, k, n - 1) + Outcome(flows[n - 1].posted, k, R[n - 1])
  {
    hide Outcome, ShareSize;
  }

  lemma RegionIsOutcome(f: Flow, R: Results, mem: seq<Byte>, op: Op, k: nat, n: nat, w: nat)
    requires w < n && k < |f.posted| && f.posted[k].sub == Share(op, n, w) && f.mem == mem
    requires JobGood(f.posted[k], |mem|) && HoldsOutcome(f, k, R)
    ensures var a := op.buffer + ShareOffset(op.size, n, w);
      && a + ShareSize(op.size, n, w) <= |mem|
      && mem[a..a + ShareSize(op.size, n, w)] == Outcome(f.posted, k, R)
  {
    hide Outcome, ShareSize, ShareOffset;
  }

  lemma SlicesJoin(mem: seq<Byte>, a: nat, b: nat, c: nat)
    requires a <= b <= c <= |mem|
    ensures mem[a..c] == mem[a..b] + mem[b..c]
  {}

  // ----- the steps of the whole system -----

  /** What the invariant says of one worker. */
  lemma OneWorker(s: Sys, R: seq<Results>, w: nat)
    requires SysInv(s, R) && w < |s.flows|
    ensures Sizes(s, R) && WorkerGood(s.p, |s.flows|, w, s.mem, s.input, s.flows[w], R[w])
  {
    hide P.Inv, Waiting, TensorRight, WorkerGood, Sizes;
  }

  lemma SysParts(s: Sys, R: seq<Results>)
    requires SysInv(s, R)
    ensures P.Inv(s.p) && s.p.forked <= |s.p.ops| && Sizes(s, R) && Waiting(s) && TensorRight(s, R) && WorkersGood(s, R)
  {
    hide P.Inv, Waiting, TensorRight, WorkersGood, Sizes;
  }

  /** What workers have answered everything before the joined operations. */
  lemma AnsweredAll(s: Sys, R: seq<Results>, k: nat)
    requires SysInv(s, R) && k < s.p.joined
    ensures |s.flows| == |R| && CanResult(s.flows, R, k)
    ensures forall w :: 0 <= w < |s.flows| ==> k < s.flows[w].done <= |s.flows[w].posted|
  {
    hide P.Inv, Waiting, TensorRight, InvM, Kept, Fed, Share;
    SysParts(s, R);
    forall w | 0 <= w < |s.flows|
      ensures k < s.flows[w].done <= |s.flows[w].posted|
      ensures Reducing(s.flows[w].posted[k].sub.op.code) ==> s.flows[w].posted[k].sub.size % 4 == 0
    {
      OneWorker(s, R, w);
      JobSizes(s.flows[w], R[w], k);
    }
  }

  lemma JobSizes(f: Flow, R: Results, k: nat)
    requires InvM(f, R) && k < |f.posted|
    ensures JobGood(f.posted[k], |f.mem|)
  {
    hide TS.Inv, MemoryRight, PacketsRight;
  }

  /** Memory safety: every access of every step is in bounds. */
  lemma AlwaysInBounds(s: Sys, e: P.Event, R: seq<Results>)
    requires SysInv(s, R) && P.Enabled(s.p, e)
    ensures InBounds(s, e)
  {
    hide P.Inv, SysInv, CopyFits, JobOk, Share;
    SysParts(s, R);
    OrderOf(s.p);
    Fronts(s.p);
    P.AssertsHold(s.p, e);
    if SendsNow(s, e) { Fits(s, R, s.p.forwarded); }
    if BringsBackNow(s, e) { Fits(s, R, s.p.returned); }
    if e.Forks? {
      forall w | 0 <= w < |s.flows| ensures JobOk(Share(s.p.d.shm.wq[0], |s.flows|, w), |s.flows[w].mem|) {
        OneWorker(s, R, w);
        CallAggregators(s, R);
        ForkJobOk(s.p, |s.flows|, w);
        WorkerMem(s, w, R[w]);
      }
    }
  }

  lemma WorkerMem(s: Sys, w: nat, R: Results)
    requires w < |s.flows| == |s.p.work| == |s.p.hand| && s.p.forked <= |s.p.ops| && SegsFit(Segs(s), |s.input|)
    requires WorkerGood(s.p, |s.flows|, w, s.mem, s.input, s.flows[w], R)
    ensures s.flows[w].mem == s.mem
  {
    hide InvM, Linked, Kept, Fed;
  }

  lemma CallAggregators(s: Sys, R: seq<Results>)
    requires Sizes(s, R) && (s.p.first < |s.p.ops| || s.p.todo != [])
    ensures |s.flows| <= s.p.call.group.aggLen
  {}

  /** The operations at the daemon's and the load balancer's fronts. */
  lemma Fronts(p: P.Pipe)
    requires P.Inv(p)
    ensures p.d.py.wq != [] ==> p.forwarded < |p.ops| && p.d.py.wq[0] == p.ops[p.forwarded]
    ensures p.d.shm.wq != [] ==> p.forked < p.forwarded && p.forwarded <= |p.ops| && p.d.shm.wq[0] == p.ops[p.forked]
    ensures p.d.shm.cq != [] ==> p.returned < p.joined && p.joined <= |p.ops| && p.d.shm.cq[0] == p.ops[p.returned]
  {
    hide P.WorkInv, P.BufInv, P.CallInv, P.CopyInv, P.SlotsInv;
  }

  lemma Fits(s: Sys, R: seq<Results>, k: nat)
    requires P.Inv(s.p) && Sizes(s, R) && s.p.freed <= k < |s.p.ops|
    ensures CopyFits(s, k)
  {
    hide P.Inv, Cut;
    OrderOf(s.p);
    CallOf(s.p, k);
    LiveBlocks(s.p, k, k);
  }

  /** What a step of the pipeline without memory traffic changes. */
  predicate Quiet(p: P.Pipe, q: P.Pipe) {
    && p.ops <= q.ops && q.forked == p.forked && q.first == p.first && q.call == p.call && p.freed <= q.freed
    && |q.work| == |p.work| && |q.hand| == |p.hand| == |p.work|
    && (forall w :: 0 <= w < |p.work| ==>
          && |q.hand[w]| == |p.hand[w]| && |q.work[w].wq| == |p.work[w].wq|
          && |q.work[w].cq| + q.joined == |p.work[w].cq| + p.joined)
    && (q.forwarded == p.forwarded || (q.forwarded == p.forwarded + 1 && p.forwarded < |p.ops| && !NeedTx(p.ops[p.forwarded])))
    && (q.returned == p.returned || (q.returned == p.returned + 1 && p.returned < |p.ops| && !NeedRx(p.ops[p.returned])))
    && (p.first < |p.ops| || p.todo != [] || (p.ops == q.ops && q.todo == []))
    && BackStays(p, q)
  }

  /** A copy back that is under way stays so until its operation returns. */
  predicate BackStays(p: P.Pipe, q: P.Pipe) {
    q.returned == p.returned && GoingBack(p) ==> GoingBack(q)
  }

  lemma QuietStep(s: Sys, e: P.Event)
    requires P.Inv(s.p) && P.Enabled(s.p, e) && P.Asserts(s.p, e)
    requires !e.Begin? && !e.Serves? && !e.Forks? && !SendsNow(s, e) && !BringsBackNow(s, e)
    ensures Quiet(s.p, P.Step(s.p, e))
  {
    hide P.PyInv, P.ShmInv, P.WorkInv, P.BufInv, P.CallInv, P.CopyInv, P.SlotsInv, CB.Step, CB.Place, CB.Freed, NeedTx, NeedRx, CB.Freeable, Cut;
    P.HasWorkers(s.p);
    Fronts(s.p);
    if e.Create? { TodoAfterCreate(s.p); }
    BackStep(s.p, e);
    hide GoingBack;
  }

  lemma BackStep(p: P.Pipe, e: P.Event)
    requires P.Inv(p) && P.Enabled(p, e) && P.Asserts(p, e) && !e.Begin?
    ensures BackStays(p, P.Step(p, e))
  {
    hide P.PyInv, P.ShmInv, P.WorkInv, P.BufInv, P.CallInv, P.CopyInv, P.SlotsInv, P.Suits, CB.Step, CB.Place, CB.Freed, NeedTx, NeedRx, CB.Freeable, Cut, CB.Available;
    OrderOf(p);
    Fronts(p);
    P.FrontsApart(p);
    P.HasWorkers(p);
    P.PendingParts(p, 0);
  }

  /** Only a copy that is needed is under way. */
  lemma BackNeeds(p: P.Pipe)
    requires P.Inv(p) && GoingBack(p)
    ensures NeedRx(p.ops[p.returned])
  {
    hide P.PyInv, P.ShmInv, P.WorkInv, P.BufInv, P.CallInv, P.SlotsInv, P.Suits, P.Outs, P.Backs, P.TxOnly, P.RxOnly;
    P.FrontsApart(p);
  }

  lemma TodoAfterCreate(p: P.Pipe)
    requires p.todo != []
    ensures p.ops <= P.Created(p).ops
  {
    hide CB.Step, CB.Place;
  }

  lemma QuietWaiting(s: Sys, q: P.Pipe)
    requires Waiting(s) && Quiet(s.p, q) && s.p.forwarded <= |s.p.ops|
    ensures Waiting(s.(p := q))
  {
    hide Cut, InBuffer, NeedTx, NeedRx;
    var t := s.(p := q);
    forall k | t.p.forked <= k < t.p.forwarded && k < |t.p.ops| && NeedTx(t.p.ops[k])
      ensures HasSeg(t, k) && InBuffer(t.p.ops, k, Seg(t, k), t.mem, t.input)
    {
      assert k < |s.p.ops| && t.p.ops[k] == s.p.ops[k];
      assert InBuffer(s.p.ops, k, Seg(s, k), s.mem, s.input);
      SameBuffer(s.p.ops, t.p.ops, k, Seg(s, k), s.mem, s.input);
    }
  }

  lemma SameBuffer(a: seq<Op>, b: seq<Op>, k: nat, g: Segment, mem: seq<Byte>, input: seq<Byte>)
    requires k < |a| && k < |b| && a[k] == b[k] && InBuffer(a, k, g, mem, input)
    ensures InBuffer(b, k, g, mem, input)
  {}

  lemma QuietTensor(s: Sys, q: P.Pipe, R: seq<Results>)
    requires P.Inv(s.p) && TensorRight(s, R) && Quiet(s.p, q)
    ensures TensorRight(s.(p := q), R)
  {
    hide P.Inv, Cut, CanResult, OpResult, NeedRx, NeedTx, CallReceives;
    OrderOf(s.p);
    var t := s.(p := q);
    if q.returned != s.p.returned {
      CallOf(s.p, s.p.returned);
      SameNeeds(s.p.ops[s.p.returned], s.p.call);
      if GoingBack(s.p) { BackNeeds(s.p); }
    }
    hide GoingBack;
    forall i | 0 <= i < |Segs(t)| ensures SegRight(t, i, R) {
      assert SegRight(s, i, R);
    }
  }

  lemma QuietKeeps(s: Sys, e: P.Event, q: P.Pipe, R: seq<Results>)
    requires SysInv(s, R) && P.Inv(q) && Quiet(s.p, q)
    ensures SysInv(s.(p := q), R)
  {
    hide P.Inv, Waiting, TensorRight, WorkerGood, Cut;
    SysParts(s, R);
    OrderOf(s.p);
    OrderOf(q);
    var t := s.(p := q);
    QuietWaiting(s, q);
    QuietTensor(s, q, R);
    assert Sizes(t, R);
    forall w | 0 <= w < |t.flows| ensures WorkerGood(q, |t.flows|, w, t.mem, t.input, t.flows[w], R[w]) {
      OneWorker(s, R, w);
      WorkerFrame(s.p, q, |s.flows|, w, s.mem, s.input, s.flows[w], R[w]);
    }
  }

  // ----- a copy to the host -----

  predicate Forwarded(p: P.Pipe, q: P.Pipe) {
    && q.ops == p.ops && q.forked == p.forked && q.first == p.first && q.call == p.call && q.freed == p.freed && q.joined == p.joined
    && q.work == p.work && q.hand == p.hand && q.todo == p.todo && q.returned == p.returned
    && q.forwarded == p.forwarded + 1 && BackStays(p, q)
  }

  /** What is written to the next operation's block disturbs no worker. */
  lemma OutWorker(s: Sys, bytes: seq<Byte>, R: seq<Results>, w: nat)
    requires SysInv(s, R) && CopyFits(s, s.p.forwarded) && |bytes| == s.p.ops[s.p.forwarded].size && w < |s.flows|
    ensures Sizes(s, R) && WorkerGood(s.p, |s.flows|, w, OutMem(s, bytes), s.input, s.flows[w].(mem := OutMem(s, bytes)), R[w])
  {
    hide P.Inv, Waiting, TensorRight, WorkerGood, Cut, Share, WorkersGood;
    SysParts(s, R);
    OneWorker(s, R, w);
    OrderOf(s.p);
    var n, op, now := |s.flows|, s.p.ops[s.p.forwarded], OutMem(s, bytes);
    forall k | s.p.freed <= k < s.p.forked
      ensures var x := Share(s.p.ops[k], n, w); x.data + x.size <= |s.mem| && now[x.data..x.data + x.size] == s.mem[x.data..x.data + x.size]
    {
      var x := Share(s.p.ops[k], n, w);
      ShareInBlock(s.p.ops[k], n, w);
      LiveBlocks(s.p, k, k);
      ShareClearOfBlock(s.p, n, k, w, s.p.forwarded);
      SliceOfWrite(s.mem, op.buffer, bytes, x.data, x.data + x.size);
    }
    WorkerForeign(s.p, n, w, s.mem, s.input, s.flows[w], R[w], now);
  }

  /** Nor any other block that waits. */
  lemma OutWaiting(s: Sys, bytes: seq<Byte>, R: seq<Results>)
    requires SysInv(s, R) && CopyFits(s, s.p.forwarded) && |bytes| == s.p.ops[s.p.forwarded].size
    ensures Waiting(s.(mem := OutMem(s, bytes), flows := Seeing(s.flows, OutMem(s, bytes))))
  {
    hide P.Inv, TensorRight, WorkersGood, Cut, OutMem, InBuffer, Sizes;
    SysParts(s, R);
    OrderOf(s.p);
    var t := s.(mem := OutMem(s, bytes), flows := Seeing(s.flows, OutMem(s, bytes)));
    forall k | t.p.forked <= k < t.p.forwarded && k < |t.p.ops| && NeedTx(t.p.ops[k])
      ensures HasSeg(t, k) && InBuffer(t.p.ops, k, Seg(t, k), t.mem, t.input)
    {
      assert InBuffer(s.p.ops, k, Seg(s, k), s.mem, s.input);
      OutOther(s, bytes, k);
    }
  }

  lemma OutOther(s: Sys, bytes: seq<Byte>, k: nat)
    requires P.Inv(s.p) && CopyFits(s, s.p.forwarded) && |bytes| == s.p.ops[s.p.forwarded].size
    requires s.p.freed <= k < s.p.forwarded < |s.p.ops| && HasSeg(s, k)
    requires InBuffer(s.p.ops, k, Seg(s, k), s.mem, s.input)
    ensures InBuffer(s.p.ops, k, Seg(s, k), OutMem(s, bytes), s.input)
  {
    hide P.Inv, Cut;
    var f := s.p.forwarded;
    var op, b := s.p.ops[f], s.p.ops[k];
    LiveBlocks(s.p, k, f);
    SliceOfWrite(s.mem, op.buffer, bytes, b.buffer, b.buffer + b.size);
  }

  /** Until a copy back is under way, a segment of the tensor is as the call found it. */
  lemma InputStill(s: Sys, R: seq<Results>, k: nat)
    requires TensorRight(s, R) && HasSeg(s, k) && s.p.returned <= k && (k == s.p.returned ==> !GoingBack(s.p))
    ensures var g := Seg(s, k);
      && g.offset + g.size <= |s.tensor| == |s.input|
      && s.tensor[g.offset..g.offset + g.size] == s.input[g.offset..g.offset + g.size]
  {
    hide Cut, OpResult, CanResult, GoingBack;
    assert SegRight(s, k - s.p.first, R);
  }

  lemma OutTensor(s: Sys, bytes: seq<Byte>, R: seq<Results>)
    requires SysInv(s, R) && CopyFits(s, s.p.forwarded) && |bytes| == s.p.ops[s.p.forwarded].size
    ensures TensorRight(s.(mem := OutMem(s, bytes), flows := Seeing(s.flows, OutMem(s, bytes))), R)
  {
    hide P.Inv, Waiting, WorkersGood, Cut, OpResult, CanResult, OutMem, GoingBack;
    SysParts(s, R);
    var t := s.(mem := OutMem(s, bytes), flows := Seeing(s.flows, OutMem(s, bytes)));
    forall i | 0 <= i < |Segs(t)| ensures SegRight(t, i, R) {
      assert SegRight(s, i, R);
      if s.p.first + i < s.p.returned && CallReceives(s.p.call) {
        OpResultSame(s.flows, t.flows, R, s.p.first + i, |s.flows|);
      }
    }
  }

  /** So a copy that is under way may write what it likes. */
  lemma OutKeeps(s: Sys, bytes: seq<Byte>, R: seq<Results>)
    requires SysInv(s, R) && CopyFits(s, s.p.forwarded) && |bytes| == s.p.ops[s.p.forwarded].size
    ensures SysInv(s.(mem := OutMem(s, bytes), flows := Seeing(s.flows, OutMem(s, bytes))), R)
  {
    hide P.Inv, Waiting, TensorRight, WorkerGood, Cut, OutMem, CopyFits;
    SysParts(s, R);
    OutWaiting(s, bytes, R);
    OutTensor(s, bytes, R);
    var t := s.(mem := OutMem(s, bytes), flows := Seeing(s.flows, OutMem(s, bytes)));
    assert Sizes(t, R);
    forall w | 0 <= w < |t.flows| ensures WorkerGood(t.p, |t.flows|, w, t.mem, t.input, t.flows[w], R[w]) {
      OutWorker(s, bytes, R, w);
    }
  }

  /** Forwarding once the bytes of the tensor are in the block. */
  lemma ForwardKeeps(s: Sys, q: P.Pipe, R: seq<Results>)
    requires SysInv(s, R) && P.Inv(q) && Forwarded(s.p, q) && s.p.forwarded < |s.p.ops|
    requires NeedTx(s.p.ops[s.p.forwarded]) ==>
      HasSeg(s, s.p.forwarded) && InBuffer(s.p.ops, s.p.forwarded, Seg(s, s.p.forwarded), s.mem, s.input)
    ensures SysInv(s.(p := q), R)
  {
    hide P.Inv, TensorRight, WorkerGood, Cut, InBuffer, NeedTx;
    SysParts(s, R);
    OrderOf(q);
    var t := s.(p := q);
    ForwardTensor(s, q, R);
    assert Sizes(t, R);
    forall k | t.p.forked <= k < t.p.forwarded && k < |t.p.ops| && NeedTx(t.p.ops[k])
      ensures HasSeg(t, k) && InBuffer(t.p.ops, k, Seg(t, k), t.mem, t.input)
    {
      if k < s.p.forwarded { assert InBuffer(s.p.ops, k, Seg(s, k), s.mem, s.input); }
    }
    forall w | 0 <= w < |t.flows| ensures WorkerGood(q, |t.flows|, w, t.mem, t.input, t.flows[w], R[w]) {
      OneWorker(s, R, w);
      WorkerFrame(s.p, q, |s.flows|, w, s.mem, s.input, s.flows[w], R[w]);
    }
  }

  lemma ForwardTensor(s: Sys, q: P.Pipe, R: seq<Results>)
    requires TensorRight(s, R) && Forwarded(s.p, q)
    ensures TensorRight(s.(p := q), R)
  {
    hide Cut, OpResult, CanResult, CallReceives, GoingBack;
    var t := s.(p := q);
    forall i | 0 <= i < |Segs(t)| ensures SegRight(t, i, R) { assert SegRight(s, i, R); }
  }

  lemma SendKeeps(s: Sys, q: P.Pipe, R: seq<Results>)
    requires SysInv(s, R) && P.Inv(q) && Forwarded(s.p, q) && CopyFits(s, s.p.forwarded) && s.p.forwarded < |s.p.ops|
    ensures SysInv(s.(p := q, mem := SentMem(s), flows := Seeing(s.flows, SentMem(s))), R)
  {
    hide SysInv, Waiting, P.Inv, InBuffer, Cut, Seeing, OutMem, Forwarded, SentBytes;
    OutKeeps(s, SentBytes(s), R);
    SentInBuffer(s, R);
    ForwardKeeps(s.(mem := SentMem(s), flows := Seeing(s.flows, SentMem(s))), q, R);
  }

  lemma SentInBuffer(s: Sys, R: seq<Results>)
    requires SysInv(s, R) && CopyFits(s, s.p.forwarded)
    ensures InBuffer(s.p.ops, s.p.forwarded, Seg(s, s.p.forwarded), SentMem(s), s.input)
  {
    hide P.Inv, Waiting, WorkersGood, Cut, OpResult, CanResult;
    SysParts(s, R);
    OrderOf(s.p);
    var f := s.p.forwarded;
    InputStill(s, R, f);
    hide TensorRight;
    SliceOfWrite(s.mem, s.p.ops[f].buffer, SentBytes(s), s.p.ops[f].buffer, s.p.ops[f].buffer + s.p.ops[f].size);
  }

  // ----- a copy back to the tensor -----

  predicate Returned(p: P.Pipe, q: P.Pipe) {
    && q.ops == p.ops && q.forked == p.forked && q.first == p.first && q.call == p.call && q.freed == p.freed && q.joined == p.joined
    && q.work == p.work && q.hand == p.hand && q.todo == p.todo && q.forwarded == p.forwarded
    && q.returned == p.returned + 1
  }

  /** The block of a joined operation that is still live holds its result. */
  lemma JoinedBlock(s: Sys, R: seq<Results>, k: nat)
    requires SysInv(s, R) && s.p.freed <= k < s.p.joined
    ensures k < |s.p.ops| && s.p.ops[k].buffer + s.p.ops[k].size <= |s.mem|
    ensures |R| == |s.flows| && CanResult(s.flows, R, k)
    ensures Block(s.mem, s.p.ops[k]) == OpResult(s.flows, R, k, |s.flows|)
  {
    hide P.Inv, Waiting, TensorRight, SysInv, Cut, OpResult, CanResult, ShareOffset, Share;
    SysParts(s, R);
    OrderOf(s.p);
    AnsweredAll(s, R, k);
    LiveBlocks(s.p, k, k);
    var op, n := s.p.ops[k], |s.flows|;
    forall w | 0 <= w < n
      ensures s.flows[w].posted[k].sub == Share(op, n, w) && s.flows[w].mem == s.mem
      ensures JobGood(s.flows[w].posted[k], |s.mem|) && HoldsOutcome(s.flows[w], k, R[w])
    {
      OneWorker(s, R, w);
      KeptOutcome(s.p, n, w, s.mem, s.input, s.flows[w], R[w], k);
    }
    BlockIsResult(s.flows, R, s.mem, op, k, n);
    ShareTotal(op.size, n);
  }

  lemma KeptOutcome(p: P.Pipe, n: nat, w: nat, mem: seq<Byte>, input: seq<Byte>, f: Flow, R: Results, k: nat)
    requires w < n == |p.work| == |p.hand| && p.forked <= |p.ops| && SegsFit(Cut(p.call.size, 0), |input|)
    requires WorkerGood(p, n, w, mem, input, f, R) && p.freed <= k < f.done
    ensures f.posted[k].sub == Share(p.ops[k], n, w) && f.mem == mem
    ensures JobGood(f.posted[k], |mem|) && HoldsOutcome(f, k, R)
  {
    hide InvM, Cut, Fed, Share, HoldsOutcome;
    JobSizes(f, R, k);
  }

  lemma BackTensor(s: Sys, q: P.Pipe, R: seq<Results>)
    requires SysInv(s, R) && Returned(s.p, q) && CopyFits(s, s.p.returned) && s.p.returned < s.p.joined
    requires NeedRx(s.p.ops[s.p.returned])
    ensures |BroughtBack(s)| == |s.tensor| && TensorRight(s.(p := q, tensor := BroughtBack(s)), R)
  {
    hide P.Inv, Waiting, WorkersGood, Cut, OpResult, CanResult, CallReceives;
    SysParts(s, R);
    OrderOf(s.p);
    var k := s.p.returned;
    var t := s.(p := q, tensor := BroughtBack(s));
    JoinedBlock(s, R, k);
    CallOf(s.p, k);
    SameNeeds(s.p.ops[k], s.p.call);
    hide GoingBack;
    forall i | 0 <= i < |Segs(t)| ensures SegRight(t, i, R) {
      assert SegRight(s, i, R);
      BackSegment(s, k, i, Block(s.mem, s.p.ops[k]));
    }
  }

  /** Only the returned operation's own segment is overwritten. */
  lemma BackSegment(s: Sys, k: nat, i: nat, bs: seq<Byte>)
    requires CopyFits(s, k) && i < |Segs(s)| && |bs| == s.p.ops[k].size
    requires Segs(s)[i].offset + Segs(s)[i].size <= |s.tensor|
    ensures var g := Segs(s)[i];
      WriteAt(s.tensor, Seg(s, k).offset, bs)[g.offset..g.offset + g.size]
        == if i == k - s.p.first then bs else s.tensor[g.offset..g.offset + g.size]
  {
    hide Cut;
    var j := k - s.p.first;
    CutShape(s.p.call.size, 0, i);
    CutShape(s.p.call.size, 0, j);
    var g := Segs(s)[i];
    SliceOfWrite(s.tensor, Seg(s, k).offset, bs, g.offset, g.offset + g.size);
  }

  lemma BackKeeps(s: Sys, q: P.Pipe, R: seq<Results>)
    requires SysInv(s, R) && P.Inv(q) && Returned(s.p, q) && CopyFits(s, s.p.returned) && s.p.returned < s.p.joined
    requires NeedRx(s.p.ops[s.p.returned])
    ensures SysInv(s.(p := q, tensor := BroughtBack(s)), R)
  {
    hide P.Inv, TensorRight, WorkerGood, Cut, BroughtBack, CopyFits, InBuffer;
    SysParts(s, R);
    OrderOf(q);
    BackTensor(s, q, R);
    var t := s.(p := q, tensor := BroughtBack(s));
    assert Sizes(t, R);
    forall w | 0 <= w < |t.flows| ensures WorkerGood(q, |t.flows|, w, t.mem, t.input, t.flows[w], R[w]) {
      OneWorker(s, R, w);
      WorkerFrame(s.p, q, |s.flows|, w, s.mem, s.input, s.flows[w], R[w]);
    }
    assert Waiting(t);
  }

  /** A copy back that is under way may write what it likes over its segment. */
  lemma BackMoves(s: Sys, bytes: seq<Byte>, R: seq<Results>)
    requires SysInv(s, R) && GoingBack(s.p) && CopyFits(s, s.p.returned) && |bytes| == s.p.ops[s.p.returned].size
    ensures SysInv(s.(tensor := BackTo(s, bytes)), R)
  {
    hide P.Inv, Waiting, TensorRight, WorkersGood, Cut, InBuffer, GoingBack, BackTo, CopyFits;
    SysParts(s, R);
    var t := s.(tensor := BackTo(s, bytes));
    BackMovesTensor(s, bytes, R);
    assert Sizes(t, R);
    assert WorkersGood(t, R) by { hide WorkerGood; assert WorkersGood(s, R); SameWorkers(s, t, R); }
    assert Waiting(t) by { SameWaiting(s, t); }
  }

  lemma SameWorkers(s: Sys, t: Sys, R: seq<Results>)
    requires s.p.forked <= |s.p.ops| && Sizes(s, R) && Sizes(t, R) && WorkersGood(s, R)
    requires t == s.(tensor := t.tensor)
    ensures WorkersGood(t, R)
  {
    hide WorkerGood;
  }

  lemma SameWaiting(s: Sys, t: Sys)
    requires Waiting(s) && t == s.(tensor := t.tensor)
    ensures Waiting(t)
  {
    hide InBuffer, NeedTx, Cut;
  }

  lemma BackMovesTensor(s: Sys, bytes: seq<Byte>, R: seq<Results>)
    requires SysInv(s, R) && GoingBack(s.p) && CopyFits(s, s.p.returned) && |bytes| == s.p.ops[s.p.returned].size
    ensures TensorRight(s.(tensor := BackTo(s, bytes)), R)
  {
    hide P.Inv, Waiting, WorkersGood, Cut, OpResult, CanResult, CallReceives, GoingBack;
    SysParts(s, R);
    var t := s.(tensor := BackTo(s, bytes));
    forall i | 0 <= i < |Segs(t)| ensures SegRight(t, i, R) {
      assert SegRight(s, i, R);
      BackSegment(s, s.p.returned, i, bytes);
    }
  }

  // ----- a fork -----

  predicate ForkedTo(p: P.Pipe, q: P.Pipe) {
    && q.ops == p.ops && q.forked == p.forked + 1 && q.first == p.first && q.call == p.call && q.freed == p.freed && q.joined == p.joined
    && q.hand == p.hand && q.todo == p.todo && q.forwarded == p.forwarded && q.returned == p.returned && |q.work| == |p.work|
    && (forall w :: 0 <= w < |p.work| ==> q.work[w].cq == p.work[w].cq && |q.work[w].wq| == |p.work[w].wq| + 1)
    && BackStays(p, q)
  }

  lemma ForkTensor(s: Sys, q: P.Pipe, flows: seq<Flow>, R: seq<Results>)
    requires SysInv(s, R) && ForkedTo(s.p, q) && |flows| == |s.flows|
    requires forall w :: 0 <= w < |flows| ==> |flows[w].posted| > 0 && flows[w].posted[..|flows[w].posted| - 1] == s.flows[w].posted
    ensures TensorRight(s.(p := q, flows := flows), R)
  {
    hide P.Inv, Waiting, WorkersGood, Cut, OpResult, CanResult, CallReceives, GoingBack;
    SysParts(s, R);
    var t := s.(p := q, flows := flows);
    forall i | 0 <= i < |Segs(t)| ensures SegRight(t, i, R) {
      assert SegRight(s, i, R);
      if s.p.first + i < s.p.returned && CallReceives(s.p.call) {
        OpResultPost(s.flows, flows, R, s.p.first + i, |s.flows|);
      }
    }
  }

  lemma ForkKeeps(s: Sys, q: P.Pipe, R: seq<Results>)
    requires SysInv(s, R) && P.Inv(q) && ForkedTo(s.p, q) && s.p.forked < s.p.forwarded <= |s.p.ops|
    requires forall w :: 0 <= w < |s.flows| ==> JobOk(Share(s.p.ops[s.p.forked], |s.flows|, w), |s.flows[w].mem|)
    ensures s.flows != [] && SysInv(s.(p := q, flows := Posts(s.flows, s.p.ops[s.p.forked])), R)
  {
    hide P.Inv, TensorRight, WorkerGood, Cut, InBuffer, Share, JobOk, NeedTx;
    SysParts(s, R);
    OrderOf(s.p);
    var op := s.p.ops[s.p.forked];
    var t := s.(p := q, flows := Posts(s.flows, op));
    forall w | 0 <= w < |t.flows| ensures t.flows[w].posted[..|t.flows[w].posted| - 1] == s.flows[w].posted {
      assert t.flows[w] == Post(s.flows[w], Share(op, |s.flows|, w));
    }
    ForkTensor(s, q, t.flows, R);
    assert Waiting(t);
    assert Sizes(t, R);
    forall w | 0 <= w < |t.flows| ensures WorkerGood(q, |t.flows|, w, t.mem, t.input, t.flows[w], R[w]) {
      OneWorker(s, R, w);
      WorkerForks(s.p, q, |s.flows|, w, s.mem, s.input, s.flows[w], R[w]);
    }
  }

  // ----- a worker's step -----

  predicate ServedTo(p: P.Pipe, q: P.Pipe, w: nat, takes: nat, answers: nat)
    requires w < |p.work| == |p.hand| == |q.work| == |q.hand|
  {
    && q.ops == p.ops && q.forked == p.forked && q.first == p.first && q.call == p.call && q.freed == p.freed && q.joined == p.joined
    && q.todo == p.todo && q.forwarded == p.forwarded && q.returned == p.returned
    && (forall v :: 0 <= v < |p.work| && v != w ==> q.work[v] == p.work[v] && q.hand[v] == p.hand[v])
    && |q.hand[w]| == |p.hand[w]| + takes - answers
    && |q.work[w].cq| == |p.work[w].cq| + answers && |q.work[w].wq| == |p.work[w].wq| - takes
    && BackStays(p, q)
  }

  ghost predicate OwnStep(s: Sys, w: nat, fe: TR.Event, g: Flow, R: seq<Results>) {
    w < |s.flows| == |R| && Own(fe) && TR.Next(s.flows[w], fe, g, R[w])
  }

  function AfterWork(s: Sys, q: P.Pipe, w: nat, g: Flow): Sys
    requires w < |s.flows|
  {
    s.(p := q, mem := g.mem, flows := Seeing(s.flows[w := g], g.mem))
  }

  lemma WorkTensor(s: Sys, q: P.Pipe, w: nat, fe: TR.Event, g: Flow, R: seq<Results>)
    requires SysInv(s, R) && OwnStep(s, w, fe, g, R) && g.posted == s.flows[w].posted
    requires q.first == s.p.first && q.call == s.p.call && q.returned == s.p.returned && BackStays(s.p, q)
    ensures TensorRight(AfterWork(s, q, w, g), R)
  {
    hide P.Inv, Waiting, WorkersGood, Cut, OpResult, CanResult, CallReceives, TR.Next, GoingBack;
    SysParts(s, R);
    var t := AfterWork(s, q, w, g);
    forall i | 0 <= i < |Segs(t)| ensures SegRight(t, i, R) {
      assert SegRight(s, i, R);
      if s.p.first + i < s.p.returned && CallReceives(s.p.call) {
        OpResultSame(s.flows, t.flows, R, s.p.first + i, |s.flows|);
      }
    }
  }

  /** A worker does not touch the blocks that are not forked yet. */
  lemma WorkWaiting(s: Sys, q: P.Pipe, w: nat, fe: TR.Event, g: Flow, R: seq<Results>)
    requires SysInv(s, R) && OwnStep(s, w, fe, g, R)
    requires q.ops == s.p.ops && q.forked == s.p.forked && q.forwarded == s.p.forwarded && q.first == s.p.first && q.call == s.p.call
    ensures Waiting(AfterWork(s, q, w, g))
  {
    hide P.Inv, TensorRight, WorkersGood, WorkerGood, Cut, Share, NeedTx;
    SysParts(s, R);
    OrderOf(s.p);
    OneWorker(s, R, w);
    var n := |s.flows|;
    forall k | s.p.forked <= k < s.p.forwarded && k < |s.p.ops| && NeedTx(s.p.ops[k])
      ensures HasSeg(s, k) && InBuffer(s.p.ops, k, Seg(s, k), g.mem, s.input)
    {
      assert InBuffer(s.p.ops, k, Seg(s, k), s.mem, s.input);
      var op := s.p.ops[k];
      forall j | s.p.joined <= j < s.p.forked ensures Clear(Share(s.p.ops[j], n, w), op.buffer, op.buffer + op.size) {
        ShareClearOfBlock(s.p, n, j, w, k);
      }
      OthersUntouched(s.p, n, w, s.mem, s.input, s.flows[w], fe, g, R[w], op.buffer, op.buffer + op.size);
    }
  }

  lemma WorkKeeps(s: Sys, q: P.Pipe, w: nat, fe: TR.Event, g: Flow, takes: nat, answers: nat, R: seq<Results>)
    requires SysInv(s, R) && P.Inv(q) && OwnStep(s, w, fe, g, R)
    requires |q.work| == |q.hand| == |s.p.work| == |s.p.hand| == |s.flows| && ServedTo(s.p, q, w, takes, answers)
    requires g.popped == s.flows[w].popped + takes && g.done == s.flows[w].done + answers
    ensures SysInv(AfterWork(s, q, w, g), R)
  {
    hide P.Inv, TensorRight, Waiting, WorkerGood, Cut, Share, TR.Next;
    SysParts(s, R);
    OrderOf(q);
    OneWorker(s, R, w);
    var n, t, f := |s.flows|, AfterWork(s, q, w, g), s.flows[w];
    WorkCounts(s.p, n, w, s.mem, s.input, f, fe, g, R[w]);
    WorkTensor(s, q, w, fe, g, R);
    WorkWaiting(s, q, w, fe, g, R);
    assert Sizes(t, R);
    assert g.(mem := g.mem) == g;
    forall v | 0 <= v < n ensures WorkerGood(q, n, v, t.mem, t.input, t.flows[v], R[v]) {
      if v == w {
        WorkerOwn(s.p, q, n, w, s.mem, s.input, f, fe, g, R[w]);
      } else {
        OneWorker(s, R, v);
        WorkerOther(s.p, q, n, v, w, s.mem, s.input, s.flows[v], f, fe, g, R[v], R[w]);
      }
    }
  }

  lemma WorkCounts(p: P.Pipe, n: nat, w: nat, mem: seq<Byte>, input: seq<Byte>, f: Flow, e: TR.Event, g: Flow, R: Results)
    requires w < n == |p.work| == |p.hand| && p.forked <= |p.ops| && SegsFit(Cut(p.call.size, 0), |input|)
    requires WorkerGood(p, n, w, mem, input, f, R) && TR.Next(f, e, g, R) && Own(e)
    ensures g.posted == f.posted && |g.mem| == |mem|
    ensures |p.hand[w]| == f.popped - f.done && |p.work[w].cq| == f.done - p.joined && |p.work[w].wq| == p.forked - f.popped
    ensures f.popped <= g.popped <= p.forked && f.done <= g.done <= g.popped
  {
    hide InvM, Cut, Fed, Share, Kept, TR.Next;
    StepCounts(f, e, g, R);
  }

  // ----- a new call -----

  lemma CallKeeps(s: Sys, call: P.Call, tensor: seq<Byte>, q: P.Pipe, R: seq<Results>)
    requires SysInv(s, R) && CallOk(call, |s.flows|) && |tensor| == call.size
    requires s.p.todo == [] && s.p.cnt == 0 && q == s.p.(call := call, first := |s.p.ops|, todo := Cut(call.size, 0)) && P.Inv(q)
    ensures SysInv(s.(p := q, input := tensor, tensor := tensor), R)
  {
    hide P.Inv, TensorRight, WorkerGood, Cut, Share, InBuffer, OpResult, CanResult;
    SysParts(s, R);
    OrderOf(s.p);
    var t := s.(p := q, input := tensor, tensor := tensor);
    CutFits(call.size);
    assert Sizes(t, R);
    NewTensor(t, R);
    forall w | 0 <= w < |t.flows| ensures WorkerGood(q, |t.flows|, w, t.mem, t.input, t.flows[w], R[w]) {
      OneWorker(s, R, w);
      NewCallWorker(s.p, q, |s.flows|, w, s.mem, s.input, tensor, s.flows[w], R[w]);
    }
    assert Waiting(t);
  }

  lemma NewTensor(t: Sys, R: seq<Results>)
    requires t.tensor == t.input && SegsFit(Segs(t), |t.input|) && t.p.returned <= t.p.first
    ensures TensorRight(t, R)
  {
    hide Cut, OpResult, CanResult, CallReceives;
    forall i | 0 <= i < |Segs(t)| ensures SegRight(t, i, R) {
      assert Segs(t)[i].offset + Segs(t)[i].size <= |t.input|;
    }
  }

  lemma NewCallWorker(p: P.Pipe, q: P.Pipe, n: nat, w: nat, mem: seq<Byte>, input: seq<Byte>, tensor: seq<Byte>, f: Flow, R: Results)
    requires w < n == |p.work| == |p.hand| && p.forked <= |p.ops| && SegsFit(Cut(p.call.size, 0), |input|) && SegsFit(Cut(q.call.size, 0), |tensor|)
    requires WorkerGood(p, n, w, mem, input, f, R)
    requires q == p.(call := q.call, first := |p.ops|, todo := q.todo)
    ensures WorkerGood(q, n, w, mem, tensor, f, R)
  {
    hide InvM, Cut, Kept, Share;
  }

  // ----- whole runs -----

  lemma StartKeeps(n: nat, mem: seq<Byte>, R: seq<Results>)
    requires n > 0 && |R| == n && |mem| == CB.CAPACITY + 1
    ensures SysInv(Start(n, mem), R)
  {
    hide P.Inv;
    P.StartInv(n);
    StartParts(n, mem, R);
  }

  lemma StartParts(n: nat, mem: seq<Byte>, R: seq<Results>)
    requires n > 0 && |R| == n && |mem| == CB.CAPACITY + 1
    ensures var s := Start(n, mem); s.p.forked <= |s.p.ops| && Sizes(s, R) && WorkersGood(s, R) && Waiting(s) && TensorRight(s, R)
  {
    hide OpResult, CanResult;
    var s := Start(n, mem);
    CutFits(0);
    NewTensor(s, R);
  }

  lemma SendShape(s: Sys, e: P.Event)
    requires P.Inv(s.p) && P.Enabled(s.p, e) && P.Asserts(s.p, e) && SendsNow(s, e)
    ensures Forwarded(s.p, P.Step(s.p, e)) && s.p.forwarded < |s.p.ops|
  {
    hide P.PyInv, P.ShmInv, P.WorkInv, P.BufInv, P.CallInv, P.CopyInv, P.SlotsInv, NeedTx;
    Fronts(s.p);
    BackStep(s.p, e);
    hide GoingBack;
  }

  /** What needs a copy is passed on only when the copy has been started and has been found finished. */
  lemma SendsFinished(s: Sys, e: P.Event)
    requires P.Inv(s.p) && P.Enabled(s.p, e)
    ensures SendsNow(s, e) ==> GoingOut(s.p) && e.finished
    ensures BringsBackNow(s, e) ==> GoingBack(s.p) && e.finished
  {
    hide P.PyInv, P.ShmInv, P.WorkInv, P.BufInv, P.CallInv, P.CopyInv, P.SlotsInv, NeedTx, NeedRx;
    Fronts(s.p);
  }

  lemma BackShape(s: Sys, e: P.Event)
    requires P.Inv(s.p) && P.Enabled(s.p, e) && P.Asserts(s.p, e) && BringsBackNow(s, e)
    ensures Returned(s.p, P.Step(s.p, e)) && s.p.returned < s.p.joined && s.p.joined <= |s.p.ops|
    ensures NeedRx(s.p.ops[s.p.returned])
  {
    hide P.PyInv, P.ShmInv, P.WorkInv, P.BufInv, P.CallInv, P.CopyInv, P.SlotsInv, NeedRx;
    Fronts(s.p);
  }

  lemma ForkShape(p: P.Pipe)
    requires P.Inv(p) && P.Enabled(p, P.Forks) && P.Asserts(p, P.Forks)
    ensures ForkedTo(p, P.Step(p, P.Forks)) && p.forked < p.forwarded && p.forwarded <= |p.ops| && p.d.shm.wq[0] == p.ops[p.forked]
  {
    hide P.PyInv, P.ShmInv, P.WorkInv, P.BufInv, P.CallInv, P.CopyInv, P.SlotsInv, Share;
    Fronts(p);
  }

  lemma ServeShape(p: P.Pipe, w: nat, t: nat, a: nat)
    requires P.Enabled(p, P.Serves(w, t, a)) && |p.work| == |p.hand|
    ensures ServedTo(p, P.Served(p, w, t, a), w, t, a)
  {}

  lemma ThreadKeeps(s: Sys, e: P.Event, t: Sys, R: seq<Results>)
    requires SysInv(s, R) && SysNext(s, Thread(e), t, R)
    ensures SysInv(t, R)
  {
    hide P.Inv, Sizes, WorkersGood, Waiting, TensorRight, P.Enabled, P.Asserts, P.Step, SendsNow, BringsBackNow, CopyFits, JobOk, Share, SentMem, BroughtBack, GoingOut, GoingBack;
    P.NextKeeps(s.p, e, t.p);
    AlwaysInBounds(s, e, R);
    SendsFinished(s, e);
    if SendsNow(s, e) {
      SendShape(s, e);
      SendKeeps(s, t.p, R);
    } else if BringsBackNow(s, e) {
      BackShape(s, e);
      NotBoth(s, e);
      BackKeeps(s, t.p, R);
    } else if e.Forks? {
      ForkShape(s.p);
      ForkKeeps(s, t.p, R);
    } else {
      QuietStep(s, e);
      QuietKeeps(s, e, t.p, R);
    }
  }

  lemma NotBoth(s: Sys, e: P.Event)
    requires BringsBackNow(s, e)
    ensures !SendsNow(s, e)
  {}

  /** A copy that is under way stays inside its buffer. */
  lemma CopiesFit(s: Sys, R: seq<Results>)
    requires SysInv(s, R)
    ensures GoingOut(s.p) ==> CopyFits(s, s.p.forwarded)
    ensures GoingBack(s.p) ==> CopyFits(s, s.p.returned)
  {
    hide P.Inv, Waiting, TensorRight, WorkersGood, CopyFits;
    SysParts(s, R);
    OrderOf(s.p);
    if GoingOut(s.p) { Fits(s, R, s.p.forwarded); }
    if GoingBack(s.p) { Fits(s, R, s.p.returned); }
  }

  /** And touches no thread and no worker but for what they see of memory. */
  lemma CopiesOnly(s: Sys, out: bool, bytes: seq<Byte>, t: Sys, R: seq<Results>)
    requires SysInv(s, R) && CopyNext(s, out, bytes, t)
    ensures t.p == s.p && t.input == s.input && |t.flows| == |s.flows|
    ensures forall w :: 0 <= w < |s.flows| ==> t.flows[w] == s.flows[w].(mem := t.flows[w].mem)
  {
    hide SysInv, CopyFits, GoingOut, GoingBack, OutMem, BackTo;
    CopiesFit(s, R);
    if !out { forall w | 0 <= w < |s.flows| ensures s.flows[w] == s.flows[w].(mem := s.flows[w].mem) {} }
  }

  lemma CopiesKeeps(s: Sys, out: bool, bytes: seq<Byte>, t: Sys, R: seq<Results>)
    requires SysInv(s, R) && CopyNext(s, out, bytes, t)
    ensures SysInv(t, R)
  {
    hide SysInv, CopyFits, GoingOut, GoingBack, OutMem, BackTo;
    CopiesFit(s, R);
    if out { OutKeeps(s, bytes, R); } else { BackMoves(s, bytes, R); }
  }

  lemma SysKeeps(s: Sys, e: SysEvent, t: Sys, R: seq<Results>)
    requires SysInv(s, R) && SysNext(s, e, t, R)
    ensures SysInv(t, R)
  {
    hide P.Inv, Sizes, WorkersGood, Waiting, TensorRight, P.Asserts, TR.Next, Cut, CopyFits, GoingOut, GoingBack;
    match e
    case Thread(pe) => ThreadKeeps(s, pe, t, R);
    case Copies(out, bytes) => CopiesKeeps(s, out, bytes, t, R);
    case Calls(call, tensor) =>
      P.NextKeeps(s.p, P.Begin(call), t.p);
      CallKeeps(s, call, tensor, t.p, R);
    case Works(w, fe, takes, answers) =>
      P.NextKeeps(s.p, P.Serves(w, takes, answers), t.p);
      SizesOf(s, R);
      ServeShape(s.p, w, takes, answers);
      WorkKeeps(s, t.p, w, fe, t.flows[w], takes, answers, R);
  }

  lemma SizesOf(s: Sys, R: seq<Results>)
    requires SysInv(s, R)
    ensures |s.flows| == |s.p.work| == |s.p.hand| == |R|
  {
    hide P.Inv, WorkersGood, Waiting, TensorRight;
  }

  /** No step of a worker is lost by stating it together with its effect on the queues: whatever the
      worker does, its queue allows. */
  lemma WorkIsServed(s: Sys, w: nat, fe: TR.Event, g: Flow, R: seq<Results>)
    requires SysInv(s, R) && OwnStep(s, w, fe, g, R)
    ensures g.popped >= s.flows[w].popped && g.done >= s.flows[w].done
    ensures P.Enabled(s.p, P.Serves(w, g.popped - s.flows[w].popped, g.done - s.flows[w].done))
  {
    hide P.Inv, Waiting, TensorRight, WorkerGood, TR.Next, Cut;
    SysParts(s, R);
    OneWorker(s, R, w);
    WorkCounts(s.p, |s.flows|, w, s.mem, s.input, s.flows[w], fe, g, R[w]);
  }

  ghost predicate SysRun(n: nat, ss: seq<Sys>, es: seq<SysEvent>, R: seq<Results>) {
    && n > 0 && |R| == n && |ss| == |es| + 1
    && (exists mem :: |mem| == CB.CAPACITY + 1 && ss[0] == Start(n, mem))
    && (forall i :: 0 <= i < |es| ==> SysNext(ss[i], es[i], ss[i + 1], R))
  }

  /** Over every run of the whole system, every assumption of every part holds. */
  lemma {:induction false} AlwaysSysInv(n: nat, ss: seq<Sys>, es: seq<SysEvent>, R: seq<Results>, i: nat)
    requires SysRun(n, ss, es, R) && i < |ss|
    ensures SysInv(ss[i], R)
  {
    hide SysInv, SysNext, Start;
    if i == 0 {
      var mem :| |mem| == CB.CAPACITY + 1 && ss[0] == Start(n, mem);
      StartKeeps(n, mem, R);
    } else {
      AlwaysSysInv(n, ss, es, R, i - 1);
      assert SysNext(ss[i - 1], es[i - 1], ss[i], R);
      SysKeeps(ss[i - 1], es[i - 1], ss[i], R);
    }
  }

  /** Over every run no thread reads or writes outside the tensor or the copy buffer. */
  lemma EveryAccessInBounds(n: nat, ss: seq<Sys>, es: seq<SysEvent>, R: seq<Results>, i: nat)
    requires SysRun(n, ss, es, R) && i < |es| && es[i].Thread?
    ensures InBounds(ss[i], es[i].e) && P.Asserts(ss[i].p, es[i].e)
  {
    hide SysInv, InBounds, P.Asserts, P.Enabled, P.Step, P.Inv, Start;
    AlwaysSysInv(n, ss, es, R, i);
    assert SysNext(ss[i], es[i], ss[i + 1], R);
    AlwaysInBounds(ss[i], es[i].e, R);
    SysPipe(ss[i], R);
    P.AssertsHold(ss[i].p, es[i].e);
  }

  /** Nor does a copy. */
  lemma EveryCopyInBounds(n: nat, ss: seq<Sys>, es: seq<SysEvent>, R: seq<Results>, i: nat)
    requires SysRun(n, ss, es, R) && i < |es| && es[i].Copies?
    ensures CopyFits(ss[i], if es[i].out then ss[i].p.forwarded else ss[i].p.returned)
  {
    hide SysInv, CopyFits, Start, GoingOut, GoingBack;
    AlwaysSysInv(n, ss, es, R, i);
    assert SysNext(ss[i], es[i], ss[i + 1], R);
    CopiesFit(ss[i], R);
  }

  lemma SysPipe(s: Sys, R: seq<Results>)
    requires SysInv(s, R)
    ensures P.Inv(s.p)
  {
    hide P.Inv, Sizes, WorkersGood, Waiting, TensorRight;
  }

  /** Over every run, a fork meets what the transport assumes of it. */
  lemma EveryForkCanPost(n: nat, ss: seq<Sys>, es: seq<SysEvent>, R: seq<Results>, i: nat, w: nat)
    requires SysRun(n, ss, es, R) && i < |es| && es[i] == Thread(P.Forks) && w < |ss[i].flows|
    ensures ss[i].p.d.shm.wq != []
    ensures CanPost(ss[i].flows[w], Share(ss[i].p.d.shm.wq[0], |ss[i].flows|, w))
  {
    hide SysInv, P.Asserts, P.Step, P.Inv, Start, CanPost, Share, Sizes, WorkerGood, Waiting, TensorRight, WorkersGood, Cut;
    AlwaysSysInv(n, ss, es, R, i);
    var s := ss[i];
    assert SysNext(s, es[i], ss[i + 1], R);
    SysParts(s, R);
    Fronts(s.p);
    SizesFacts(s, R);
    OneWorker(s, R, w);
    ForkCanPost(s.p, |s.flows|, w, s.mem, s.input, s.flows[w], R[w]);
  }

  lemma SizesFacts(s: Sys, R: seq<Results>)
    requires Sizes(s, R) && P.Inv(s.p) && s.p.forked <= |s.p.ops|
    ensures |s.mem| == CB.CAPACITY + 1 && (s.p.forked < |s.p.ops| ==> |s.flows| <= s.p.call.group.aggLen)
    ensures |s.flows| == |s.p.work| == |s.p.hand| == |R| && SegsFit(Segs(s), |s.input|)
  {
    hide P.Inv, Cut;
    OrderOf(s.p);
  }

  /** Over every run, the daemon passes an operation that needs a copy on exactly when the copy was
      started at an earlier step and has been found finished. */
  lemma EveryForwardCopied(n: nat, ss: seq<Sys>, es: seq<SysEvent>, R: seq<Results>, i: nat, finished: bool)
    requires SysRun(n, ss, es, R) && i < |es|
    ensures es[i] == Thread(P.DaemonPosts(finished)) ==>
      && ss[i].p.d.py.wq != []
      && (NeedTx(ss[i].p.d.py.wq[0]) ==> (ss[i + 1].p.forwarded != ss[i].p.forwarded <==> finished && GoingOut(ss[i].p)))
    ensures es[i] == Thread(P.DaemonCompletes(finished)) ==>
      && ss[i].p.d.shm.cq != []
      && (NeedRx(ss[i].p.d.shm.cq[0]) ==> (ss[i + 1].p.returned != ss[i].p.returned <==> finished && GoingBack(ss[i].p)))
  {
    hide SysInv, InBounds, ThreadStep, P.Inv, Start, NeedTx, NeedRx;
    AlwaysSysInv(n, ss, es, R, i);
    assert SysNext(ss[i], es[i], ss[i + 1], R);
    SysPipe(ss[i], R);
    if es[i].Thread? {
      AlwaysInBounds(ss[i], es[i].e, R);
      P.AssertsHold(ss[i].p, es[i].e);
      PassesOn(ss[i].p, es[i].e);
      hide P.Asserts, P.Step;
      SameThreadPipe(ss[i], es[i].e, ss[i + 1].p);
    }
  }

  lemma SameThreadPipe(s: Sys, e: P.Event, p: P.Pipe)
    requires InBounds(s, e)
    ensures ThreadStep(s, e, p).p == p
  {}

  lemma PassesOn(p: P.Pipe, e: P.Event)
    requires P.Inv(p) && P.Enabled(p, e) && P.Asserts(p, e)
    ensures e.DaemonPosts? && NeedTx(p.d.py.wq[0]) ==> (P.Step(p, e).forwarded != p.forwarded <==> e.finished && GoingOut(p))
    ensures e.DaemonCompletes? && NeedRx(p.d.shm.cq[0]) ==> (P.Step(p, e).returned != p.returned <==> e.finished && GoingBack(p))
  {
    hide P.PyInv, P.ShmInv, P.WorkInv, P.BufInv, P.CallInv, P.CopyInv, P.SlotsInv, P.Suits, NeedTx, NeedRx;
    Fronts(p);
  }

  // ----- what a call delivers -----

  /** The call has been made and has returned. */
  predicate Finished(s: Sys) {
    s.p.first < |s.p.ops| && s.p.todo == [] && s.p.cnt == 0
  }

  lemma FinishedCount(s: Sys, R: seq<Results>)
    requires SysInv(s, R) && Finished(s)
    ensures s.p.returned == |s.p.ops| == s.p.first + |Segs(s)|
  {
    hide P.PyInv, P.ShmInv, P.WorkInv, P.BufInv, P.SlotsInv, P.CopyInv, Sizes, WorkersGood, Waiting, TensorRight, Cut;
    OrderOf(s.p);
    CutCount(s.p.call.size, 0);
  }

  lemma SegmentDone(s: Sys, R: seq<Results>, i: nat)
    requires SysInv(s, R) && Finished(s) && i < |Segs(s)|
    ensures var g := Segs(s)[i];
      && g.offset + g.size <= |s.tensor| == |s.input|
      && (!CallReceives(s.p.call) ==> s.tensor[g.offset..g.offset + g.size] == s.input[g.offset..g.offset + g.size])
      && (CallReceives(s.p.call) ==>
            && CanResult(s.flows, R, s.p.first + i)
            && s.tensor[g.offset..g.offset + g.size] == OpResult(s.flows, R, s.p.first + i, |s.flows|))
  {
    hide P.Inv, Sizes, WorkersGood, Waiting, Cut, OpResult, CanResult;
    FinishedCount(s, R);
    SysParts(s, R);
    assert SegRight(s, i, R);
  }

  lemma {:induction false} AssembleByte(ps: seq<Job>, j: nat, n: nat, R: Results, x: nat)
    requires j < |ps| && n <= Count(ps, j) && (Reducing(ps[j].sub.op.code) ==> ps[j].sub.size % 4 == 0)
    requires x < Min(PAYLOAD_SIZE * n, ps[j].sub.size)
    ensures var c := x / PAYLOAD_SIZE;
      && c < Count(ps, j) && x - PAYLOAD_SIZE * c < ChunkLen(ps[j].sub.size, c)
      && Assemble(ps, j, n, R)[x] == ResultChunk(ps, j, c, R)[x - PAYLOAD_SIZE * c]
  {
    hide ResultChunk, PktCount;
    var m := Min(PAYLOAD_SIZE * (n - 1), ps[j].sub.size);
    if x < m {
      AssembleByte(ps, j, n - 1, R, x);
    } else {
      assert x / PAYLOAD_SIZE == n - 1;
    }
  }

  /** A byte of an operation's result belongs to the worker in whose share it lies. */
  lemma {:induction false} OpResultByte(flows: seq<Flow>, R: seq<Results>, op: Op, k: nat, n: nat, w: nat, x: nat)
    requires CanResult(flows, R, k) && w < n <= |flows|
    requires forall v :: 0 <= v < |flows| ==> |Outcome(flows[v].posted, k, R[v])| == ShareSize(op.size, |flows|, v)
    requires x < ShareSize(op.size, |flows|, w)
    ensures |OpResult(flows, R, k, n)| == ShareOffset(op.size, |flows|, n)
    ensures ShareOffset(op.size, |flows|, w) + x < |OpResult(flows, R, k, n)|
    ensures OpResult(flows, R, k, n)[ShareOffset(op.size, |flows|, w) + x] == Outcome(flows[w].posted, k, R[w])[x]
  {
    hide Outcome, ShareSize;
    OpResultSize(flows, R, op, k, n - 1);
    if w < n - 1 {
      OpResultByte(flows, R, op, k, n - 1, w, x);
    }
  }

  lemma {:induction false} OpResultSize(flows: seq<Flow>, R: seq<Results>, op: Op, k: nat, n: nat)
    requires CanResult(flows, R, k) && n <= |flows| && flows != []
    requires forall v :: 0 <= v < |flows| ==> |Outcome(flows[v].posted, k, R[v])| == ShareSize(op.size, |flows|, v)
    ensures |OpResult(flows, R, k, n)| == ShareOffset(op.size, |flows|, n)
  {
    hide Outcome, ShareSize;
    if n > 0 { OpResultSize(flows, R, op, k, n - 1); }
  }

  /** First byte of the packet at a place. */
  function PacketStart(size: nat, n: nat, h: Place): nat
    requires n > 0 && h.seg < |Cut(size, 0)|
  {
    var g := Cut(size, 0)[h.seg];
    g.offset + ShareOffset(g.size, n, h.worker) + PAYLOAD_SIZE * h.packet
  }

  lemma OutcomeSize(s: Sys, R: seq<Results>, k: nat, w: nat)
    requires SysInv(s, R) && s.p.first <= k < s.p.joined && w < |s.flows|
    ensures k < |s.p.ops| && |s.flows| == |R| && k < |s.flows[w].posted|
    ensures JobGood(s.flows[w].posted[k], |s.flows[w].mem|)
    ensures s.flows[w].posted[k].sub == Share(s.p.ops[k], |s.flows|, w)
    ensures |Outcome(s.flows[w].posted, k, R[w])| == ShareSize(s.p.ops[k].size, |s.flows|, w)
  {
    hide P.Inv, Waiting, TensorRight, InvM, Kept, Fed, Cut, Assemble, ShareOffset;
    SysParts(s, R);
    OrderOf(s.p);
    OneWorker(s, R, w);
    AnsweredAll(s, R, k);
    JobSizes(s.flows[w], R[w], k);
  }

  /** Byte b of the tensor is the byte that the network answered for the packet which carries it. */
  ghost predicate Delivered(s: Sys, R: seq<Results>, b: nat)
    requires s.flows != [] && |R| == |s.flows| && b < s.p.call.size
  {
    var n, size := |s.flows|, s.p.call.size;
    var h := Home(size, n, b);
    && |s.tensor| == size && IsPlace(size, n, h) && Carries(size, n, h, b)
    && var ps, k, at := s.flows[h.worker].posted, s.p.first + h.seg, b - PacketStart(size, n, h);
    && k < |ps| && h.packet < Count(ps, k) && (Reducing(ps[k].sub.op.code) ==> ps[k].sub.size % 4 == 0)
    && 0 <= at < |ResultChunk(ps, k, h.packet, R[h.worker])|
    && s.tensor[b] == ResultChunk(ps, k, h.packet, R[h.worker])[at]
  }

  /** The main result. When a call that receives has returned, every byte of its tensor is the
      network's answer for it; `CarriedOnce` says that one packet carries it and no other does. */
  lemma CallDelivers(n: nat, ss: seq<Sys>, es: seq<SysEvent>, R: seq<Results>, i: nat, b: nat)
    requires SysRun(n, ss, es, R) && i < |ss| && Finished(ss[i]) && CallReceives(ss[i].p.call) && b < ss[i].p.call.size
    ensures |ss[i].flows| == |R| == n > 0 && Delivered(ss[i], R, b)
  {
    hide SysInv, Delivered, SysNext;
    WorkerCount(n, ss, es, R, i);
    AlwaysSysInv(n, ss, es, R, i);
    ByteDelivered(ss[i], R, b);
  }

  lemma {:induction false} WorkerCount(n: nat, ss: seq<Sys>, es: seq<SysEvent>, R: seq<Results>, i: nat)
    requires SysRun(n, ss, es, R) && i < |ss|
    ensures |ss[i].flows| == n
  {
    hide SysNext, SysInv;
    AlwaysSysInv(n, ss, es, R, i);
    SizesOf(ss[i], R);
  }

  lemma OutcomeSizes(s: Sys, R: seq<Results>, k: nat)
    requires SysInv(s, R) && s.p.first <= k < s.p.joined
    ensures |s.flows| == |R| && k < |s.p.ops| && CanResult(s.flows, R, k)
    ensures forall v :: 0 <= v < |s.flows| ==> |Outcome(s.flows[v].posted, k, R[v])| == ShareSize(s.p.ops[k].size, |s.flows|, v)
  {
    hide SysInv, Outcome, ShareSize, Share;
    AnsweredAll(s, R, k);
    SysPipe(s, R);
    OrderOf(s.p);
    forall v | 0 <= v < |s.flows| ensures |Outcome(s.flows[v].posted, k, R[v])| == ShareSize(s.p.ops[k].size, |s.flows|, v) {
      OutcomeSize(s, R, k, v);
    }
  }

  lemma ByteDelivered(s: Sys, R: seq<Results>, b: nat)
    requires SysInv(s, R) && Finished(s) && CallReceives(s.p.call) && b < s.p.call.size && |s.flows| == |R| > 0
    ensures Delivered(s, R, b)
  {
    hide SysInv, Cut, Home, ResultChunk, ShareSize, ShareOffset, PktCount, OpResult, Outcome, CanResult, Share, WorkerOf, Assemble, NeedRx, CallReceives;
    var n, size := |s.flows|, s.p.call.size;
    var h := Home(size, n, b);
    HomeIsPlace(size, n, b);
    CarriedOnce(size, n, h, b);
    TensorSize(s, R);
    FinishedCount(s, R);
    var g, k := Segs(s)[h.seg], s.p.first + h.seg;
    SegmentDone(s, R, h.seg);
    OpOfSegment(s, R, k);
    OutcomeSizes(s, R, k);
    OutcomeSize(s, R, k, h.worker);
    ShareSizeOf(s.p.ops[k], n, h.worker);
    var x := b - g.offset - ShareOffset(g.size, n, h.worker);
    OpResultByte(s.flows, R, s.p.ops[k], k, n, h.worker, x);
    OutcomeByte(s.flows[h.worker].posted, k, R[h.worker], x, h.packet);
  }

  lemma ShareSizeOf(op: Op, n: nat, w: nat)
    requires w < n
    ensures Share(op, n, w).size == ShareSize(op.size, n, w) && Share(op, n, w).op == op
  {}

  lemma OutcomeByte(ps: seq<Job>, j: nat, R: Results, x: nat, c: nat)
    requires j < |ps| && (Reducing(ps[j].sub.op.code) ==> ps[j].sub.size % 4 == 0)
    requires NeedRx(ps[j].sub.op) && x < ps[j].sub.size && c == x / PAYLOAD_SIZE
    ensures c < Count(ps, j) && x < |Outcome(ps, j, R)| && x - PAYLOAD_SIZE * c < ChunkLen(ps[j].sub.size, c)
    ensures Outcome(ps, j, R)[x] == ResultChunk(ps, j, c, R)[x - PAYLOAD_SIZE * c]
  {
    hide ResultChunk, Assemble;
    AssembleByte(ps, j, Count(ps, j), R, x);
  }

  lemma OpOfSegment(s: Sys, R: seq<Results>, k: nat)
    requires SysInv(s, R) && Finished(s) && s.p.first <= k < |s.p.ops|
    ensures HasSeg(s, k) && s.p.ops[k].size == Seg(s, k).size && k < s.p.joined
    ensures NeedRx(s.p.ops[k]) <==> CallReceives(s.p.call)
  {
    hide P.Inv, Sizes, WorkersGood, Waiting, TensorRight, Cut, NeedRx, CallReceives;
    OrderOf(s.p);
    FinishedCount(s, R);
    CallOf(s.p, k);
    SameNeeds(s.p.ops[k], s.p.call);
  }

  /** And when a call that only sends has returned, its tensor is unchanged. */
  lemma CallPreserves(n: nat, ss: seq<Sys>, es: seq<SysEvent>, R: seq<Results>, i: nat)
    requires SysRun(n, ss, es, R) && i < |ss| && Finished(ss[i]) && !CallReceives(ss[i].p.call)
    ensures ss[i].tensor == ss[i].input
  {
    hide SysRun, SysInv, Cut, OpResult, CanResult, CallReceives;
    AlwaysSysInv(n, ss, es, R, i);
    var s := ss[i];
    TensorSize(s, R);
    forall b | 0 <= b < |s.tensor| ensures s.tensor[b] == s.input[b] {
      var j := b / SEGMENT_SIZE;
      CutCount(s.p.call.size, 0);
      SegmentUnique(s.p.call.size, b, 0);
      SegmentUnique(s.p.call.size, b, j);
      SegmentDone(s, R, j);
      var g := Segs(s)[j];
      assert s.tensor[g.offset..g.offset + g.size][b - g.offset] == s.input[g.offset..g.offset + g.size][b - g.offset];
    }
  }

  lemma TensorSize(s: Sys, R: seq<Results>)
    requires SysInv(s, R)
    ensures |s.tensor| == |s.input| == s.p.call.size
  {
    hide P.Inv, WorkersGood, Waiting, TensorRight;
  }

  /** The header of the x-th transmission of worker w: its host's rank, its operation's root, code, group
      and switch, and the sequence number of its place among the group's packets. */
  ghost predicate HasHeader(s: Sys, w: nat, x: nat)
    requires w < |s.flows| && x < |s.flows[w].wire|
  {
    var f := s.flows[w];
    && f.wire[x].idx < |f.log|
    && var r, pkt := f.log[f.wire[x].idx], f.wire[x].pkt;
    && r.job < |s.p.ops| && r.job < |f.posted|
    && var op := s.p.ops[r.job];
    && pkt.rank == op.group.rank && pkt.root == op.root && pkt.code == op.code
    && pkt.groupId == op.group.id && pkt.switchIp == op.group.switchIp
    && pkt.psn == Psn(Serial(f.posted, r.job, r.chunk))
    && (pkt.payload == [] <==> !NeedTx(op))
  }

  /** Over every run, every transmission has the header of its operation. */
  lemma EveryHeaderRight(n: nat, ss: seq<Sys>, es: seq<SysEvent>, R: seq<Results>, i: nat, w: nat, x: nat)
    requires SysRun(n, ss, es, R) && i < |ss| && w < |ss[i].flows| && x < |ss[i].flows[w].wire|
    ensures HasHeader(ss[i], w, x)
  {
    hide P.Inv, Waiting, TensorRight, Cut, InvM, Kept, Fed, Received, ShareSize, ShareOffset, PktCount, ChunkLen, SysNext, Start, InputChunk, Serials;
    AlwaysSysInv(n, ss, es, R, i);
    var s := ss[i];
    SysParts(s, R);
    OneWorker(s, R, w);
    TransmissionsCarryInput(s.flows[w], R[w], x);
  }

  /** The x-th transmission of worker w, if it belongs to the current call and carries a payload,
      carries the bytes that the call found at its place in the tensor. */
  ghost predicate FromTensor(s: Sys, w: nat, x: nat)
    requires w < |s.flows| && x < |s.flows[w].wire|
  {
    var n, f := |s.flows|, s.flows[w];
    && f.wire[x].idx < |f.log|
    && var r := f.log[f.wire[x].idx];
    && PacketRight(f.posted, |f.mem|, r) && f.wire[x].pkt == r.pkt
    && var sub := f.posted[r.job].sub;
    && (s.p.first <= r.job && NeedTx(sub.op) ==>
          && r.job - s.p.first < |Segs(s)|
          && var h := Place(r.job - s.p.first, w, r.chunk);
          && IsPlace(s.p.call.size, n, h)
          && var at, len := PacketStart(s.p.call.size, n, h), ChunkLen(sub.size, r.chunk);
          && at + len <= |s.input|
          && Received(sub, r.chunk, f.wire[x].pkt.payload) == s.input[at..at + len])
  }

  /** Every transmission of every packet, first or again, over every run, takes its bytes from the
      tensor as the call found it, although results are written over the same buffers. */
  lemma EveryPacketFromTensor(n: nat, ss: seq<Sys>, es: seq<SysEvent>, R: seq<Results>, i: nat, w: nat, x: nat)
    requires SysRun(n, ss, es, R) && i < |ss| && w < |ss[i].flows| && x < |ss[i].flows[w].wire|
    ensures |ss[i].flows| == n && FromTensor(ss[i], w, x)
  {
    hide SysInv, FromTensor, SysNext;
    WorkerCount(n, ss, es, R, i);
    AlwaysSysInv(n, ss, es, R, i);
    PacketFromTensor(ss[i], R, w, x);
  }

  lemma PacketFromTensor(s: Sys, R: seq<Results>, w: nat, x: nat)
    requires SysInv(s, R) && w < |s.flows| && x < |s.flows[w].wire|
    ensures FromTensor(s, w, x)
  {
    hide P.Inv, Waiting, TensorRight, Cut, InvM, Kept, Received, ShareSize, ShareOffset, PktCount, ChunkLen, Share;
    SysParts(s, R);
    OneWorker(s, R, w);
    OrderOf(s.p);
    var n, f := |s.flows|, s.flows[w];
    TransmissionsCarryInput(f, R[w], x);
    var r := f.log[f.wire[x].idx];
    if s.p.first <= r.job && NeedTx(f.posted[r.job].sub.op) {
      CallOf(s.p, r.job);
      var g := Segs(s)[r.job - s.p.first];
      ShareSizeOf(s.p.ops[r.job], n, w);
      PartSlice(s.input, g, n, w, PAYLOAD_SIZE * r.chunk, PAYLOAD_SIZE * r.chunk + ChunkLen(f.posted[r.job].sub.size, r.chunk));
    }
  }

  lemma PartSlice(input: seq<Byte>, g: Segment, n: nat, w: nat, c: nat, d: nat)
    requires w < n && g.offset + g.size <= |input| && c <= d <= ShareSize(g.size, n, w)
    ensures |Part(input, g, n, w)| == ShareSize(g.size, n, w)
    ensures var o := g.offset + ShareOffset(g.size, n, w); o + d <= |input| && Part(input, g, n, w)[c..d] == input[o + c..o + d]
  {
    hide ShareSize, ShareOffset;
    ShareEnds(g.size, n, w);
    var o := g.offset + ShareOffset(g.size, n, w);
    SliceOfSlice(input, o, o + ShareSize(g.size, n, w), c, d);
  }
}
