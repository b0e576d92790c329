/** All hosts of a group, each a whole system of `EndToEnd`, and the switch, whose aggregators are those
    of `Aggregators`. Every host that receives ends up with the sum of what the hosts called with. */
module Collectives {
  import opened NetCommon
  import opened Encoding
  import opened Partition
  import opened Transport
  import opened TransportMemory
  import opened EndToEnd
  import SM = SharedMemory
  import TS = TransportShape
  import TB = TransportBarrier
  import P = Pipeline
  import A = Aggregators
  import Q = Quantise

  // ----- words -----

  /** Word k as the network reads it. */
  function WordBE(bs: seq<Byte>, k: nat): (r: nat)
    requires 4 * k + 4 <= |bs|
    ensures r < TWO32
  {
    0x100_0000 * bs[4 * k] as nat + 0x1_0000 * bs[4 * k + 1] as nat + 0x100 * bs[4 * k + 2] as nat + bs[4 * k + 3] as nat
  }

  /** Word k as the host reads it. */
  function WordLE(bs: seq<Byte>, k: nat): (r: nat)
    requires 4 * k + 4 <= |bs|
    ensures r < TWO32
  {
    0x100_0000 * bs[4 * k + 3] as nat + 0x1_0000 * bs[4 * k + 2] as nat + 0x100 * bs[4 * k + 1] as nat + bs[4 * k] as nat
  }

  lemma SwappedWord(bs: seq<Byte>, k: nat)
    requires |bs| % 4 == 0 && 4 * k + 4 <= |bs|
    ensures WordBE(SwapWords(bs), k) == WordLE(bs, k) && WordLE(SwapWords(bs), k) == WordBE(bs, k)
  {
    var sw := SwapWords(bs);
    assert sw[4 * k] == bs[4 * k + 3] && sw[4 * k + 1] == bs[4 * k + 2];
    assert sw[4 * k + 2] == bs[4 * k + 1] && sw[4 * k + 3] == bs[4 * k];
  }

  lemma WordOfSlice(bs: seq<Byte>, a: nat, b: nat, k: nat)
    requires a <= b <= |bs| && a % 4 == 0 && 4 * k + 4 <= b - a
    ensures WordLE(bs[a..b], k) == WordLE(bs, a / 4 + k) && WordBE(bs[a..b], k) == WordBE(bs, a / 4 + k)
  {
    assert 4 * (a / 4 + k) == a + 4 * k;
  }

  /** A 32-bit word read as a signed integer. */
  function Signed(w: nat): int {
    if w >= Q.INT32 then w - TWO32 else w
  }

  /** The words of a payload as the switch adds them; where there is no payload, it takes zeros
      (switch/ingress.p4:96-166). */
  function Lanes(bs: seq<Byte>): (r: A.Words)
    ensures forall x :: 0 <= x < A.LANES ==> r[x] == if 4 * x + 4 <= |bs| then Signed(WordBE(bs, x)) else 0
  {
    seq(A.LANES, x requires 0 <= x < A.LANES => if 4 * x + 4 <= |bs| then Signed(WordBE(bs, x)) else 0)
  }

  // ----- hosts -----

  datatype Host = Host(s: Sys, R: seq<Results>)

  /** The host's call has returned, with n workers. */
  ghost predicate Returned(h: Host, n: nat) {
    SysInv(h.s, h.R) && Finished(h.s) && |h.s.flows| == n
  }

  /** Sizes of the first k operations of group g. */
  function OpSizes(ops: seq<Op>, k: nat, g: nat): seq<nat>
    requires k <= |ops|
  {
    if k == 0 then [] else OpSizes(ops, k - 1, g) + if ops[k - 1].group.id == g then [ops[k - 1].size] else []
  }

  /** Two hosts have returned from the same call, and had the same operations of its group so far. */
  predicate SameCall(a: Host, b: Host) {
    var x, y := a.s.p, b.s.p;
    && x.call.code == y.call.code && x.call.root == y.call.root && x.call.size == y.call.size
    && x.call.group.id == y.call.group.id
    && OpSizes(x.ops, |x.ops|, x.call.group.id) == OpSizes(y.ops, |y.ops|, x.call.group.id)
  }

  // ----- the same packet on every host -----

  function ShareSizes(zs: seq<nat>, n: nat, w: nat): (r: seq<nat>)
    requires n > 0
    ensures |r| == |zs| && forall i :: 0 <= i < |zs| ==> r[i] == ShareSize(zs[i], n, w)
  {
    seq(|zs|, i requires 0 <= i < |zs| => ShareSize(zs[i], n, w))
  }

  lemma {:induction false} SizesOfOps(ps: seq<Job>, ops: seq<Op>, k: nat, g: nat, n: nat, w: nat)
    requires w < n && k <= |ps| && k <= |ops| && forall j :: 0 <= j < k ==> ps[j].sub == Share(ops[j], n, w)
    ensures TB.Sizes(ps, k, g) == ShareSizes(OpSizes(ops, k, g), n, w)
  {
    hide ShareSize, ShareOffset;
    if k > 0 {
      SizesOfOps(ps, ops, k - 1, g, n, w);
      ShareSizeOf(ops[k - 1], n, w);
    }
  }

  lemma {:induction false} SizesOfTail(ps: seq<Job>, j: nat, k: nat, g: nat)
    requires j <= k <= |ps| && forall i :: j <= i < k ==> Gid(ps, i) == g
    ensures |TB.Sizes(ps, k, g)| == |TB.Sizes(ps, j, g)| + (k - j)
    decreases k
  {
    if j < k { SizesOfTail(ps, j, k - 1, g); }
  }

  /** Segment i of the call is job first + i of every worker: answered, and if the host sends, filled
      from the worker's part of the segment. */
  lemma JobOf(h: Host, n: nat, w: nat, i: nat)
    requires Returned(h, n) && w < n && i < |Segs(h.s)|
    ensures var s, f, k := h.s, h.s.flows[w], h.s.p.first + i;
      && |h.R| == n && InvM(f, h.R[w])
      && |f.posted| == |s.p.ops| == s.p.first + |Segs(s)| && k < f.done <= |f.posted|
      && SegsFit(Segs(s), |s.input|) && |s.input| == s.p.call.size
      && s.p.ops[k].size == Segs(s)[i].size && P.OfCall(s.p.ops[k], s.p.call)
      && (forall j :: 0 <= j < |f.posted| ==> f.posted[j].sub == Share(s.p.ops[j], n, w))
      && JobGood(f.posted[k], |f.mem|)
      && (NeedTx(s.p.ops[k]) ==> f.posted[k].input == Part(s.input, Segs(s)[i], n, w))
  {
    hide P.Inv, Waiting, TensorRight, InvM, SM.Kept, Cut, Part, Share;
    SysParts(h.s, h.R);
    FinishedCount(h.s, h.R);
    OrderOf(h.s.p);
    OneWorker(h.s, h.R, w);
    AnsweredAll(h.s, h.R, h.s.p.first + i);
    CallOf(h.s.p, h.s.p.first + i);
    JobSizes(h.s.flows[w], h.R[w], h.s.p.first + i);
    ShareOp(h.s.p.ops[h.s.p.first + i], n, w);
  }

  lemma CallJobs(h: Host, n: nat, w: nat, i: nat)
    requires Returned(h, n) && w < n && i < |Segs(h.s)|
    ensures var s, f := h.s, h.s.flows[w];
      |f.posted| == |s.p.ops| == s.p.first + |Segs(s)|
      && forall j :: s.p.first <= j < |f.posted| ==> Gid(f.posted, j) == s.p.call.group.id
  {
    hide SysInv, Cut, Share, InvM;
    JobOf(h, n, w, i);
    var s, f := h.s, h.s.flows[w];
    forall j | s.p.first <= j < |f.posted| ensures Gid(f.posted, j) == s.p.call.group.id {
      JobOf(h, n, w, j - s.p.first);
      ShareOp(s.p.ops[j], n, w);
    }
  }

  /** Segment i's packets have the same serial numbers on both hosts. */
  lemma SameSerial(a: Host, b: Host, n: nat, w: nat, i: nat, c: nat)
    requires Returned(a, n) && Returned(b, n) && SameCall(a, b) && w < n && i < |Segs(a.s)|
    ensures |Segs(b.s)| == |Segs(a.s)|
    ensures var ps, qs, j, k := a.s.flows[w].posted, b.s.flows[w].posted, a.s.p.first + i, b.s.p.first + i;
      && j < |ps| && k < |qs| && Gid(ps, j) == Gid(qs, k) == a.s.p.call.group.id
      && ps[j].sub.size == qs[k].sub.size && Serial(ps, j, c) == Serial(qs, k, c)
  {
    hide SysInv, Cut, Share, Serials, TB.Sizes, OpSizes, InvM;
    var ps, qs, j, k, g := a.s.flows[w].posted, b.s.flows[w].posted, a.s.p.first + i, b.s.p.first + i, a.s.p.call.group.id;
    JobOf(a, n, w, i);
    JobOf(b, n, w, i);
    CallJobs(a, n, w, i);
    CallJobs(b, n, w, i);
    SizesOfOps(ps, a.s.p.ops, |ps|, g, n, w);
    SizesOfOps(qs, b.s.p.ops, |qs|, g, n, w);
    SizesOfTail(ps, j, |ps|, g);
    SizesOfTail(qs, k, |qs|, g);
    TB.HostsAgree(ps, qs, g, j, k, c);
  }

  /** The log entry of an answered job's packet. */
  lemma EntryOf(f: Flow, R: Results, j: nat, c: nat)
    requires InvM(f, R) && j < f.done && f.done <= |f.posted| && c < Count(f.posted, j)
    ensures var i := FirstIdx(f.posted, j) + c;
      && Sane(f) && i < |f.log| && f.log[i].job == j && f.log[i].chunk == c
      && TS.SerialAt(f, i) == Serial(f.posted, j, c) && PacketRight(f.posted, |f.mem|, f.log[i])
  {
    hide PktCount, MemoryRight, JobsOk, PacketRight, TS.Shape, TS.OneGroup, TS.GroupNow, Serials;
    EntryPlace(f, j, c);
  }

  lemma EntryPlace(f: Flow, j: nat, c: nat)
    requires TS.Shape(f) && j < f.done && f.done <= |f.posted| && c < Count(f.posted, j)
    ensures var i := FirstIdx(f.posted, j) + c; Sane(f) && i < |f.log| && f.log[i].job == j && f.log[i].chunk == c
  {
    hide PktCount, TS.Shape, Sane;
    LogReaches(f, j);
    var i := FirstIdx(f.posted, j) + c;
    LogPlace(f, i);
    TS.Locate(f.posted, i, j, f.log[i].job);
  }

  lemma LogReaches(f: Flow, j: nat)
    requires TS.Shape(f) && j < f.done && f.done <= |f.posted|
    ensures Sane(f) && FirstIdx(f.posted, j + 1) <= |f.log|
  {
    hide PktCount, JobOk, RecOk, FirstIdx;
    TS.FirstIdxMono(f.posted, j + 1, f.done);
  }

  lemma LogPlace(f: Flow, i: nat)
    requires TS.Shape(f) && i < |f.log|
    ensures RecOk(f.posted, f.log[i]) && i == FirstIdx(f.posted, f.log[i].job) + f.log[i].chunk
  {
    hide PktCount, JobOk, FirstIdx;
  }

  /** The header of a packet of the call: the host's rank, the call's root, code, group and switch, the
      sequence number, and the aggregator that the number and the worker stand for. */
  ghost predicate HeaderRight(h: Host, n: nat, w: nat, i: nat)
    requires n > 0 && w < |h.s.flows| && Sane(h.s.flows[w]) && i < |h.s.flows[w].log|
  {
    var pkt, c, psn := h.s.flows[w].log[i].pkt, h.s.p.call, Psn(TS.SerialAt(h.s.flows[w], i));
    && pkt.rank == c.group.rank && pkt.root == c.root && pkt.code == c.code
    && pkt.groupId == c.group.id && pkt.switchIp == c.group.switchIp
    && pkt.psn == psn && n <= c.group.aggLen
    && AtAggregator(c.group, n, w, psn, pkt.aggAddr)
  }

  /** Worker w's share of the group's aggregators begins after the shares of the workers before it. */
  predicate AtAggregator(g: Group, n: nat, w: nat, psn: nat, addr: nat)
    requires n > 0
  {
    var len := g.aggLen / n;
    len > 0 && addr == ((g.aggAddr + len * w) % 0x10000 + psn % len) % 0x10000
  }

  lemma HeaderOf(h: Host, n: nat, w: nat, i: nat)
    requires Returned(h, n) && n > 0 && w < n && Sane(h.s.flows[w]) && i < |h.s.flows[w].log| && h.s.p.first <= h.s.flows[w].log[i].job
    ensures HeaderRight(h, n, w, i)
  {
    hide SysInv, Cut, ShareSize, ShareOffset, PktCount, InvM, Part, Finished, Sane, Serials, InputChunk;
    var f, k := h.s.flows[w], h.s.flows[w].log[i].job;
    EntryRight(h, n, w, i);
    JobOf(h, n, w, k - h.s.p.first);
    Aggregators(h, n);
  }

  lemma EntryRight(h: Host, n: nat, w: nat, i: nat)
    requires Returned(h, n) && n > 0 && w < n && i < |h.s.flows[w].log|
    ensures var f := h.s.flows[w];
      PacketRight(f.posted, |f.mem|, f.log[i]) && |f.posted| == h.s.p.first + |Segs(h.s)|
  {
    hide SysInv, Cut, Share, PktCount, TS.Inv, JobsOk, MemoryRight, Part;
    CutCount(h.s.p.call.size, 0);
    JobOf(h, n, w, 0);
  }

  lemma Aggregators(h: Host, n: nat)
    requires Returned(h, n)
    ensures n <= h.s.p.call.group.aggLen
  {
    hide P.Inv, WorkersGood, Waiting, TensorRight, Cut;
  }

  // ----- what the switch does -----

  /** Entry i of worker w's log is the packet with serial number u of group g. */
  ghost predicate Numbered(h: Host, w: nat, g: nat, u: nat, i: nat) {
    && w < |h.s.flows| && Sane(h.s.flows[w]) && i < |h.s.flows[w].log|
    && Gid(h.s.flows[w].posted, h.s.flows[w].log[i].job) == g && TS.SerialAt(h.s.flows[w], i) == u
  }

  ghost predicate AllNumbered(hs: seq<Host>, w: nat, g: nat, u: nat, at: seq<nat>) {
    |at| == |hs| && forall k :: 0 <= k < |hs| ==> Numbered(hs[k], w, g, u, at[k])
  }

  /** The hosts' packets, when at[k] is host k's log entry. */
  function PacketLanes(hs: seq<Host>, w: nat, at: seq<nat>): (r: seq<A.Words>)
    requires |at| == |hs| && forall k :: 0 <= k < |hs| ==> w < |hs[k].s.flows| && at[k] < |hs[k].s.flows[w].log|
    ensures |r| == |hs| && forall k :: 0 <= k < |hs| ==> r[k] == Lanes(hs[k].s.flows[w].log[at[k]].pkt.payload)
  {
    seq(|hs|, k requires 0 <= k < |hs| => Lanes(hs[k].s.flows[w].log[at[k]].pkt.payload))
  }

  function HostPackets(hs: seq<Host>, w: nat, at: seq<nat>): (r: seq<Packet>)
    requires |at| == |hs| && forall k :: 0 <= k < |hs| ==> w < |hs[k].s.flows| && at[k] < |hs[k].s.flows[w].log|
    ensures |r| == |hs| && forall k :: 0 <= k < |hs| ==> r[k] == hs[k].s.flows[w].log[at[k]].pkt
  {
    seq(|hs|, k requires 0 <= k < |hs| => hs[k].s.flows[w].log[at[k]].pkt)
  }

  ghost predicate Receives(h: Host, w: nat, i: nat)
    requires w < |h.s.flows| && Sane(h.s.flows[w]) && i < |h.s.flows[w].log|
  {
    NeedRx(h.s.flows[w].posted[h.s.flows[w].log[i].job].sub.op)
  }

  /** A packet as an aggregator takes it. */
  function ArrivalOf(pkt: Packet): A.Arrival {
    A.Arrival(A.Version(pkt.groupId, pkt.psn), pkt.rank, Lanes(pkt.payload))
  }

  function ArrivalsOf(pkts: seq<Packet>): (r: seq<A.Arrival>)
    ensures |r| == |pkts| && forall i :: 0 <= i < |pkts| ==> r[i] == ArrivalOf(pkts[i])
  {
    seq(|pkts|, i requires 0 <= i < |pkts| => ArrivalOf(pkts[i]))
  }

  /** The switch sends an answer on to this rank: to every member, or to the sender alone. */
  predicate Reaches(answer: A.Reply, pkt: Packet, rank: nat) {
    answer.ToAll? || (answer.ToOne? && pkt.rank == rank)
  }

  /** On its way out the answer keeps its payload where it is wanted (switch/egress.p4:145-153). */
  predicate KeepsPayload(pkt: Packet, rank: nat) {
    (pkt.code.Reduce? ==> rank == pkt.root) && (pkt.code.Broadcast? ==> rank != pkt.root)
  }

  /** These packets arrived at one aggregator, and the last of them was answered: with what host h's
      network answers for number u. Packets of that version are the hosts' packets for u. */
  ghost predicate Aggregated(hs: seq<Host>, h: nat, w: nat, g: nat, u: nat, at: seq<nat>, slot: A.Slot, before: seq<Packet>, last: Packet)
    requires h < |hs| && w < |hs[h].R| && AllNumbered(hs, w, g, u, at)
  {
    && slot.seen == {} && ArrivalOf(last).version == A.Version(g, Psn(u))
    && (forall i :: 0 <= i < |before| ==> before[i].aggAddr == last.aggAddr)
    && SentByHosts(hs, w, at, before + [last], ArrivalOf(last).version)
    && var answer := A.Answer(A.After(slot, ArrivalsOf(before)), ArrivalOf(last), |hs|);
    && Reaches(answer, last, hs[h].s.p.call.group.rank) && KeepsPayload(last, hs[h].s.p.call.group.rank)
    && answer.sums == Lanes(hs[h].R[w](g, u))
  }

  /** Those of version v are from the hosts' logs. */
  predicate SentByHosts(hs: seq<Host>, w: nat, at: seq<nat>, pkts: seq<Packet>, v: nat)
    requires |at| == |hs| && forall k :: 0 <= k < |hs| ==> w < |hs[k].s.flows| && at[k] < |hs[k].s.flows[w].log|
  {
    forall i :: 0 <= i < |pkts| && ArrivalOf(pkts[i]).version == v ==> pkts[i] in HostPackets(hs, w, at)
  }

  ghost predicate FromSwitch(hs: seq<Host>, h: nat, w: nat, g: nat, u: nat, at: seq<nat>)
    requires h < |hs| && w < |hs[h].R| && AllNumbered(hs, w, g, u, at)
  {
    exists slot, before, last :: Aggregated(hs, h, w, g, u, at, slot, before, last)
  }

  /** Host k has rank k. */
  predicate Ranked(hs: seq<Host>) {
    forall k :: 0 <= k < |hs| ==> hs[k].s.p.call.group.rank == k
  }

  /** These log entries are packets of the call that the hosts have returned from. */
  predicate OfCall(hs: seq<Host>, w: nat, at: seq<nat>) {
    |at| == |hs| && forall k :: 0 <= k < |hs| ==>
      w < |hs[k].s.flows| && at[k] < |hs[k].s.flows[w].log| && hs[k].s.p.first <= hs[k].s.flows[w].log[at[k]].job
  }

  /** Whatever a receiving host is answered for a packet of the call comes from the switch. `hs` are all
      members of the call's group. Nothing is said of earlier calls and of other groups, which may have
      had other members. */
  ghost predicate SwitchAnswers(hs: seq<Host>) {
    && Ranked(hs)
    && forall h, w, g, u, at ::
         0 <= h < |hs| && 0 <= w < |hs[h].R| && AllNumbered(hs, w, g, u, at) && OfCall(hs, w, at) && Receives(hs[h], w, at[h]) ==>
           FromSwitch(hs, h, w, g, u, at)
  }

  // ----- what a host sends -----

  predicate CallSends(call: P.Call) {
    NeedTx(Op(0, call.code, call.root, 0, 0, call.group))
  }

  /** Word j of the call is word y of the packet at place p. */
  predicate WordAt(size: nat, n: nat, p: Place, y: nat, j: nat)
    requires n > 0
  {
    && IsPlace(size, n, p) && PacketStart(size, n, p) + 4 * y == 4 * j
    && 4 * y + 4 <= ChunkLen(ShareSize(Cut(size, 0)[p.seg].size, n, p.worker), p.packet)
  }

  /** No word lies in two packets. */
  lemma WordPlace(size: nat, n: nat, j: nat) returns (p: Place, y: nat)
    requires n > 0 && size % 4 == 0 && 4 * j + 4 <= size
    ensures WordAt(size, n, p, y, j)
    ensures forall b :: 4 * j <= b < 4 * j + 4 ==> Home(size, n, b) == p
  {
    hide Cut, ShareSize, ShareOffset, PktCount, ChunkLen, Home, IsPlace, Carries, PacketStart;
    p := Home(size, n, 4 * j);
    HomeIsPlace(size, n, 4 * j);
    CarriedOnce(size, n, p, 4 * j);
    StartsOnWord(size, n, p);
    CarriesForm(size, n, p, 4 * j);
    y := (4 * j - PacketStart(size, n, p)) / 4;
    forall b | 4 * j <= b < 4 * j + 4 ensures Home(size, n, b) == p {
      CarriesForm(size, n, p, b);
      CarriedOnce(size, n, p, b);
    }
  }

  lemma CarriesForm(size: nat, n: nat, p: Place, b: nat)
    requires n > 0 && IsPlace(size, n, p)
    ensures p.seg < |Cut(size, 0)| && p.packet < PktCount(ShareSize(Cut(size, 0)[p.seg].size, n, p.worker))
    ensures var start, len := PacketStart(size, n, p), ChunkLen(ShareSize(Cut(size, 0)[p.seg].size, n, p.worker), p.packet);
      Carries(size, n, p, b) <==> start <= b < start + len
  {}

  /** Packets of whole words start on a word. */
  lemma StartsOnWord(size: nat, n: nat, p: Place)
    requires n > 0 && size % 4 == 0 && IsPlace(size, n, p)
    ensures PacketStart(size, n, p) % 4 == 0
    ensures ChunkLen(ShareSize(Cut(size, 0)[p.seg].size, n, p.worker), p.packet) % 4 == 0
  {
    hide Cut, ShareSize, ShareOffset, PktCount;
    SegWords(size, p.seg);
    ShareEnds(Cut(size, 0)[p.seg].size, n, p.worker);
  }

  lemma SegWords(size: nat, i: nat)
    requires size % 4 == 0 && i < |Cut(size, 0)|
    ensures Cut(size, 0)[i].size % 4 == 0 && Cut(size, 0)[i].offset % 4 == 0
  {
    hide Cut;
    CutShape(size, 0, i);
    assert i * SEGMENT_SIZE == 4 * (i * (SEGMENT_SIZE / 4));
  }

  /** Word y of a filled packet. */
  lemma WordOfPayload(sub: SubOp, psn: nat, bs: seq<Byte>, y: nat)
    requires sub.aggLen > 0 && |bs| <= PAYLOAD_SIZE && Reducing(sub.op.code) && |bs| % 4 == 0 && 4 * y + 4 <= |bs|
    ensures Lanes(FilledPacket(sub, psn, bs).payload)[y] == if NeedTx(sub.op) then Signed(WordLE(bs, y)) else 0
  {
    SwappedWord(bs, y);
    hide SwapWords;
    var x := Wire(sub.op.code, bs);
    assert Padded(x)[..|bs|] == x;
    WordOfSlice(Padded(x), 0, |bs|, y);
  }

  /** The packet of the call at place p is in its worker's log. */
  predicate Logged(h: Host, p: Place) {
    && p.worker < |h.s.flows| && h.s.p.first + p.seg < |h.s.flows[p.worker].posted|
    && FirstIdx(h.s.flows[p.worker].posted, h.s.p.first + p.seg) + p.packet < |h.s.flows[p.worker].log|
  }

  function PacketAt(h: Host, p: Place): Packet
    requires Logged(h, p)
  {
    h.s.flows[p.worker].log[FirstIdx(h.s.flows[p.worker].posted, h.s.p.first + p.seg) + p.packet].pkt
  }

  ghost predicate SendsWord(h: Host, p: Place, y: nat, j: nat) {
    Logged(h, p) && 4 * j + 4 <= |h.s.input| && y < 64 && Lanes(PacketAt(h, p).payload)[y] == Offered(h, j)
  }

  /** A host's packet carries the words that its call found at the packet's place. */
  lemma SentWord(h: Host, n: nat, p: Place, y: nat, j: nat)
    requires Returned(h, n) && n > 0 && Reducing(h.s.p.call.code) && WordAt(h.s.p.call.size, n, p, y, j)
    ensures SendsWord(h, p, y, j)
  {
    hide SysInv, Cut, Share, ShareSize, ShareOffset, PktCount, ChunkLen, FirstIdx, InvM, Part, FilledPacket, WordLE, Lanes, Signed, Serials, InputChunk;
    var s, k := h.s, h.s.p.first + p.seg;
    SentChunk(h, n, p);
    var f := s.flows[p.worker];
    var bs, at := InputChunk(f.posted[k], p.packet), PacketStart(s.p.call.size, n, p);
    WordOfPayload(f.posted[k].sub, Psn(Serial(f.posted, k, p.packet)), bs, y);
    if CallSends(s.p.call) { WordOfSlice(s.input, at, at + |bs|, y); }
  }

  /** The packet at p is filled from its chunk, which is the call's bytes at its place. */
  lemma SentChunk(h: Host, n: nat, p: Place)
    requires Returned(h, n) && n > 0 && IsPlace(h.s.p.call.size, n, p)
    ensures Logged(h, p)
    ensures var s, f, k := h.s, h.s.flows[p.worker], h.s.p.first + p.seg;
      && p.packet < Count(f.posted, k) && |f.posted[k].input| == f.posted[k].sub.size
      && var sub, bs, at := f.posted[k].sub, InputChunk(f.posted[k], p.packet), PacketStart(s.p.call.size, n, p);
      && sub.size == ShareSize(Segs(s)[p.seg].size, n, p.worker) && P.OfCall(sub.op, s.p.call)
      && sub.aggLen > 0 && (Reducing(sub.op.code) ==> |bs| % 4 == 0)
      && PacketAt(h, p) == FilledPacket(sub, Psn(Serial(f.posted, k, p.packet)), bs)
      && at + |bs| <= |s.input| && (CallSends(s.p.call) ==> bs == s.input[at..at + |bs|])
  {
    hide SysInv, Cut, Share, ShareSize, ShareOffset, PktCount, ChunkLen, FirstIdx, InvM, Part, FilledPacket, Serials;
    JobOf(h, n, p.worker, p.seg);
    var s, f, w, g, k, c := h.s, h.s.flows[p.worker], p.worker, Segs(h.s)[p.seg], h.s.p.first + p.seg, p.packet;
    ShareSizeOf(s.p.ops[k], n, w);
    EntryOf(f, h.R[w], k, c);
    var len := ChunkLen(f.posted[k].sub.size, c);
    PartSlice(s.input, g, n, w, PAYLOAD_SIZE * c, PAYLOAD_SIZE * c + len);
  }

  /** What the host has to offer for word j. */
  function Offered(h: Host, j: nat): int {
    if CallSends(h.s.p.call) && 4 * j + 4 <= |h.s.input| then Signed(WordLE(h.s.input, j)) else 0
  }

  // ----- what a host receives -----

  lemma WordOfResult(ps: seq<Job>, k: nat, c: nat, R: Results, y: nat)
    requires k < |ps| && c < Count(ps, k) && Reducing(ps[k].sub.op.code) && ps[k].sub.size % 4 == 0
    requires 4 * y + 4 <= ChunkLen(ps[k].sub.size, c)
    ensures WordLE(ResultChunk(ps, k, c, R), y) == WordBE(R(Gid(ps, k), Serial(ps, k, c)), y)
  {
    hide PktCount, Serials;
    var p := R(Gid(ps, k), Serial(ps, k, c));
    var len := ChunkLen(ps[k].sub.size, c);
    SwappedWord(p[..len], y);
    hide SwapWords;
    WordOfSlice(p, 0, len, y);
  }

  lemma DeliveredAt(s: Sys, R: seq<Results>, p: Place, b: nat, k: nat)
    requires s.flows != [] && |R| == |s.flows| && b < s.p.call.size && Delivered(s, R, b)
    requires Home(s.p.call.size, |s.flows|, b) == p && k == s.p.first + p.seg
    ensures |s.tensor| == s.p.call.size && IsPlace(s.p.call.size, |s.flows|, p)
    ensures var ps, at := s.flows[p.worker].posted, b - PacketStart(s.p.call.size, |s.flows|, p);
      && k < |ps| && p.packet < Count(ps, k) && (Reducing(ps[k].sub.op.code) ==> ps[k].sub.size % 4 == 0)
      && 0 <= at < |ResultChunk(ps, k, p.packet, R[p.worker])|
      && s.tensor[b] == ResultChunk(ps, k, p.packet, R[p.worker])[at]
  {
    hide Cut, PktCount, ShareSize, ShareOffset, Home, ResultChunk;
  }

  lemma GotByte(h: Host, n: nat, p: Place, b: nat, k: nat)
    requires Returned(h, n) && n > 0 && CallReceives(h.s.p.call) && b < h.s.p.call.size
    requires Home(h.s.p.call.size, n, b) == p && k == h.s.p.first + p.seg
    ensures |h.R| == n && |h.s.tensor| == h.s.p.call.size && IsPlace(h.s.p.call.size, n, p)
    ensures var ps, at := h.s.flows[p.worker].posted, b - PacketStart(h.s.p.call.size, n, p);
      && k < |ps| && p.packet < Count(ps, k) && (Reducing(ps[k].sub.op.code) ==> ps[k].sub.size % 4 == 0)
      && 0 <= at < |ResultChunk(ps, k, p.packet, h.R[p.worker])|
      && h.s.tensor[b] == ResultChunk(ps, k, p.packet, h.R[p.worker])[at]
  {
    hide SysInv, Cut, PktCount, ShareSize, ShareOffset, Home, ResultChunk, Delivered, Finished;
    CutCount(h.s.p.call.size, 0);
    JobOf(h, n, 0, 0);
    ByteDelivered(h.s, h.R, b);
    DeliveredAt(h.s, h.R, p, b, k);
  }

  /** A word of the tensor is the word that the network answered for the packet at its place. */
  lemma GotWord(h: Host, n: nat, p: Place, y: nat, j: nat)
    requires Returned(h, n) && n > 0 && Reducing(h.s.p.call.code) && CallReceives(h.s.p.call)
    requires WordAt(h.s.p.call.size, n, p, y, j) && 4 * j + 4 <= h.s.p.call.size
    requires forall b :: 4 * j <= b < 4 * j + 4 ==> Home(h.s.p.call.size, n, b) == p
    ensures var ps, k := h.s.flows[p.worker].posted, h.s.p.first + p.seg;
      && p.worker < |h.R| && k < |ps| && 4 * j + 4 <= |h.s.tensor| && y < 64
      && WordLE(h.s.tensor, j) == WordBE(h.R[p.worker](Gid(ps, k), Serial(ps, k, p.packet)), y)
  {
    hide SysInv, Cut, Share, ShareSize, ShareOffset, PktCount, ChunkLen, FirstIdx, InvM, Part, ResultChunk, WordBE, Serials, Home, Delivered, Finished, PacketStart, Carries;
    JobOf(h, n, p.worker, p.seg);
    var s, ps, k, c := h.s, h.s.flows[p.worker].posted, h.s.p.first + p.seg, p.packet;
    ShareSizeOf(s.p.ops[k], n, p.worker);
    GotByte(h, n, p, 4 * j, k);
    GotByte(h, n, p, 4 * j + 1, k);
    GotByte(h, n, p, 4 * j + 2, k);
    GotByte(h, n, p, 4 * j + 3, k);
    WordOfResult(ps, k, c, h.R[p.worker], y);
  }

  // ----- all together -----

  /** What the hosts have to offer for word j. */
  function Offers(hs: seq<Host>, j: nat): (r: seq<int>)
    ensures |r| == |hs| && forall k :: 0 <= k < |hs| ==> r[k] == Offered(hs[k], j)
  {
    seq(|hs|, k requires 0 <= k < |hs| => Offered(hs[k], j))
  }

  ghost predicate AllReturned(hs: seq<Host>, n: nat) {
    && (forall k :: 0 <= k < |hs| ==> Returned(hs[k], n))
    && (forall k, m :: 0 <= k < |hs| && 0 <= m < |hs| ==> SameCall(hs[k], hs[m]))
  }

  ghost predicate AllLogged(hs: seq<Host>, p: Place) {
    forall k :: 0 <= k < |hs| ==> Logged(hs[k], p)
  }

  /** The log entries of the packet at p on all hosts. */
  ghost function Entries(hs: seq<Host>, p: Place): (r: seq<nat>)
    requires AllLogged(hs, p)
    ensures |r| == |hs|
    ensures forall k :: 0 <= k < |hs| ==> Logged(hs[k], p) && r[k] == FirstIdx(hs[k].s.flows[p.worker].posted, hs[k].s.p.first + p.seg) + p.packet
  {
    assert forall k :: 0 <= k < |hs| ==> Logged(hs[k], p);
    seq(|hs|, k requires 0 <= k < |hs| && Logged(hs[k], p) => FirstIdx(hs[k].s.flows[p.worker].posted, hs[k].s.p.first + p.seg) + p.packet)
  }

  /** The packet at p on all hosts. */
  ghost function AllLanes(hs: seq<Host>, p: Place): (r: seq<A.Words>)
    requires AllLogged(hs, p)
    ensures |r| == |hs| && forall k :: 0 <= k < |hs| ==> Logged(hs[k], p) && r[k] == Lanes(PacketAt(hs[k], p).payload)
  {
    assert forall k :: 0 <= k < |hs| ==> Logged(hs[k], p);
    seq(|hs|, k requires 0 <= k < |hs| && Logged(hs[k], p) => Lanes(PacketAt(hs[k], p).payload))
  }

  /** Host b's entry for the packet at p has the serial number that host a gives it. */
  ghost predicate SameNumber(a: Host, b: Host, p: Place) {
    && p.worker < |a.s.flows| && p.worker < |b.s.flows|
    && var ps, qs, j, k := a.s.flows[p.worker].posted, b.s.flows[p.worker].posted, a.s.p.first + p.seg, b.s.p.first + p.seg;
    && j < |ps| && k < |qs|
    && var i := FirstIdx(qs, k) + p.packet;
    && Numbered(b, p.worker, Gid(ps, j), Serial(ps, j, p.packet), i)
    && b.s.flows[p.worker].log[i].job == k
  }

  lemma EntryNumbered(a: Host, b: Host, n: nat, p: Place)
    requires Returned(a, n) && Returned(b, n) && SameCall(a, b) && n > 0 && IsPlace(a.s.p.call.size, n, p)
    ensures SameNumber(a, b, p)
  {
    hide SysInv, Cut, Share, ShareSize, ShareOffset, PktCount, FirstIdx, InvM, Part, Serials, OpSizes, PacketRight;
    SameSerial(a, b, n, p.worker, p.seg, p.packet);
    JobOf(b, n, p.worker, p.seg);
    ShareSizeOf(b.s.p.ops[b.s.p.first + p.seg], n, p.worker);
    EntryOf(b.s.flows[p.worker], b.R[p.worker], b.s.p.first + p.seg, p.packet);
  }

  /** What host h was answered for the packet at p is the sum, in this order, of all hosts' packets. */
  ghost predicate Summed(hs: seq<Host>, h: nat, p: Place, order: seq<nat>) {
    && h < |hs| && p.worker < |hs[h].R| && AllLogged(hs, p)
    && var ps, j := hs[h].s.flows[p.worker].posted, hs[h].s.p.first + p.seg;
    && A.SumsUp(Lanes(hs[h].R[p.worker](Gid(ps, j), Serial(ps, j, p.packet))), order, AllLanes(hs, p))
  }

  lemma SwitchSums(hs: seq<Host>, n: nat, h: nat, w: nat, g: nat, u: nat, at: seq<nat>) returns (order: seq<nat>)
    requires SwitchAnswers(hs) && h < |hs| && w < |hs[h].R| && AllNumbered(hs, w, g, u, at) && w < n
    requires OfCall(hs, w, at) && Receives(hs[h], w, at[h]) && forall k :: 0 <= k < |hs| ==> Returned(hs[k], n)
    ensures A.SumsUp(Lanes(hs[h].R[w](g, u)), order, PacketLanes(hs, w, at))
  {
    hide Lanes, A.SumsUp, A.Answer, A.After, A.Sent, Returned, KeepsPayload, Sane;
    assert FromSwitch(hs, h, w, g, u, at);
    assert Ranked(hs);
    hide SwitchAnswers, Receives;
    var slot, before, last :| Aggregated(hs, h, w, g, u, at, slot, before, last);
    ArrivalsSent(hs, n, w, g, u, at, before + [last], ArrivalOf(last).version);
    assert ArrivalsOf(before + [last]) == ArrivalsOf(before) + [ArrivalOf(last)];
    order := A.AnswerIsSum(slot, ArrivalsOf(before), ArrivalOf(last), PacketLanes(hs, w, at));
  }

  /** The ranks in the hosts' headers tell their packets apart. */
  lemma ArrivalsSent(hs: seq<Host>, n: nat, w: nat, g: nat, u: nat, at: seq<nat>, pkts: seq<Packet>, v: nat)
    requires AllNumbered(hs, w, g, u, at) && OfCall(hs, w, at) && Ranked(hs) && w < n && forall k :: 0 <= k < |hs| ==> Returned(hs[k], n)
    requires SentByHosts(hs, w, at, pkts, v)
    ensures A.Sent(ArrivalsOf(pkts), v, PacketLanes(hs, w, at))
  {
    hide Lanes, Returned, Sane, A.Version, AtAggregator;
    forall i | 0 <= i < |pkts| && ArrivalsOf(pkts)[i].version == v
      ensures ArrivalsOf(pkts)[i].rank < |hs| && ArrivalsOf(pkts)[i].words == PacketLanes(hs, w, at)[ArrivalsOf(pkts)[i].rank]
    {
      assert pkts[i] in HostPackets(hs, w, at);
      var k :| 0 <= k < |hs| && pkts[i] == HostPackets(hs, w, at)[k];
      HeaderOf(hs[k], n, w, at[k]);
    }
  }

  lemma AnswerIsSum(hs: seq<Host>, n: nat, h: nat, p: Place) returns (order: seq<nat>)
    requires n > 0 && AllReturned(hs, n) && SwitchAnswers(hs) && h < |hs| && CallReceives(hs[h].s.p.call)
    requires IsPlace(hs[h].s.p.call.size, n, p)
    ensures Summed(hs, h, p, order)
  {
    hide SysInv, Cut, Share, ShareSize, ShareOffset, PktCount, FirstIdx, InvM, Part, Serials, SameCall, Lanes, Finished, CallReceives, SwitchAnswers, A.SumsUp;
    var s := hs[h].s;
    forall k | 0 <= k < |hs| ensures SameNumber(hs[h], hs[k], p) {
      EntryNumbered(hs[h], hs[k], n, p);
    }
    var at := Entries(hs, p);
    var g, u := Gid(s.flows[p.worker].posted, s.p.first + p.seg), Serial(s.flows[p.worker].posted, s.p.first + p.seg, p.packet);
    JobOf(hs[h], n, p.worker, p.seg);
    assert AllNumbered(hs, p.worker, g, u, at);
    assert OfCall(hs, p.worker, at);
    assert Receives(hs[h], p.worker, at[h]) by { JobReceives(hs[h], n, p.worker, p.seg); }
    order := SwitchSums(hs, n, h, p.worker, g, u, at);
    assert PacketLanes(hs, p.worker, at) == AllLanes(hs, p);
  }

  /** x is the saturating sum of the xs in some order and grouping, each taken once. */
  ghost predicate AddsUpTo(x: int, xs: seq<int>) {
    exists t :: EachOnce(t, |xs|) && x == Q.Evaluate(t, xs)
  }

  predicate EachOnce(t: Q.Tree, n: nat) {
    Q.Once(t) && Q.Within(t, n) && Q.Ranks(t) == Q.AllRanks(n)
  }

  lemma LaneAddsUp(hs: seq<Host>, h: nat, p: Place, order: seq<nat>, x: nat)
    requires Summed(hs, h, p, order) && x < A.LANES
    ensures var ps, j := hs[h].s.flows[p.worker].posted, hs[h].s.p.first + p.seg;
      AddsUpTo(Lanes(hs[h].R[p.worker](Gid(ps, j), Serial(ps, j, p.packet)))[x], A.Lane(AllLanes(hs, p), x))
  {
    hide Lanes, FirstIdx, Serials, A.IsOrder, Q.Evaluate, Q.Once, Q.Within, Q.Ranks;
    assert EachOnce(A.Chain(order), |hs|);
  }

  /** Word j of the call on host h. */
  lemma WordSummed(hs: seq<Host>, n: nat, h: nat, j: nat)
    requires n > 0 && AllReturned(hs, n) && SwitchAnswers(hs) && h < |hs|
    requires Reducing(hs[h].s.p.call.code) && CallReceives(hs[h].s.p.call) && 4 * j + 4 <= hs[h].s.p.call.size
    ensures 4 * j + 4 <= |hs[h].s.tensor| && AddsUpTo(Signed(WordLE(hs[h].s.tensor, j)), Offers(hs, j))
  {
    hide SysInv, Cut, ShareSize, ShareOffset, PktCount, FirstIdx, Serials, SameCall, Offered, Lanes, Signed, WordLE, WordBE, Finished, CallReceives, Home, SwitchAnswers, AddsUpTo;
    var s := hs[h].s;
    CallWords(hs[h], n);
    var p, y := WordPlace(s.p.call.size, n, j);
    GotWord(hs[h], n, p, y, j);
    var order := AnswerIsSum(hs, n, h, p);
    LaneAddsUp(hs, h, p, order, y);
    forall k | 0 <= k < |hs| ensures SendsWord(hs[k], p, y, j) {
      SentWord(hs[k], n, p, y, j) by { SameShape(hs[h], hs[k]); }
    }
    hide AllReturned;
    assert A.Lane(AllLanes(hs, p), y) == Offers(hs, j);
  }

  lemma SameShape(a: Host, b: Host)
    requires SameCall(a, b)
    ensures a.s.p.call.code == b.s.p.call.code && a.s.p.call.root == b.s.p.call.root && a.s.p.call.size == b.s.p.call.size
  {
    hide OpSizes;
  }

  lemma CallWords(h: Host, n: nat)
    requires Returned(h, n)
    ensures Reducing(h.s.p.call.code) ==> h.s.p.call.size % 4 == 0
  {
    hide P.PyInv, P.ShmInv, P.WorkInv, P.BufInv, P.SlotsInv, P.CopyInv, Sizes, WorkersGood, Waiting, TensorRight, Cut;
  }

  lemma JobReceives(h: Host, n: nat, w: nat, i: nat)
    requires Returned(h, n) && CallReceives(h.s.p.call) && w < n && i < |Segs(h.s)|
    ensures w < |h.s.flows| && h.s.p.first + i < |h.s.flows[w].posted| && NeedRx(h.s.flows[w].posted[h.s.p.first + i].sub.op)
  {
    hide SysInv, Cut, Share, ShareSize, ShareOffset, InvM, Part, Finished;
    JobOf(h, n, w, i);
    ShareOp(h.s.p.ops[h.s.p.first + i], n, w);
  }

  // ----- broadcasts -----

  /** A packet of a broadcast carries its bytes as they are, if the host sends. */
  ghost predicate SendsBytes(h: Host, p: Place) {
    && Logged(h, p)
    && (!CallSends(h.s.p.call) ==> PacketAt(h, p).payload == [])
    && (CallSends(h.s.p.call) ==>
          && |PacketAt(h, p).payload| == PAYLOAD_SIZE
          && |h.s.flows| > 0 && IsPlace(h.s.p.call.size, |h.s.flows|, p)
          && forall b :: 0 <= b < h.s.p.call.size && Carries(h.s.p.call.size, |h.s.flows|, p, b) ==>
               var x := b - PacketStart(h.s.p.call.size, |h.s.flows|, p);
               x < PAYLOAD_SIZE && b < |h.s.input| && PacketAt(h, p).payload[x] == h.s.input[b])
  }

  lemma SentBytes(h: Host, n: nat, p: Place)
    requires Returned(h, n) && n > 0 && !Reducing(h.s.p.call.code) && IsPlace(h.s.p.call.size, n, p)
    ensures SendsBytes(h, p)
  {
    hide SysInv, Cut, Share, ShareSize, ShareOffset, PktCount, ChunkLen, FirstIdx, InvM, Part, Serials, Carries, InputChunk, Padded;
    SentChunk(h, n, p);
    var s, f, k := h.s, h.s.flows[p.worker], h.s.p.first + p.seg;
    if CallSends(s.p.call) {
      var bs, at := InputChunk(f.posted[k], p.packet), PacketStart(s.p.call.size, n, p);
      forall b | 0 <= b < s.p.call.size && Carries(s.p.call.size, n, p, b)
        ensures 0 <= b - at < PAYLOAD_SIZE && b < |s.input| && PacketAt(h, p).payload[b - at] == s.input[b]
      {
        CarriesForm(s.p.call.size, n, p, b);
        PaddedByte(bs, s.input, at, |bs|, b - at);
      }
    }
  }

  lemma PaddedByte(bs: seq<Byte>, input: seq<Byte>, at: nat, len: nat, x: nat)
    requires at + len <= |input| && len <= PAYLOAD_SIZE && bs == input[at..at + len] && x < len
    ensures Padded(bs)[x] == input[at + x]
  {
    assert Padded(bs)[..len][x] == bs[x];
  }

  lemma Digit(a: int, x: int, b: int, y: int)
    requires 0 <= x < 0x100 && 0 <= y < 0x100 && 0x100 * a + x == 0x100 * b + y
    ensures a == b && x == y
  {}

  lemma FourBytes(a: Byte, b: Byte, c: Byte, d: Byte, t: Byte, u: Byte, v: Byte, w: Byte)
    requires 0x100_0000 * a as nat + 0x1_0000 * b as nat + 0x100 * c as nat + d as nat
          == 0x100_0000 * t as nat + 0x1_0000 * u as nat + 0x100 * v as nat + w as nat
    ensures a == t && b == u && c == v && d == w
  {
    Digit(0x1_0000 * a as nat + 0x100 * b as nat + c as nat, d as nat, 0x1_0000 * t as nat + 0x100 * u as nat + v as nat, w as nat);
    Digit(0x100 * a as nat + b as nat, c as nat, 0x100 * t as nat + u as nat, v as nat);
    Digit(a as nat, b as nat, t as nat, u as nat);
  }

  /** Equal words have equal bytes. */
  lemma BytesOfWord(a: seq<Byte>, b: seq<Byte>, k: nat, i: nat)
    requires 4 * k + 4 <= |a| && 4 * k + 4 <= |b| && 4 * k <= i < 4 * k + 4
    requires Signed(WordBE(a, k)) == Signed(WordBE(b, k))
    ensures a[i] == b[i]
  {
    FourBytes(a[4 * k], a[4 * k + 1], a[4 * k + 2], a[4 * k + 3], b[4 * k], b[4 * k + 1], b[4 * k + 2], b[4 * k + 3]);
  }

  /** A sum with one addend. */
  lemma {:induction false} OneAddend(t: Q.Tree, xs: seq<int>, r: nat)
    requires Q.Once(t) && Q.Within(t, |xs|) && r < |xs| && -Q.INT32 <= xs[r] < Q.INT32
    requires forall k :: 0 <= k < |xs| && k != r ==> xs[k] == 0
    ensures Q.Evaluate(t, xs) == if r in Q.Ranks(t) then xs[r] else 0
    decreases t
  {
    match t
    case Leaf(_) =>
    case Add(a, b) =>
      OneAddend(a, xs, r);
      OneAddend(b, xs, r);
  }

  lemma BroadcastResult(ps: seq<Job>, k: nat, c: nat, R: Results, x: nat)
    requires k < |ps| && c < Count(ps, k) && !Reducing(ps[k].sub.op.code) && x < |ResultChunk(ps, k, c, R)|
    ensures x < PAYLOAD_SIZE && ResultChunk(ps, k, c, R)[x] == R(Gid(ps, k), Serial(ps, k, c))[x]
  {
    hide PktCount, Serials;
  }

  /** Byte b of a broadcast on host h, when r is the one that sends. */
  lemma ByteCopied(hs: seq<Host>, n: nat, h: nat, r: nat, b: nat)
    requires n > 0 && AllReturned(hs, n) && SwitchAnswers(hs) && h < |hs| && r < |hs|
    requires !Reducing(hs[h].s.p.call.code) && CallReceives(hs[h].s.p.call) && b < hs[h].s.p.call.size
    requires forall k :: 0 <= k < |hs| ==> (CallSends(hs[k].s.p.call) <==> k == r)
    ensures b < |hs[h].s.tensor| && b < |hs[r].s.input| && hs[h].s.tensor[b] == hs[r].s.input[b]
  {
    hide SysInv, Cut, Share, ShareSize, ShareOffset, PktCount, FirstIdx, Serials, SameCall, WordBE, Finished, CallReceives, Home, SwitchAnswers, PacketStart, InvM, Part, ResultChunk, CallSends, IsPlace, Carries;
    var s, p := hs[h].s, Home(hs[h].s.p.call.size, n, b);
    HomeIsPlace(s.p.call.size, n, b);
    CarriedOnce(s.p.call.size, n, p, b);
    CarriesForm(s.p.call.size, n, p, b);
    var x := b - PacketStart(s.p.call.size, n, p);
    GotPayload(hs[h], n, p, b, x);
    var order := AnswerIsSum(hs, n, h, p);
    LaneAddsUp(hs, h, p, order, x / 4);
    forall k | 0 <= k < |hs| ensures SendsBytes(hs[k], p) {
      SentBytes(hs[k], n, p) by { SameShape(hs[h], hs[k]); }
    }
    SameShape(hs[h], hs[r]);
    var ps, k := s.flows[p.worker].posted, s.p.first + p.seg;
    var got := hs[h].R[p.worker](Gid(ps, k), Serial(ps, k, p.packet));
    OnlyOne(hs, p, r, x / 4, Lanes(got)[x / 4]);
    BytesOfWord(got, PacketAt(hs[r], p).payload, x / 4, x);
  }

  lemma GotPayload(h: Host, n: nat, p: Place, b: nat, x: nat)
    requires Returned(h, n) && n > 0 && !Reducing(h.s.p.call.code) && CallReceives(h.s.p.call) && b < h.s.p.call.size
    requires Home(h.s.p.call.size, n, b) == p && IsPlace(h.s.p.call.size, n, p) && x == b - PacketStart(h.s.p.call.size, n, p)
    ensures p.worker < |h.R| && b < |h.s.tensor| && x < PAYLOAD_SIZE
    ensures h.s.p.first + p.seg < |h.s.flows[p.worker].posted|
    ensures var ps, k := h.s.flows[p.worker].posted, h.s.p.first + p.seg;
      h.s.tensor[b] == h.R[p.worker](Gid(ps, k), Serial(ps, k, p.packet))[x]
  {
    hide SysInv, Cut, Share, ShareSize, ShareOffset, PktCount, FirstIdx, Serials, Finished, CallReceives, Home, InvM, Part, ResultChunk, Carries, PacketStart;
    JobOf(h, n, p.worker, p.seg);
    ShareOp(h.s.p.ops[h.s.p.first + p.seg], n, p.worker);
    GotByte(h, n, p, b, h.s.p.first + p.seg);
    BroadcastResult(h.s.flows[p.worker].posted, h.s.p.first + p.seg, p.packet, h.R[p.worker], x);
  }

  lemma OnlyOne(hs: seq<Host>, p: Place, r: nat, y: nat, sum: int)
    requires r < |hs| && y < A.LANES && AllLogged(hs, p)
    requires forall k :: 0 <= k < |hs| ==> SendsBytes(hs[k], p)
    requires forall k :: 0 <= k < |hs| ==> (CallSends(hs[k].s.p.call) <==> k == r)
    requires AddsUpTo(sum, A.Lane(AllLanes(hs, p), y))
    ensures Logged(hs[r], p) && |PacketAt(hs[r], p).payload| == PAYLOAD_SIZE
    ensures sum == Signed(WordBE(PacketAt(hs[r], p).payload, y))
  {
    hide WordBE, CallSends, FirstIdx, Carries, PacketStart, IsPlace, Signed, Q.Evaluate, Q.Once, Q.Within, Q.Ranks;
    var xs := A.Lane(AllLanes(hs, p), y);
    var t :| EachOnce(t, |xs|) && sum == Q.Evaluate(t, xs);
    OneAddend(t, xs, r);
  }

  // ----- hosts that make the same calls -----

  /** What a host asks of a group. */
  datatype Asked = Asked(code: OpCode, root: nat, size: nat)

  function AskedBy(call: P.Call): Asked {
    Asked(call.code, call.root, call.size)
  }

  /** The calls to group g, in order. */
  function CallsTo(es: seq<SysEvent>, g: nat): seq<Asked> {
    if es == [] then []
    else
      var e := es[|es| - 1];
      CallsTo(es[..|es| - 1], g) + if e.Calls? && e.call.group.id == g then [AskedBy(e.call)] else []
  }

  /** Sizes of the operations that a list of calls is cut into. */
  function Operations(calls: seq<Asked>): seq<nat> {
    if calls == [] then [] else Operations(calls[..|calls| - 1]) + Lengths(Cut(calls[|calls| - 1].size, 0))
  }

  /** The group's operations are those of its calls, some perhaps still to come. */
  predicate Recorded(p: P.Pipe, es: seq<SysEvent>, g: nat) {
    && OpSizes(p.ops, |p.ops|, g) + (if p.call.group.id == g then Lengths(p.todo) else []) == Operations(CallsTo(es, g))
    && ((p.first < |p.ops| || p.todo != []) && p.call.group.id == g ==>
          CallsTo(es, g) != [] && CallsTo(es, g)[|CallsTo(es, g)| - 1] == AskedBy(p.call))
  }

  lemma {:induction false} OpSizesAppend(ops: seq<Op>, x: Op, k: nat, g: nat)
    requires k <= |ops|
    ensures OpSizes(ops + [x], k, g) == OpSizes(ops, k, g)
  {
    if k > 0 { OpSizesAppend(ops, x, k - 1, g); }
  }

  lemma CallsToAppend(es: seq<SysEvent>, e: SysEvent, g: nat)
    ensures CallsTo(es + [e], g) == CallsTo(es, g) + if e.Calls? && e.call.group.id == g then [AskedBy(e.call)] else []
  {
    assert (es + [e])[..|es|] == es;
  }

  lemma BeginRecorded(p: P.Pipe, es: seq<SysEvent>, call: P.Call, tensor: seq<Byte>, g: nat)
    requires Recorded(p, es, g) && p.todo == []
    ensures Recorded(p.(call := call, first := |p.ops|, todo := Cut(call.size, 0)), es + [Calls(call, tensor)], g)
  {
    hide Cut, OpSizes;
    CallsToAppend(es, Calls(call, tensor), g);
    var calls, now, z := CallsTo(es, g), CallsTo(es + [Calls(call, tensor)], g), OpSizes(p.ops, |p.ops|, g);
    hide CallsTo;
    assert Lengths(p.todo) == [] && z + [] == z;
    assert Operations(calls) == z;
    if call.group.id == g {
      assert now[..|now| - 1] == calls && now[|now| - 1] == AskedBy(call);
    } else {
      assert now == calls;
    }
  }

  lemma NewOpOf(p: P.Pipe)
    requires p.todo != []
    ensures P.NewOp(p).size == p.todo[0].size && P.NewOp(p).group == p.call.group
    ensures var t := P.Created(p); t.ops == p.ops + [P.NewOp(p)] && t.todo == p.todo[1..] && t.call == p.call && t.first == p.first
  {}

  lemma CreateRecorded(p: P.Pipe, es: seq<SysEvent>, g: nat)
    requires Recorded(p, es, g) && p.todo != []
    ensures Recorded(P.Created(p), es, g)
  {
    hide CallsTo, Operations, P.Created, P.NewOp;
    NewOpOf(p);
    var op, t := P.NewOp(p), P.Created(p);
    OpSizesAppend(p.ops, op, |p.ops|, g);
    var before, now := OpSizes(p.ops, |p.ops|, g), OpSizes(t.ops, |t.ops|, g);
    assert now == before + if op.group.id == g then [op.size] else [];
    hide OpSizes;
    assert Lengths(p.todo) == [op.size] + Lengths(t.todo);
    Regroup(before, [op.size], Lengths(t.todo));
  }

  lemma Regroup(a: seq<nat>, b: seq<nat>, c: seq<nat>)
    ensures a + (b + c) == a + b + c && a + [] == a
  {}

  /** What no other step changes. */
  lemma SameRecord(p: P.Pipe, e: P.Event)
    requires P.Enabled(p, e) && P.Asserts(p, e) && !e.Begin? && !e.Create?
    ensures var q := P.Step(p, e); q.ops == p.ops && q.todo == p.todo && q.call == p.call && q.first == p.first
  {}

  lemma StepRecorded(p: P.Pipe, pe: P.Event, q: P.Pipe, es: seq<SysEvent>, e: SysEvent, g: nat)
    requires Recorded(p, es, g) && P.Inv(p) && P.Next(p, pe, q) && !pe.Begin? && !e.Calls?
    ensures Recorded(q, es + [e], g)
  {
    hide P.Inv, P.Enabled, P.Asserts, P.Step, P.Created, CallsTo, Operations, OpSizes;
    P.AssertsHold(p, pe);
    CallsToAppend(es, e, g);
    assert CallsTo(es, g) + [] == CallsTo(es, g);
    if pe.Create? {
      CreateStep(p);
      CreateRecorded(p, es, g);
    } else {
      SameRecord(p, pe);
    }
  }

  lemma NoNewCall(p: P.Pipe, es: seq<SysEvent>, e: SysEvent, g: nat)
    requires Recorded(p, es, g) && !e.Calls?
    ensures Recorded(p, es + [e], g)
  {
    hide CallsTo, Operations, OpSizes;
    CallsToAppend(es, e, g);
    assert CallsTo(es, g) + [] == CallsTo(es, g);
  }

  lemma CreateStep(p: P.Pipe)
    requires P.Enabled(p, P.Create) && P.Asserts(p, P.Create)
    ensures p.todo != [] && P.Step(p, P.Create) == P.Created(p)
  {}

  lemma BeginStep(p: P.Pipe, call: P.Call, q: P.Pipe)
    requires P.Next(p, P.Begin(call), q)
    ensures p.todo == [] && q == p.(call := call, first := |p.ops|, todo := Cut(call.size, 0))
  {}

  /** Over every run, a group's operations are the segments of its calls. */
  lemma {:induction false} AlwaysRecorded(n: nat, ss: seq<Sys>, es: seq<SysEvent>, R: seq<Results>, i: nat, g: nat)
    requires SysRun(n, ss, es, R) && i <= |es|
    ensures Recorded(ss[i].p, es[..i], g)
  {
    hide SysInv, P.Next, P.Inv, Recorded, InBounds, ThreadStep, CallOk, Seeing;
    if i == 0 {
      StartRecorded(n, ss, es, R, g);
    } else {
      AlwaysRecorded(n, ss, es, R, i - 1, g);
      AlwaysSysInv(n, ss, es, R, i - 1);
      SysPipe(ss[i - 1], R);
      assert SysNext(ss[i - 1], es[i - 1], ss[i], R);
      assert es[..i] == es[..i - 1] + [es[i - 1]];
      match es[i - 1]
      case Copies(out, bytes) =>
        CopiesOnly(ss[i - 1], out, bytes, ss[i], R);
        NoNewCall(ss[i - 1].p, es[..i - 1], es[i - 1], g);
      case Calls(call, tensor) =>
        BeginStep(ss[i - 1].p, call, ss[i].p);
        BeginRecorded(ss[i - 1].p, es[..i - 1], call, tensor, g);
      case Thread(pe) => StepRecorded(ss[i - 1].p, pe, ss[i].p, es[..i - 1], es[i - 1], g);
      case Works(w, fe, takes, answers) =>
        StepRecorded(ss[i - 1].p, P.Serves(w, takes, answers), ss[i].p, es[..i - 1], es[i - 1], g);
    }
  }

  lemma StartRecorded(n: nat, ss: seq<Sys>, es: seq<SysEvent>, R: seq<Results>, g: nat)
    requires SysRun(n, ss, es, R)
    ensures Recorded(ss[0].p, es[..0], g)
  {
    hide SysNext;
  }

  // ----- the main results -----

  /** A run of one host; R is what its network answered. */
  datatype Trace = Trace(ss: seq<Sys>, es: seq<SysEvent>, R: seq<Results>)

  /** A run of a host with n workers, at the return of a call to group g. */
  ghost predicate Returns(t: Trace, n: nat, g: nat) {
    SysRun(n, t.ss, t.es, t.R) && Finished(t.ss[|t.es|]) && t.ss[|t.es|].p.call.group.id == g
  }

  /** Any number of hosts, each at its own time and with calls to other groups in between, whose members
      may be others, have returned from the same calls to group g. */
  ghost predicate SameCalls(ts: seq<Trace>, n: nat, g: nat) {
    && (forall k :: 0 <= k < |ts| ==> Returns(ts[k], n, g))
    && (forall k, m :: 0 <= k < |ts| && 0 <= m < |ts| ==> CallsTo(ts[k].es, g) == CallsTo(ts[m].es, g))
  }

  ghost function Hosts(ts: seq<Trace>, n: nat, g: nat): (hs: seq<Host>)
    requires SameCalls(ts, n, g)
    ensures |hs| == |ts| && forall k :: 0 <= k < |ts| ==> Returns(ts[k], n, g) && hs[k] == Host(ts[k].ss[|ts[k].es|], ts[k].R)
  {
    assert forall k :: 0 <= k < |ts| ==> Returns(ts[k], n, g);
    seq(|ts|, k requires 0 <= k < |ts| && Returns(ts[k], n, g) => Host(ts[k].ss[|ts[k].es|], ts[k].R))
  }

  lemma TraceReturned(t: Trace, n: nat, g: nat)
    requires Returns(t, n, g)
    ensures n > 0 && Returned(Host(t.ss[|t.es|], t.R), n)
    ensures var p := t.ss[|t.es|].p;
      OpSizes(p.ops, |p.ops|, g) == Operations(CallsTo(t.es, g)) && CallsTo(t.es, g) != [] && CallsTo(t.es, g)[|CallsTo(t.es, g)| - 1] == AskedBy(p.call)
  {
    hide SysInv, SysNext, OpSizes, Operations, CallsTo;
    AlwaysSysInv(n, t.ss, t.es, t.R, |t.es|);
    WorkerCount(n, t.ss, t.es, t.R, |t.es|);
    AlwaysRecorded(n, t.ss, t.es, t.R, |t.es|, g);
    assert t.es[..|t.es|] == t.es;
  }

  lemma HostsReturned(ts: seq<Trace>, n: nat, g: nat)
    requires SameCalls(ts, n, g)
    ensures AllReturned(Hosts(ts, n, g), n) && (ts != [] ==> n > 0)
  {
    hide Returned, SysInv, SysRun, OpSizes, Operations, CallsTo;
    var hs := Hosts(ts, n, g);
    forall k | 0 <= k < |hs| ensures Returned(hs[k], n) { TraceReturned(ts[k], n, g); }
    if ts != [] { TraceReturned(ts[0], n, g); }
    forall k, m | 0 <= k < |hs| && 0 <= m < |hs| ensures SameCall(hs[k], hs[m]) {
      TraceReturned(ts[k], n, g);
      TraceReturned(ts[m], n, g);
    }
  }

  /** When hosts have returned from an all-reduce, every word of every tensor is the sum of what the
      hosts called with at that word: whatever the network lost, repeated or reordered, and however the
      threads of each host took turns. The sum is exact when no sum of some of them leaves 32 bits, and
      else saturates on the way. */
  lemma AllReduceSums(ts: seq<Trace>, n: nat, g: nat, h: nat, j: nat)
    requires SameCalls(ts, n, g) && SwitchAnswers(Hosts(ts, n, g)) && h < |ts|
    requires Hosts(ts, n, g)[h].s.p.call.code == AllReduce && 4 * j + 4 <= Hosts(ts, n, g)[h].s.p.call.size
    ensures var hs := Hosts(ts, n, g);
      && 4 * j + 4 <= |hs[h].s.tensor| && (forall k :: 0 <= k < |hs| ==> 4 * j + 4 <= |hs[k].s.input|)
      && SummedUp(WordOf(hs[h], j), InputWords(hs, j))
  {
    hide Returned, SysRun, SwitchAnswers, WordLE, Signed, AddsUpTo, CallsTo, SummedUp;
    var hs := Hosts(ts, n, g);
    HostsReturned(ts, n, g);
    hide SameCalls;
    WordSummed(hs, n, h, j);
    forall k | 0 <= k < |hs| ensures 4 * j + 4 <= |hs[k].s.input| && CallSends(hs[k].s.p.call) {
      assert SameCall(hs[h], hs[k]);
      SameShape(hs[h], hs[k]);
      InputSize(hs[k], n);
    }
    assert InputWords(hs, j) == Offers(hs, j);
    ExactIfFits(WordOf(hs[h], j), InputWords(hs, j));
  }

  /** x is the switch's sum of the xs, exact if they fit. */
  ghost predicate SummedUp(x: int, xs: seq<int>) {
    AddsUpTo(x, xs) && (Q.Fits(xs) ==> x as real == Q.Sum(Q.Reals(xs)))
  }

  lemma ExactIfFits(x: int, xs: seq<int>)
    requires AddsUpTo(x, xs)
    ensures SummedUp(x, xs)
  {
    hide Q.Fits, Q.SumOver, Q.Evaluate;
    var t :| EachOnce(t, |xs|) && x == Q.Evaluate(t, xs);
    if Q.Fits(xs) { Q.TreeIsExact(t, xs); }
  }

  /** Word j of the tensor, as a signed integer. */
  function WordOf(h: Host, j: nat): int {
    if 4 * j + 4 <= |h.s.tensor| then Signed(WordLE(h.s.tensor, j)) else 0
  }

  lemma InputSize(h: Host, n: nat)
    requires Returned(h, n)
    ensures |h.s.tensor| == |h.s.input| == h.s.p.call.size
  {
    hide SysInv, Finished;
    TensorSize(h.s, h.R);
  }

  /** Word j of every host's tensor when it called. */
  function InputWords(hs: seq<Host>, j: nat): (r: seq<int>)
    ensures |r| == |hs| && forall k :: 0 <= k < |hs| && 4 * j + 4 <= |hs[k].s.input| ==> r[k] == Signed(WordLE(hs[k].s.input, j))
  {
    seq(|hs|, k requires 0 <= k < |hs| => if 4 * j + 4 <= |hs[k].s.input| then Signed(WordLE(hs[k].s.input, j)) else 0)
  }

  /** After a reduction, the root has the sum of what the others called with. */
  lemma ReduceSums(ts: seq<Trace>, n: nat, g: nat, root: nat, j: nat)
    requires SameCalls(ts, n, g) && SwitchAnswers(Hosts(ts, n, g)) && root < |ts|
    requires var call := Hosts(ts, n, g)[root].s.p.call; call.code == Reduce && call.root == root && 4 * j + 4 <= call.size
    ensures var hs := Hosts(ts, n, g);
      && 4 * j + 4 <= |hs[root].s.tensor| && (forall k :: 0 <= k < |hs| ==> 4 * j + 4 <= |hs[k].s.input|)
      && SummedUp(WordOf(hs[root], j), InputWords(hs, j)[root := 0])
  {
    hide Returned, SysRun, WordLE, Signed, AddsUpTo, CallsTo, SummedUp, FromSwitch, AllNumbered, OfCall;
    var hs := Hosts(ts, n, g);
    HostsReturned(ts, n, g);
    hide SameCalls;
    WordSummed(hs, n, root, j);
    forall k | 0 <= k < |hs| ensures 4 * j + 4 <= |hs[k].s.input| && (CallSends(hs[k].s.p.call) <==> k != root) {
      assert SameCall(hs[root], hs[k]);
      SameShape(hs[root], hs[k]);
      InputSize(hs[k], n);
    }
    assert InputWords(hs, j)[root := 0] == Offers(hs, j);
    ExactIfFits(WordOf(hs[root], j), Offers(hs, j));
  }

  /** After a broadcast, every tensor is the root's. */
  lemma BroadcastCopies(ts: seq<Trace>, n: nat, g: nat, root: nat, h: nat)
    requires SameCalls(ts, n, g) && SwitchAnswers(Hosts(ts, n, g)) && root < |ts| && h < |ts| && h != root
    requires var call := Hosts(ts, n, g)[h].s.p.call; call.code == Broadcast && call.root == root
    ensures var hs := Hosts(ts, n, g); hs[h].s.tensor == hs[root].s.input
  {
    hide Returned, SysRun, CallsTo, FromSwitch, AllNumbered, OfCall;
    var hs := Hosts(ts, n, g);
    HostsReturned(ts, n, g);
    hide SameCalls;
    forall k | 0 <= k < |hs| ensures |hs[k].s.input| == |hs[k].s.tensor| == hs[h].s.p.call.size && (CallSends(hs[k].s.p.call) <==> k == root) {
      assert SameCall(hs[h], hs[k]);
      SameShape(hs[h], hs[k]);
      InputSize(hs[k], n);
    }
    forall b | 0 <= b < hs[h].s.p.call.size ensures hs[h].s.tensor[b] == hs[root].s.input[b] {
      ByteCopied(hs, n, h, root, b);
    }
  }

  // ----- floating-point tensors -----

  /** Word j of what host k called with is its value xs[k], scaled and truncated. */
  predicate Quantised(hs: seq<Host>, j: nat, xs: seq<real>, f: real) {
    |xs| == |hs| && forall k :: 0 <= k < |hs| ==>
      4 * j + 4 <= |hs[k].s.input| && Signed(WordLE(hs[k].s.input, j)) == Q.Scaled(xs[k], f)
  }

  /** Sums over those in s, the others being zero. */
  lemma {:induction false} SumOfSome(qs: seq<int>, zs: seq<int>, s: set<nat>, u: set<nat>, k: nat)
    requires k <= |qs| == |zs| && forall i :: 0 <= i < |qs| ==> zs[i] == if i in s then qs[i] else 0
    ensures Q.SumOver(Q.Reals(zs), u, k) == Q.SumOver(Q.Reals(qs), u * s, k)
  {
    if k > 0 { SumOfSome(qs, zs, s, u, k - 1); }
  }

  /** The quantised values of those in s add up to their exact sum. */
  lemma SumOfQuantised(x: int, zs: seq<int>, xs: seq<real>, ms: seq<real>, f: real, s: set<nat>)
    requires |zs| == |xs| && s <= Q.AllRanks(|xs|) && Q.Announced(xs, ms) && Q.IsFactor(f, ms) && SummedUp(x, zs)
    requires forall k :: 0 <= k < |zs| ==> zs[k] == if k in s then Q.Scaled(xs[k], f) else 0
    ensures x as real == Q.SumOver(Q.Reals(Q.Quantised32(xs, f)), s, |xs|)
  {
    hide AddsUpTo, Q.Scaled, Q.SumOver, Q.Announced, Q.IsFactor;
    var qs := Q.Quantised32(xs, f);
    Q.QuantisedFits(xs, ms, f);
    forall u: set<nat> ensures -Q.INT32 as real <= Q.SumOver(Q.Reals(zs), u, |zs|) < Q.INT32 as real {
      SumOfSome(qs, zs, s, u, |qs|);
    }
    SumOfSome(qs, zs, s, Q.AllRanks(|qs|), |qs|);
    assert Q.AllRanks(|qs|) * s == s;
  }

  /** Scaled back, x is within `lost` divided by the factor of the true sum. */
  predicate Near(x: real, xs: seq<real>, f: real, lost: int) {
    f > 0.0 && Q.Abs(x / f - Q.Sum(xs)) < lost as real / f
  }

  lemma FactorPositive(ms: seq<real>, f: real)
    requires Q.IsFactor(f, ms)
    ensures f > 0.0
  {
    hide Q.SumOver;
    Q.FactorTimes(Q.Sum(ms));
  }

  lemma SumNear(x: real, xs: seq<real>, ms: seq<real>, f: real)
    requires Q.Announced(xs, ms) && Q.IsFactor(f, ms) && |xs| > 0
    requires x == Q.SumOver(Q.Reals(Q.Quantised32(xs, f)), Q.AllRanks(|xs|), |xs|)
    ensures Near(x, xs, f, |xs|)
  {
    hide Q.SumOver, Q.Scaled, Q.IsFactor, Q.Announced, Q.Abs;
    FactorPositive(ms, f);
    Q.SumAccurate(xs, ms, f);
  }

  lemma SumOfOthersNear(x: real, root: nat, xs: seq<real>, ms: seq<real>, f: real)
    requires Q.Announced(xs, ms) && Q.IsFactor(f, ms) && root < |xs| && |xs| > 1
    requires x == Q.SumOver(Q.Reals(Q.Quantised32(xs, f)), Q.AllRanks(|xs|) - {root}, |xs|)
    ensures Near(x + Q.Times(xs[root], f), xs, f, |xs| - 1)
  {
    hide Q.SumOver, Q.Scaled, Q.IsFactor, Q.Announced, Q.Abs, Q.Times;
    FactorPositive(ms, f);
    Q.SumOfOthersAccurate(root, xs, ms, f);
  }

  /** The whole way of an all-reduce of floating-point numbers. Every host calls with its value at
      position j scaled by the agreed factor and truncated; the word that it finds there afterwards,
      scaled back, is within the number of hosts divided by the factor of the true sum. */
  lemma AllReduceOfReals(ts: seq<Trace>, n: nat, g: nat, h: nat, j: nat, xs: seq<real>, ms: seq<real>, f: real)
    requires SameCalls(ts, n, g) && SwitchAnswers(Hosts(ts, n, g)) && h < |ts|
    requires Hosts(ts, n, g)[h].s.p.call.code == AllReduce && 4 * j + 4 <= Hosts(ts, n, g)[h].s.p.call.size
    requires Quantised(Hosts(ts, n, g), j, xs, f) && Q.Announced(xs, ms) && Q.IsFactor(f, ms)
    ensures Near(WordOf(Hosts(ts, n, g)[h], j) as real, xs, f, |xs|)
  {
    hide SameCalls, SwitchAnswers, WordLE, Signed, Q.Announced, Q.IsFactor, WordOf, Near, Q.SumOver, SummedUp;
    var hs := Hosts(ts, n, g);
    AllReduceSums(ts, n, g, h, j);
    hide Hosts;
    SumOfQuantised(WordOf(hs[h], j), InputWords(hs, j), xs, ms, f, Q.AllRanks(|hs|));
    SumNear(WordOf(hs[h], j) as real, xs, ms, f);
  }

  lemma RootNear(hs: seq<Host>, root: nat, j: nat, xs: seq<real>, ms: seq<real>, f: real)
    requires root < |hs| && |hs| > 1 && Quantised(hs, j, xs, f) && Q.Announced(xs, ms) && Q.IsFactor(f, ms)
    requires SummedUp(WordOf(hs[root], j), InputWords(hs, j)[root := 0])
    ensures |xs| == |hs| && Near(WordOf(hs[root], j) as real + Q.Times(xs[root], f), xs, f, |xs| - 1)
  {
    hide WordLE, Signed, Q.Announced, Q.IsFactor, WordOf, Near, Q.SumOver, SummedUp, Q.Times;
    SumOfQuantised(WordOf(hs[root], j), InputWords(hs, j)[root := 0], xs, ms, f, Q.AllRanks(|hs|) - {root});
    SumOfOthersNear(WordOf(hs[root], j) as real, root, xs, ms, f);
  }

  /** And of a reduction, whose root adds its own scaled value to the word that it finds. */
  lemma ReduceOfReals(ts: seq<Trace>, n: nat, g: nat, root: nat, j: nat, xs: seq<real>, ms: seq<real>, f: real)
    requires SameCalls(ts, n, g) && SwitchAnswers(Hosts(ts, n, g)) && root < |ts| && |ts| > 1
    requires var call := Hosts(ts, n, g)[root].s.p.call; call.code == Reduce && call.root == root && 4 * j + 4 <= call.size
    requires Quantised(Hosts(ts, n, g), j, xs, f) && Q.Announced(xs, ms) && Q.IsFactor(f, ms)
    ensures |xs| == |ts| && Near(WordOf(Hosts(ts, n, g)[root], j) as real + Q.Times(xs[root], f), xs, f, |xs| - 1)
  {
    hide SameCalls, SwitchAnswers, WordLE, Signed, Q.Announced, Q.IsFactor, WordOf, Near, Q.SumOver, SummedUp, Q.Times, Quantised;
    ReduceSums(ts, n, g, root, j);
    hide Hosts;
    RootNear(Hosts(ts, n, g), root, j, xs, ms, f);
  }
}
