/** That what `Collectives` assumes of hosts and switch can be had: for any number of hosts and workers,
    any collective and any tensors there are runs of the hosts, and answers, that meet all of it. */
module Realised {
  import opened NetCommon
  import opened Encoding
  import opened Partition
  import opened Transport
  import opened TransportMemory
  import opened EndToEnd
  import opened Collectives
  import A = Aggregators
  import L = Liveness
  import TR = TransportRuns
  import TS = TransportShape
  import P = Pipeline
  import F = Fairness
  import SM = SharedMemory
  import Q = Quantise
  import opened Modular

  // ----- a host makes one call -----

  function Beginning(n: nat, mem: seq<Byte>, call: P.Call, tensor: seq<Byte>): Sys {
    var s := EndToEnd.Start(n, mem);
    s.(p := s.p.(call := call, first := 0, todo := Cut(call.size, 0)), input := tensor, tensor := tensor)
  }

  predicate CanCall(call: P.Call, n: nat, tensor: seq<Byte>) {
    n > 0 && P.GoodCall(call) && P.Suits(0, Cut(call.size, 0)) && 2 * n <= call.group.aggLen && |tensor| == call.size
  }

  lemma Begins(n: nat, mem: seq<Byte>, call: P.Call, tensor: seq<Byte>, R: seq<Results>)
    requires CanCall(call, n, tensor) && |mem| == P.CB.CAPACITY + 1 && |R| == n
    ensures SysNext(EndToEnd.Start(n, mem), Calls(call, tensor), Beginning(n, mem, call, tensor), R)
    ensures var t := Beginning(n, mem, call, tensor);
      SysInv(t, R) && L.WideSys(t) && L.Called(t.p) && t.p.call == call && t.input == tensor && |t.p.work| == |t.p.hand|
  {
    hide SysInv, Cut;
    CutCount(call.size, 0);
    var s, e, t := EndToEnd.Start(n, mem), Calls(call, tensor), Beginning(n, mem, call, tensor);
    assert SysNext(s, e, t, R);
    StartKeeps(n, mem, R);
    SysKeeps(s, e, t, R);
    L.StartWide(n, mem);
    L.StepWide(s, e, t, R);
  }

  lemma SameInput(s: Sys, e: SysEvent, t: Sys, R: seq<Results>)
    requires SysInv(s, R) && SysNext(s, e, t, R) && !e.Calls?
    ensures t.input == s.input
  {
    hide SysInv, P.Inv, P.Asserts, P.Enabled, InBounds, TR.Next;
    if e.Copies? { CopiesOnly(s, e.out, e.bytes, t, R); }
    if e.Thread? {
      var pe := e.e;
      hide P.Next;
      assert P.Enabled(s.p, pe) by { OfNext(s.p, pe, t.p); }
      AlwaysInBounds(s, pe, R);
    }
  }

  lemma OfNext(p: P.Pipe, e: P.Event, q: P.Pipe)
    requires P.Next(p, e, q)
    ensures P.Enabled(p, e)
  {}

  lemma {:induction false} ContinuesInput(s: Sys, ss: seq<Sys>, es: seq<SysEvent>, R: seq<Results>, i: nat)
    requires L.Continues(s, ss, es, R) && SysInv(s, R) && i <= |es|
    ensures SysInv(ss[i], R) && ss[i].input == s.input
  {
    hide SysInv, SysNext;
    if i > 0 {
      ContinuesInput(s, ss, es, R, i - 1);
      SameInput(ss[i - 1], es[i - 1], ss[i], R);
      SysKeeps(ss[i - 1], es[i - 1], ss[i], R);
    }
  }

  lemma {:induction false} NoCalls(e: SysEvent, es: seq<SysEvent>, g: nat)
    requires forall i :: 0 <= i < |es| ==> !es[i].Calls?
    ensures CallsTo([e] + es, g) == CallsTo([e], g)
  {
    if es != [] {
      var k := |es| - 1;
      NoCalls(e, es[..k], g);
      assert [e] + es == [e] + es[..k] + [es[k]];
      CallsToAppend([e] + es[..k], es[k], g);
    } else {
      assert [e] + es == [e];
    }
  }

  /** Whatever the network answers, there is a run on which the host makes the call and returns. */
  lemma OneCall(n: nat, call: P.Call, tensor: seq<Byte>, R: seq<Results>) returns (t: Trace)
    requires CanCall(call, n, tensor) && |R| == n
    ensures Returns(t, n, call.group.id) && t.R == R && CallsTo(t.es, call.group.id) == [AskedBy(call)]
    ensures t.ss[|t.es|].p.call == call && t.ss[|t.es|].input == tensor
    ensures |t.es| > 0 && L.Called(t.ss[1].p) && t.ss[1].p.call == call
    ensures t.es[0] == Calls(call, tensor) && forall i :: 1 <= i < |t.es| ==> !t.es[i].Calls?
  {
    hide SysInv, SysNext, L.WideSys, L.Called, Finished, EndToEnd.Start, Beginning, P.GoodCall;
    var mem: seq<Byte> := Zeros(P.CB.CAPACITY + 1);
    Begins(n, mem, call, tensor, R);
    var s, e, b := EndToEnd.Start(n, mem), Calls(call, tensor), Beginning(n, mem, call, tensor);
    var ts, fs := L.CanFinish(b, R);
    ContinuesInput(b, ts, fs, R, |fs|);
    t := Trace([s] + ts, [e] + fs, R);
    forall i | 0 <= i < |t.es| ensures SysNext(t.ss[i], t.es[i], t.ss[i + 1], R) {
      if i > 0 { assert t.ss[i] == ts[i - 1] && t.ss[i + 1] == ts[i] && t.es[i] == fs[i - 1]; }
    }
    assert t.ss[0] == s && SysRun(n, t.ss, t.es, R);
    NoCalls(e, fs, call.group.id);
    OneCallTo(call, tensor);
  }

  lemma OneCallTo(call: P.Call, tensor: seq<Byte>)
    ensures CallsTo([Calls(call, tensor)], call.group.id) == [AskedBy(call)]
  {
    var none: seq<SysEvent> := [];
    CallsToAppend(none, Calls(call, tensor), call.group.id);
    assert none + [Calls(call, tensor)] == [Calls(call, tensor)];
  }

  // ----- what its packets contain -----

  /** The payload for a place, as the call alone determines it. */
  function PlacePayload(call: P.Call, input: seq<Byte>, n: nat, p: Place): seq<Byte>
    requires n > 0
  {
    if !CallSends(call) || !IsPlace(call.size, n, p) then []
    else
      var at := PacketStart(call.size, n, p);
      var len := ChunkLen(ShareSize(Cut(call.size, 0)[p.seg].size, n, p.worker), p.packet);
      if at + len > |input| || (Reducing(call.code) && len % 4 != 0) then [] else Padded(Wire(call.code, input[at..at + len]))
  }

  lemma PayloadOf(h: Host, n: nat, p: Place)
    requires Collectives.Returned(h, n) && n > 0 && IsPlace(h.s.p.call.size, n, p)
    ensures Logged(h, p) && PacketAt(h, p).payload == PlacePayload(h.s.p.call, h.s.input, n, p)
  {
    hide SysInv, Cut, Share, ShareSize, ShareOffset, PktCount, ChunkLen, FirstIdx, InvM, Part, Serials, InputChunk;
    SentChunk(h, n, p);
  }

  /** No two packets of a group have one serial number. */
  lemma SerialInjective(ps: seq<Job>, j: nat, c: nat, k: nat, d: nat)
    requires j < |ps| && k < |ps| && c < Count(ps, j) && d < Count(ps, k)
    requires Gid(ps, j) == Gid(ps, k) && Serial(ps, j, c) == Serial(ps, k, d)
    ensures j == k && c == d
  {
    if j < k { SerialsMono(ps, j + 1, k, Gid(ps, j)); }
    if k < j { SerialsMono(ps, k + 1, j, Gid(ps, j)); }
  }

  lemma {:induction false} SerialsMono(ps: seq<Job>, a: nat, b: nat, g: nat)
    requires a <= b <= |ps|
    ensures Serials(ps, a, g) <= Serials(ps, b, g)
    decreases b
  {
    if a < b { SerialsMono(ps, a, b - 1, g); }
  }

  /** A log entry of the call is the packet of some place. */
  lemma PlaceOf(h: Host, n: nat, w: nat, i: nat) returns (p: Place)
    requires Collectives.Returned(h, n) && w < n && i < |h.s.flows[w].log| && h.s.p.first <= h.s.flows[w].log[i].job
    ensures IsPlace(h.s.p.call.size, n, p) && p.worker == w
    ensures Logged(h, p) && PacketAt(h, p) == h.s.flows[w].log[i].pkt
    ensures var f := h.s.flows[w];
      && f.log[i].job == h.s.p.first + p.seg && f.log[i].chunk == p.packet
      && i == FirstIdx(f.posted, f.log[i].job) + p.packet && RecOk(f.posted, f.log[i])
  {
    hide SysInv, Cut, Share, ShareSize, ShareOffset, PktCount, FirstIdx, InvM, Part, Finished;
    var s, f := h.s, h.s.flows[w];
    CutCount(s.p.call.size, 0);
    JobOf(h, n, w, 0);
    EntryHere(f, h.R[w], i);
    p := Place(f.log[i].job - s.p.first, w, f.log[i].chunk);
    JobOf(h, n, w, p.seg);
    ShareSizeOf(s.p.ops[f.log[i].job], n, w);
  }

  lemma EntryHere(f: Flow, R: Results, i: nat)
    requires InvM(f, R) && i < |f.log|
    ensures RecOk(f.posted, f.log[i]) && i == FirstIdx(f.posted, f.log[i].job) + f.log[i].chunk
  {
    hide MemoryRight, JobsOk, PacketsRight, TS.Shape, TS.OneGroup, TS.GroupNow;
    LogPlace(f, i);
  }

  /** Two runs of a host with the same call put the same payload under the same number. */
  lemma SamePayload(a: Host, b: Host, n: nat, w: nat, g: nat, u: nat, i: nat, k: nat)
    requires Collectives.Returned(a, n) && Collectives.Returned(b, n) && SameCall(a, b) && a.s.p.call == b.s.p.call && a.s.input == b.s.input
    requires w < n && Numbered(a, w, g, u, i) && Numbered(b, w, g, u, k)
    requires a.s.p.first <= a.s.flows[w].log[i].job && b.s.p.first <= b.s.flows[w].log[k].job
    ensures a.s.flows[w].log[i].pkt.payload == b.s.flows[w].log[k].pkt.payload
  {
    hide SysInv, Cut, Share, ShareSize, ShareOffset, PktCount, FirstIdx, InvM, Part, Finished, Serials, OpSizes, IsPlace, PlacePayload, Sane;
    var p := PlaceOf(a, n, w, i);
    var q := PlaceOf(b, n, w, k);
    PlaceSeg(a.s.p.call.size, n, p);
    SameSerial(a, b, n, w, p.seg, p.packet);
    var qs := b.s.flows[w].posted;
    SerialInjective(qs, b.s.p.first + p.seg, p.packet, b.s.flows[w].log[k].job, q.packet);
    assert p == q;
    PayloadOf(a, n, p);
    PayloadOf(b, n, p);
  }

  lemma PlaceSeg(size: nat, n: nat, p: Place)
    requires n > 0 && IsPlace(size, n, p)
    ensures p.seg < |Cut(size, 0)|
  {}

  /** The other run has a packet with that number too. */
  lemma SameEntry(a: Host, b: Host, n: nat, w: nat, g: nat, u: nat, i: nat) returns (k: nat)
    requires Collectives.Returned(a, n) && Collectives.Returned(b, n) && SameCall(a, b)
    requires w < n && Numbered(a, w, g, u, i) && a.s.p.first <= a.s.flows[w].log[i].job
    ensures Numbered(b, w, g, u, k) && b.s.p.first <= b.s.flows[w].log[k].job
  {
    hide SysInv, Cut, Share, ShareSize, ShareOffset, PktCount, FirstIdx, InvM, Part, Finished, Serials, OpSizes, IsPlace, Sane;
    var p := PlaceOf(a, n, w, i);
    EntryNumbered(a, b, n, p);
    k := FirstIdx(b.s.flows[w].posted, b.s.p.first + p.seg) + p.packet;
  }

  // ----- what the switch answers -----

  function Unsigned(x: int): int {
    if x < 0 then x + TWO32 else x
  }

  predicate IsWord(u: int) {
    0 <= u < TWO32
  }

  /** Byte i, counted from the most significant, of a word. */
  function Digit(u: int, i: nat): (b: Byte)
    requires IsWord(u) && i < 4
  {
    (if i == 0 then u / 0x100_0000 else if i == 1 then u / 0x1_0000 % 0x100 else if i == 2 then u / 0x100 % 0x100 else u % 0x100) as Byte
  }

  lemma Digits(u: int)
    requires IsWord(u)
    ensures 0x100_0000 * Digit(u, 0) as int + 0x1_0000 * Digit(u, 1) as int + 0x100 * Digit(u, 2) as int + Digit(u, 3) as int == u
  {
    var a, b, c := u / 0x100_0000, u / 0x1_0000, u / 0x100;
    assert b / 0x100 == a && c / 0x100 == b;
  }

  /** The payload with these words. */
  function Encoded(w: A.Words): (p: Payload)
    ensures forall i :: 0 <= i < PAYLOAD_SIZE ==> IsWord(Unsigned(w[i / 4])) && p[i] == Digit(Unsigned(w[i / 4]), i % 4)
  {
    seq(PAYLOAD_SIZE, i requires 0 <= i < PAYLOAD_SIZE => Digit(Unsigned(w[i / 4]), i % 4))
  }

  lemma EncodedLanes(w: A.Words)
    ensures Lanes(Encoded(w)) == w
  {
    forall x | 0 <= x < A.LANES ensures Lanes(Encoded(w))[x] == w[x] { EncodedWord(w, x); }
  }

  lemma EncodedWord(w: A.Words, x: nat)
    requires x < A.LANES
    ensures Signed(WordBE(Encoded(w), x)) == w[x]
  {
    hide Digit;
    var p, u := Encoded(w), Unsigned(w[x]);
    assert 4 * x / 4 == x && (4 * x + 1) / 4 == x && (4 * x + 2) / 4 == x && (4 * x + 3) / 4 == x;
    assert p[4 * x] == Digit(u, 0) && p[4 * x + 1] == Digit(u, 1) && p[4 * x + 2] == Digit(u, 2) && p[4 * x + 3] == Digit(u, 3);
    Digits(u);
  }

  function NoWords(): A.Words {
    seq(A.LANES, _ => 0)
  }

  /** An aggregator that has seen nothing of the version. */
  function Empty(v: nat): A.Slot {
    A.Slot(v, {}, NoWords())
  }

  /** The first k members' packets, in the order of their ranks. */
  function Arrivals(v: nat, W: seq<A.Words>, k: nat): (r: seq<A.Arrival>)
    requires k <= |W|
    ensures |r| == k && forall i :: 0 <= i < k ==> r[i] == A.Arrival(v, i, W[i])
  {
    seq(k, i requires 0 <= i < k => A.Arrival(v, i, W[i]))
  }

  lemma {:induction false} SeenSoFar(v: nat, W: seq<A.Words>, k: nat)
    requires k <= |W|
    ensures var s := A.After(Empty(v), Arrivals(v, W, k)); s.version == v && s.seen == Q.AllRanks(k)
  {
    if k > 0 {
      SeenSoFar(v, W, k - 1);
      assert Arrivals(v, W, k)[..k - 1] == Arrivals(v, W, k - 1);
      assert Q.AllRanks(k - 1) + {k - 1} == Q.AllRanks(k);
    }
  }

  function LastAnswer(v: nat, W: seq<A.Words>): A.Reply
    requires W != []
  {
    A.Answer(A.After(Empty(v), Arrivals(v, W, |W| - 1)), A.Arrival(v, |W| - 1, W[|W| - 1]), |W|)
  }

  /** The last of them is answered, to all members. */
  lemma LastAnswered(v: nat, W: seq<A.Words>)
    requires W != []
    ensures LastAnswer(v, W).ToAll?
  {
    var k := |W| - 1;
    SeenSoFar(v, W, k);
    assert Q.AllRanks(k) + {k} == Q.AllRanks(|W|);
    var order := A.AnswerIsSum(Empty(v), Arrivals(v, W, k), A.Arrival(v, k, W[k]), W);
  }

  function Total(v: nat, W: seq<A.Words>): A.Words
    requires W != []
  {
    LastAnswered(v, W);
    LastAnswer(v, W).sums
  }

  /** What the switch answers to number u: the answer to the hosts' packets of the call with that number. */
  ghost function ResultFor(hs: seq<Host>, w: nat, g: nat, u: nat): Payload
    requires hs != []
  {
    if at :| AllNumbered(hs, w, g, u, at) && OfCall(hs, w, at) then
      Encoded(Total(A.Version(g, Psn(u)), PacketLanes(hs, w, at)))
    else Encoded(NoWords())
  }

  lemma ResultOf(hs: seq<Host>, w: nat, g: nat, u: nat, at: seq<nat>) returns (bt: seq<nat>)
    requires hs != [] && AllNumbered(hs, w, g, u, at) && OfCall(hs, w, at)
    ensures AllNumbered(hs, w, g, u, bt) && OfCall(hs, w, bt)
    ensures ResultFor(hs, w, g, u) == Encoded(Total(A.Version(g, Psn(u)), PacketLanes(hs, w, bt)))
  {
    hide Numbered, Encoded, Total, Lanes, A.Version, Psn;
    bt :| AllNumbered(hs, w, g, u, bt) && OfCall(hs, w, bt) && ResultFor(hs, w, g, u) == Encoded(Total(A.Version(g, Psn(u)), PacketLanes(hs, w, bt)));
  }

  ghost function ResultsFor(hs: seq<Host>, w: nat): (R: Results)
    requires hs != []
    ensures forall g: nat, u: nat :: R(g, u) == ResultFor(hs, w, g, u)
  {
    (g: nat, u: nat) => ResultFor(hs, w, g, u)
  }

  ghost function AllResults(hs: seq<Host>, n: nat): (R: seq<Results>)
    requires hs != []
    ensures |R| == n && forall w :: 0 <= w < n ==> R[w] == ResultsFor(hs, w)
  {
    if n == 0 then [] else AllResults(hs, n - 1) + [ResultsFor(hs, n - 1)]
  }

  // ----- all hosts -----

  predicate SameGroup(g: Group, h: Group) {
    g.id == h.id && g.aggAddr == h.aggAddr && g.aggLen == h.aggLen
  }

  /** Each host's call and tensor: one collective of one group, in which host k has rank k. */
  predicate OneCollective(calls: seq<P.Call>, tensors: seq<seq<Byte>>, n: nat) {
    && |calls| == |tensors| > 0
    && (forall k :: 0 <= k < |calls| ==> CanCall(calls[k], n, tensors[k]) && calls[k].group.rank == k)
    && (forall k :: 0 <= k < |calls| ==> AskedBy(calls[k]) == AskedBy(calls[0]) && SameGroup(calls[k].group, calls[0].group))
  }

  ghost predicate MadeCall(t: Trace, n: nat, call: P.Call, tensor: seq<Byte>) {
    && Returns(t, n, call.group.id) && CallsTo(t.es, call.group.id) == [AskedBy(call)]
    && t.ss[|t.es|].p.call == call && t.ss[|t.es|].input == tensor
  }

  ghost predicate Made(ts: seq<Trace>, n: nat, calls: seq<P.Call>, tensors: seq<seq<Byte>>, R: seq<Results>)
    requires |calls| == |tensors|
  {
    |ts| == |calls| && forall k :: 0 <= k < |ts| ==> MadeCall(ts[k], n, calls[k], tensors[k]) && ts[k].R == R
  }

  lemma {:induction false} MakeCalls(n: nat, calls: seq<P.Call>, tensors: seq<seq<Byte>>, R: seq<Results>, m: nat) returns (ts: seq<Trace>)
    requires OneCollective(calls, tensors, n) && |R| == n && m <= |calls|
    ensures |ts| == m && forall k :: 0 <= k < m ==> MadeCall(ts[k], n, calls[k], tensors[k]) && ts[k].R == R
  {
    hide Returns, CallsTo;
    ts := [];
    if m > 0 {
      ts := MakeCalls(n, calls, tensors, R, m - 1);
      var t := OneCall(n, calls[m - 1], tensors[m - 1], R);
      ts := ts + [t];
    }
  }

  lemma AllSameCalls(ts: seq<Trace>, n: nat, calls: seq<P.Call>, tensors: seq<seq<Byte>>, R: seq<Results>)
    requires OneCollective(calls, tensors, n) && Made(ts, n, calls, tensors, R)
    ensures SameCalls(ts, n, calls[0].group.id)
    ensures Hosts(ts, n, calls[0].group.id) == Ends(ts, R, n, calls, tensors)
    ensures forall k :: 0 <= k < |ts| ==> Collectives.Returned(Ends(ts, R, n, calls, tensors)[k], n)
  {
    hide Returns, CallsTo, CanCall, Collectives.Returned;
    var g := calls[0].group.id;
    forall k | 0 <= k < |ts| ensures Returns(ts[k], n, g) && CallsTo(ts[k].es, g) == [AskedBy(calls[0])] {
      assert MadeCall(ts[k], n, calls[k], tensors[k]);
    }
    var hs := Ends(ts, R, n, calls, tensors);
    forall k | 0 <= k < |ts| ensures Collectives.Returned(hs[k], n) { TraceReturned(ts[k], n, g); }
    assert Hosts(ts, n, g) == hs;
  }

  /** The hosts as their calls return. */
  ghost function Ends(ts: seq<Trace>, R: seq<Results>, n: nat, calls: seq<P.Call>, tensors: seq<seq<Byte>>): (hs: seq<Host>)
    requires |calls| == |tensors| && Made(ts, n, calls, tensors, R)
    ensures |hs| == |ts| && forall k :: 0 <= k < |ts| ==>
      |ts[k].ss| == |ts[k].es| + 1 && hs[k] == Host(ts[k].ss[|ts[k].es|], R) && hs[k].s.p.call == calls[k] && hs[k].s.input == tensors[k]
  {
    assert forall k :: 0 <= k < |ts| ==> MadeCall(ts[k], n, calls[k], tensors[k]);
    seq(|ts|, k requires 0 <= k < |ts| && MadeCall(ts[k], n, calls[k], tensors[k]) => Host(ts[k].ss[|ts[k].es|], R))
  }

  /** Two runs of all hosts with the same calls. */
  ghost predicate Twice(a: seq<Host>, b: seq<Host>, n: nat) {
    |a| == |b| > 0 && n > 0 && forall k :: 0 <= k < |a| ==>
      && Collectives.Returned(a[k], n) && Collectives.Returned(b[k], n) && SameCall(a[k], b[k])
      && a[k].s.p.call == b[k].s.p.call && a[k].s.input == b[k].s.input
  }

  lemma EntriesAgain(a: seq<Host>, b: seq<Host>, n: nat, w: nat, g: nat, u: nat, at: seq<nat>, m: nat) returns (again: seq<nat>)
    requires Twice(a, b, n) && w < n && AllNumbered(a, w, g, u, at) && OfCall(a, w, at) && m <= |a|
    ensures |again| == m && forall k :: 0 <= k < m ==>
      Numbered(b[k], w, g, u, again[k]) && b[k].s.p.first <= b[k].s.flows[w].log[again[k]].job
  {
    hide Collectives.Returned, SameCall, Numbered;
    again := [];
    if m > 0 {
      again := EntriesAgain(a, b, n, w, g, u, at, m - 1);
      var i := SameEntry(a[m - 1], b[m - 1], n, w, g, u, at[m - 1]);
      again := again + [i];
    }
  }

  lemma SameLanes(a: seq<Host>, b: seq<Host>, n: nat, w: nat, g: nat, u: nat, at: seq<nat>, bt: seq<nat>)
    requires Twice(a, b, n) && w < n && AllNumbered(a, w, g, u, at) && OfCall(a, w, at)
    requires AllNumbered(b, w, g, u, bt) && OfCall(b, w, bt)
    ensures PacketLanes(a, w, at) == PacketLanes(b, w, bt)
  {
    hide Collectives.Returned, SameCall, Lanes;
    forall k | 0 <= k < |a| ensures PacketLanes(a, w, at)[k] == PacketLanes(b, w, bt)[k] {
      SamePayload(a[k], b[k], n, w, g, u, at[k], bt[k]);
    }
  }

  /** The hosts made one collective of one group. */
  predicate Alike(a: seq<Host>) {
    forall k, m :: 0 <= k < |a| && 0 <= m < |a| ==>
      AskedBy(a[k].s.p.call) == AskedBy(a[m].s.p.call) && SameGroup(a[k].s.p.call.group, a[m].s.p.call.group)
  }

  /** Answers computed from one run of the hosts are the switch's answers in another. */
  lemma AnswersAgain(a: seq<Host>, b: seq<Host>, n: nat, h: nat, w: nat, g: nat, u: nat, at: seq<nat>)
    requires Twice(a, b, n) && Ranked(a) && Alike(a) && h < |a| && w < n == |a[h].R| && AllNumbered(a, w, g, u, at) && OfCall(a, w, at)
    requires |a| == |b| > 0 && a[h].R[w](g, u) == ResultFor(b, w, g, u) && Receives(a[h], w, at[h])
    ensures FromSwitch(a, h, w, g, u, at)
  {
    hide Collectives.Returned, SameCall, Lanes, Twice, Total, Encoded, ResultFor, Sane, A.Version, Psn, Ranked, Alike, Receives;
    var again := EntriesAgain(a, b, n, w, g, u, at, |a|);
    assert AllNumbered(b, w, g, u, again) && OfCall(b, w, again);
    var bt := ResultOf(b, w, g, u, again);
    SameLanes(a, b, n, w, g, u, at, bt);
    AllBack(a, b, n);
    Answers(a, n, h, w, g, u, at);
  }

  lemma AllBack(a: seq<Host>, b: seq<Host>, n: nat)
    requires Twice(a, b, n)
    ensures forall k :: 0 <= k < |a| ==> Collectives.Returned(a[k], n)
  {
    hide Collectives.Returned, SameCall;
  }

  lemma AllAnswersAgain(a: seq<Host>, b: seq<Host>, n: nat)
    requires Twice(a, b, n) && Ranked(a) && Alike(a) && |a| == |b| > 0 && forall h :: 0 <= h < |a| ==> a[h].R == AllResults(b, n)
    ensures SwitchAnswers(a)
  {
    hide Collectives.Returned, SameCall, Twice, ResultFor, Sane, FromSwitch, Alike;
    forall h, w, g, u, at | 0 <= h < |a| && 0 <= w < |a[h].R| && AllNumbered(a, w, g, u, at) && OfCall(a, w, at) && Receives(a[h], w, at[h])
      ensures FromSwitch(a, h, w, g, u, at)
    {
      AnswersAgain(a, b, n, h, w, g, u, at);
    }
  }

  /** The packets arrive in the order of their ranks. */
  lemma Answers(a: seq<Host>, n: nat, h: nat, w: nat, g: nat, u: nat, at: seq<nat>)
    requires (forall k :: 0 <= k < |a| ==> Collectives.Returned(a[k], n)) && Ranked(a) && Alike(a)
    requires h < |a| && w < n == |a[h].R| && AllNumbered(a, w, g, u, at) && OfCall(a, w, at) && Receives(a[h], w, at[h])
    requires a[h].R[w](g, u) == Encoded(Total(A.Version(g, Psn(u)), PacketLanes(a, w, at)))
    ensures FromSwitch(a, h, w, g, u, at)
  {
    hide Lanes, Sane, Encoded, A.After, A.Answer, A.Version, Psn, Collectives.Returned, Alike, Ranked, Receives, KeepsPayload, Numbered;
    var W, v := PacketLanes(a, w, at), A.Version(g, Psn(u));
    EncodedLanes(Total(v, W));
    LastAnswered(v, W);
    var pkts, m := HostPackets(a, w, at), |a| - 1;
    InOrder(a, n, w, g, u, at);
    Wanted(a, n, h, w, g, u, at);
    assert a[h].s.p.call.group.rank == h by { RankOf(a, h); }
    assert ArrivalsOf(pkts[..m]) == Arrivals(v, W, m);
    assert pkts[..m] + [pkts[m]] == pkts;
    assert Aggregated(a, h, w, g, u, at, Empty(v), pkts[..m], pkts[m]);
  }

  lemma InOrder(a: seq<Host>, n: nat, w: nat, g: nat, u: nat, at: seq<nat>)
    requires (forall k :: 0 <= k < |a| ==> Collectives.Returned(a[k], n)) && Ranked(a) && Alike(a) && a != []
    requires w < n && AllNumbered(a, w, g, u, at) && OfCall(a, w, at)
    ensures var pkts := HostPackets(a, w, at);
      forall k :: 0 <= k < |a| ==>
        ArrivalOf(pkts[k]) == A.Arrival(A.Version(g, Psn(u)), k, PacketLanes(a, w, at)[k]) && pkts[k].aggAddr == pkts[|a| - 1].aggAddr
  {
    hide Lanes, Sane, A.Version, Psn, Collectives.Returned, Alike, Ranked, Numbered, AtAggregator;
    var pkts, m := HostPackets(a, w, at), |a| - 1;
    forall k | 0 <= k < |a| ensures ArrivalOf(pkts[k]) == A.Arrival(A.Version(g, Psn(u)), k, PacketLanes(a, w, at)[k]) && pkts[k].aggAddr == pkts[m].aggAddr {
      HostPacket(a, n, w, g, u, at, k);
      HostPacket(a, n, w, g, u, at, m);
      SameAddr(a, n, w, Psn(u), k, m, pkts[k].aggAddr, pkts[m].aggAddr);
    }
  }

  lemma RankOf(a: seq<Host>, k: nat)
    requires Ranked(a) && k < |a|
    ensures a[k].s.p.call.group.rank == k
  {}

  lemma HostPacket(a: seq<Host>, n: nat, w: nat, g: nat, u: nat, at: seq<nat>, k: nat)
    requires Ranked(a) && k < |a| && Collectives.Returned(a[k], n) && w < n && AllNumbered(a, w, g, u, at) && OfCall(a, w, at)
    ensures var pkt := HostPackets(a, w, at)[k];
      && ArrivalOf(pkt) == A.Arrival(A.Version(g, Psn(u)), k, PacketLanes(a, w, at)[k])
      && pkt.code == a[k].s.p.call.code && pkt.root == a[k].s.p.call.root
      && AtAggregator(a[k].s.p.call.group, n, w, Psn(u), pkt.aggAddr)
  {
    hide Lanes, Sane, A.Version, Psn, Collectives.Returned, AtAggregator;
    HeaderOf(a[k], n, w, at[k]);
    GroupOf(a[k], n, w, at[k]);
  }

  lemma GroupOf(h: Host, n: nat, w: nat, i: nat)
    requires Collectives.Returned(h, n) && w < n && i < |h.s.flows[w].log| && h.s.p.first <= h.s.flows[w].log[i].job
    ensures var f := h.s.flows[w]; f.log[i].job < |f.posted| && Gid(f.posted, f.log[i].job) == h.s.p.call.group.id
    ensures P.OfCall(h.s.flows[w].posted[h.s.flows[w].log[i].job].sub.op, h.s.p.call)
  {
    hide SysInv, Cut, Share, PktCount, InvM, Part, Finished;
    EntryRight(h, n, w, i);
    var k := h.s.flows[w].log[i].job;
    JobOf(h, n, w, k - h.s.p.first);
    ShareOp(h.s.p.ops[k], n, w);
  }

  lemma SameAddr(a: seq<Host>, n: nat, w: nat, psn: nat, k: nat, m: nat, x: nat, y: nat)
    requires Alike(a) && k < |a| && m < |a| && n > 0
    requires AtAggregator(a[k].s.p.call.group, n, w, psn, x) && AtAggregator(a[m].s.p.call.group, n, w, psn, y)
    ensures x == y
  {
    hide AskedBy;
  }

  /** The last packet's header lets the payload through to a host that receives. */
  lemma Wanted(a: seq<Host>, n: nat, h: nat, w: nat, g: nat, u: nat, at: seq<nat>)
    requires (forall k :: 0 <= k < |a| ==> Collectives.Returned(a[k], n)) && Ranked(a) && Alike(a)
    requires h < |a| && w < n && AllNumbered(a, w, g, u, at) && OfCall(a, w, at) && Receives(a[h], w, at[h])
    ensures KeepsPayload(HostPackets(a, w, at)[|a| - 1], h)
  {
    hide Lanes, Sane, Psn, Collectives.Returned, AtAggregator, Numbered;
    HostPacket(a, n, w, g, u, at, |a| - 1);
    GroupOf(a[h], n, w, at[h]);
    SameAsked(a, h, |a| - 1);
    hide Alike;
  }

  lemma SameAsked(a: seq<Host>, k: nat, m: nat)
    requires Alike(a) && k < |a| && m < |a|
    ensures a[k].s.p.call.code == a[m].s.p.call.code && a[k].s.p.call.root == a[m].s.p.call.root
  {
    assert AskedBy(a[k].s.p.call) == AskedBy(a[m].s.p.call);
  }

  lemma HasWorker(calls: seq<P.Call>, tensors: seq<seq<Byte>>, n: nat)
    requires OneCollective(calls, tensors, n)
    ensures n > 0 && |calls| == |tensors| > 0
  {
    assert CanCall(calls[0], n, tensors[0]);
  }

  lemma MakeRuns(n: nat, calls: seq<P.Call>, tensors: seq<seq<Byte>>, R: seq<Results>) returns (ts: seq<Trace>)
    requires OneCollective(calls, tensors, n) && |R| == n
    ensures Made(ts, n, calls, tensors, R)
  {
    hide OneCollective, MadeCall;
    HasWorker(calls, tensors, n);
    ts := MakeCalls(n, calls, tensors, R, |calls|);
  }

  lemma RunsTwice(ts: seq<Trace>, R: seq<Results>, us: seq<Trace>, S: seq<Results>, n: nat, calls: seq<P.Call>, tensors: seq<seq<Byte>>)
    requires OneCollective(calls, tensors, n) && Made(ts, n, calls, tensors, R) && Made(us, n, calls, tensors, S)
    ensures Twice(Ends(ts, R, n, calls, tensors), Ends(us, S, n, calls, tensors), n)
  {
    hide CanCall, Collectives.Returned, Returns, OpSizes, Operations, CallsTo;
    HasWorker(calls, tensors, n);
    var a, b := Ends(ts, R, n, calls, tensors), Ends(us, S, n, calls, tensors);
    forall k | 0 <= k < |a|
      ensures Collectives.Returned(a[k], n) && Collectives.Returned(b[k], n) && SameCall(a[k], b[k])
    {
      assert MadeCall(ts[k], n, calls[k], tensors[k]) && MadeCall(us[k], n, calls[k], tensors[k]);
      TraceReturned(ts[k], n, calls[k].group.id);
      TraceReturned(us[k], n, calls[k].group.id);
    }
  }

  /** For any number of hosts and workers, any collective and any tensors, there are runs on which all
      hosts make the call and return, each answered by the switch. */
  lemma AnyCollective(n: nat, calls: seq<P.Call>, tensors: seq<seq<Byte>>) returns (ts: seq<Trace>)
    requires OneCollective(calls, tensors, n)
    ensures var g := calls[0].group.id;
      && SameCalls(ts, n, g) && SwitchAnswers(Hosts(ts, n, g)) && |ts| == |calls|
      && (forall k :: 0 <= k < |ts| ==> Hosts(ts, n, g)[k].s.p.call == calls[k] && Hosts(ts, n, g)[k].s.input == tensors[k])
  {
    hide SameCalls, Made, CanCall, Collectives.Returned, SameCall, AllNumbered, OfCall, Receives, FromSwitch, ResultFor, Twice, NoWords, Encoded;
    HasWorker(calls, tensors, n);
    var none: Results := (g: nat, u: nat) => Encoded(NoWords());
    var R0: seq<Results> := seq(n, _ => none);
    var first := MakeRuns(n, calls, tensors, R0);
    var bs := Ends(first, R0, n, calls, tensors);
    MadeSizes(first, n, calls, tensors, R0);
    var R := AllResults(bs, n);
    ts := MakeRuns(n, calls, tensors, R);
    MadeSizes(ts, n, calls, tensors, R);
    var hs := Ends(ts, R, n, calls, tensors);
    AllSameCalls(ts, n, calls, tensors, R);
    RunsTwice(ts, R, first, R0, n, calls, tensors);
    assert forall k :: 0 <= k < |hs| ==> hs[k].s.p.call == calls[k];
    OfOneCollective(hs, calls, tensors, n);
    hide OneCollective, Alike, Ranked, SwitchAnswers;
    AllAnswersAgain(hs, bs, n);
  }

  lemma OfOneCollective(hs: seq<Host>, calls: seq<P.Call>, tensors: seq<seq<Byte>>, n: nat)
    requires OneCollective(calls, tensors, n) && |hs| == |calls| && forall k :: 0 <= k < |hs| ==> hs[k].s.p.call == calls[k]
    ensures Alike(hs) && Ranked(hs)
  {
    hide CanCall;
  }

  lemma MadeSizes(ts: seq<Trace>, n: nat, calls: seq<P.Call>, tensors: seq<seq<Byte>>, R: seq<Results>)
    requires |calls| == |tensors| && Made(ts, n, calls, tensors, R)
    ensures |ts| == |calls|
  {}

  // ----- fair runs -----

  predicate Drained(f: Flow) {
    f.base == |f.log| == |f.acked| && f.popped == |f.posted| && f.sent == 0
  }

  lemma DoneIsDrained(f: Flow)
    requires TS.Inv(f) && f.done == |f.posted|
    ensures Drained(f) && Sane(f)
  {
    hide PktCount;
  }

  predicate IsIdle(fe: TR.Event) {
    fe == TR.Shifted || fe == TR.Sending(CC_CWND_MIN) || fe == TR.TimedOut
  }

  lemma DrainedIdle(f: Flow, fe: TR.Event, R: Results)
    requires Drained(f) && Sane(f) && IsIdle(fe)
    ensures SM.Own(fe) && TR.Next(f, fe, f, R)
  {
    hide PktCount;
    assert f.wire + [] == f.wire;
  }

  /** Nothing is left anywhere. */
  ghost predicate AtRest(s: Sys) {
    && (forall w :: 0 <= w < |s.flows| ==> Drained(s.flows[w]) && s.flows[w].mem == s.mem)
    && (forall pe :: F.IsTurn(pe) ==> !P.Enabled(s.p, pe))
  }

  lemma FinishedAtRest(s: Sys, R: seq<Results>)
    requires SysInv(s, R) && Finished(s)
    ensures AtRest(s) && forall w :: 0 <= w < |s.flows| ==> Sane(s.flows[w])
  {
    hide P.Inv, Sizes, WorkersGood, Waiting, TensorRight, WorkerGood, Cut, InvM, Drained, P.Enabled, F.IsTurn;
    SysParts(s, R);
    SizesFacts(s, R);
    FinishedCount(s, R);
    OrderOf(s.p);
    forall w | 0 <= w < |s.flows| ensures Drained(s.flows[w]) && s.flows[w].mem == s.mem && Sane(s.flows[w]) {
      OneWorker(s, R, w);
      WorkerDone(s.p, |s.flows|, w, s.mem, s.input, s.flows[w], R[w]);
    }
    forall pe | F.IsTurn(pe) ensures !P.Enabled(s.p, pe) { ThreadsOff(s.p, pe); }
  }

  lemma WorkerDone(p: P.Pipe, n: nat, w: nat, mem: seq<Byte>, input: seq<Byte>, f: Flow, R: Results)
    requires w < n == |p.work| == |p.hand| && p.forked <= |p.ops| && SegsFit(Cut(p.call.size, 0), |input|)
    requires WorkerGood(p, n, w, mem, input, f, R) && p.joined == p.forked
    ensures Drained(f) && Sane(f) && f.mem == mem
  {
    hide TS.Shape, TS.OneGroup, TS.GroupNow, JobsOk, MemoryRight, PacketsRight, SM.Kept, Fed, Cut, Share;
    DoneIsDrained(f);
  }

  lemma ThreadsOff(p: P.Pipe, pe: P.Event)
    requires P.Inv(p) && p.todo == [] && p.freed == p.returned == p.joined == p.forked == p.forwarded == |p.ops| && F.IsTurn(pe)
    ensures !P.Enabled(p, pe)
  {
    hide P.BufInv, P.CallInv, P.CopyInv, P.SlotsInv, P.Suits;
    P.HasWorkers(p);
    P.PendingParts(p, 0);
  }

  /** The workers go around their loops in turn. */
  function IdleEvent(k: nat, n: nat): SysEvent
    requires n > 0
  {
    Works(k % n, if k / n % 3 == 0 then TR.Shifted else if k / n % 3 == 1 then TR.Sending(CC_CWND_MIN) else TR.TimedOut, 0, 0)
  }

  lemma IdleNext(s: Sys, k: nat, n: nat, R: seq<Results>)
    requires n > 0 && AtRest(s) && |s.flows| == |R| == n == |s.p.work| == |s.p.hand| && P.Inv(s.p)
    requires forall w :: 0 <= w < n ==> Sane(s.flows[w])
    ensures SysNext(s, IdleEvent(k, n), s, R)
  {
    hide P.Inv, P.Asserts, Drained, Sane, TR.Next;
    var e := IdleEvent(k, n);
    DrainedIdle(s.flows[e.w], e.step, R[e.w]);
    F.IdleServe(s.p, e.w);
    var now := Seeing(s.flows[e.w := s.flows[e.w]], s.flows[e.w].mem);
    forall v | 0 <= v < n ensures now[v] == s.flows[v] { L.SameMem(s.flows[v]); }
    assert now == s.flows;
  }

  /** The run of a trace that has finished, and then idles. */
  function GoesIdle(t: Trace, n: nat): F.Endless
    requires n > 0 && |t.ss| == |t.es| + 1
  {
    F.Endless((i: nat) => if i <= |t.es| then t.ss[i] else t.ss[|t.es|],
              (i: nat) => if i < |t.es| then t.es[i] else IdleEvent(i - |t.es|, n))
  }

  /** A number at which worker w's part c comes up, not before t. */
  lemma TurnComes(n: nat, w: nat, c: nat, t: nat) returns (k: nat)
    requires w < n && c < 3
    ensures k >= t && k % n == w && k / n % 3 == c
  {
    var q := 3 * t + c;
    k := q * n + w;
    ModUnique(k, n, q, w);
    QuotientIs(k, n, q, w);
    assert q * n >= q by { TimesAtLeast(q, n); }
  }

  lemma TimesAtLeast(q: nat, n: nat)
    requires n > 0
    ensures q * n >= q
  {}

  lemma QuotientIs(k: nat, n: nat, q: nat, r: nat)
    requires n > 0 && k == q * n + r && r < n
    ensures k / n == q
  {
    var d := k / n - q;
    ModUnique(k, n, q, r);
    assert k == k / n * n + k % n;
    assert d * n == k / n * n - q * n;
    MulAtLeast(d, n);
  }

  lemma IdleFair(t: Trace, n: nat, R: seq<Results>)
    requires n > 0 && |t.ss| == |t.es| + 1 && |t.ss[|t.es|].flows| == n && AtRest(t.ss[|t.es|])
    ensures F.Fair(GoesIdle(t, n), n)
  {
    hide AtRest, P.Enabled, F.IsTurn, F.Transmits, F.EdgeWaits;
    var r, N, s := GoesIdle(t, n), |t.es|, t.ss[|t.es|];
    forall u: nat, pe | F.IsTurn(pe) ensures F.TurnAfter(r, u, pe) {
      RestOff(s, pe);
      assert F.TakenOrOff(r, u, N + u, pe);
    }
    forall u: nat, w: nat, part | w < n ensures F.PartAfter(r, u, w, part) {
      var c := if part.Releases? then 0 else if part.Sends? then 1 else 2;
      var k := TurnComes(n, w, c, u);
      assert r.es(N + k) == IdleEvent(k, n);
      assert F.HasPart(r, u, N + k, w, part);
    }
    forall w: nat, x: nat ensures !F.SentForever(r, w, x) { NotForever(t, n, w, x); }
    assert F.NetworkFair(r, n);
  }

  lemma RestOff(s: Sys, pe: P.Event)
    requires AtRest(s) && F.IsTurn(pe)
    ensures !P.Enabled(s.p, pe)
  {
    hide P.Enabled, Drained;
  }

  lemma NotForever(t: Trace, n: nat, w: nat, x: nat)
    requires n > 0 && |t.ss| == |t.es| + 1
    ensures !F.SentForever(GoesIdle(t, n), w, x)
  {
    assert !F.SentAfter(GoesIdle(t, n), |t.es|, w, x);
  }

  /** For any call there is a fair run on which it is made. */
  lemma AnyCallFairly(n: nat, call: P.Call, tensor: seq<Byte>, R: seq<Results>) returns (r: F.Endless)
    requires CanCall(call, n, tensor) && |R| == n
    ensures F.Runs(r, n, R) && F.Fair(r, n) && L.Called(r.ss(1).p) && r.ss(1).p.call == call
  {
    hide SysInv, SysNext, Finished, AtRest, P.Inv, F.Fair, P.Suits, P.GoodCall, L.Called, IdleEvent, CallsTo;
    var t := OneCall(n, call, tensor, R);
    var s := t.ss[|t.es|];
    AlwaysSysInv(n, t.ss, t.es, R, |t.es|);
    WorkerCount(n, t.ss, t.es, R, |t.es|);
    SysPipe(s, R);
    L.Hands(s, R);
    FinishedAtRest(s, R);
    IdleFair(t, n, R);
    r := GoesIdle(t, n);
    forall i: nat ensures F.StepAt(r, i, R) {
      if i >= |t.es| { IdleNext(s, i - |t.es|, n, R); }
    }
    forall i: nat ensures F.WideCall(r, i, n) {
      if i >= |t.es| { IdleNoCall(i - |t.es|, n); }
    }
    assert r.ss(0) == t.ss[0];
  }

  lemma IdleNoCall(k: nat, n: nat)
    requires n > 0
    ensures !IdleEvent(k, n).Calls?
  {}
}
