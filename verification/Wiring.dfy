/** What the sizes that the controller hands out (switch/bfrt_grpc.py:43, 148-156) mean for the workers. */
module Wiring {
  import opened NetCommon
  import opened Transport
  import opened TransportMemory
  import opened TransportRuns
  import opened TransportBarrier
  import opened GroupRuns
  import opened Partition
  import opened Segments
  import opened Groups
  import CB = CopyBuffers
  import CC = CongestionControl
  import CO = Collectives

  /** A group has 1024 aggregators, so no window of a worker exceeds 512 packets, and over every run of
      the rate controller whose bursts are the worker's, cwnd stays below the ring size, as the source
      remarks. `BelowRingIff` says from which window on it would not. */
  lemma BelowRingAsWired(ss: seq<Flow>, es: seq<Event>, R: Results, cs: seq<CC.Event>)
    requires TransportRuns.Run(ss, es, R)
    requires forall k :: 0 <= k < |es| && es[k].Posted? ==> es[k].sub.aggLen <= AGG_LEN
    requires forall k :: 0 <= k < |cs| && cs[k].Burst? ==> exists i :: 0 <= i < |ss| && BurstOf(ss[i], cs[k].winLen)
    ensures forall i :: 0 <= i < |ss| ==> Win(ss[i]) <= 512
    ensures CC.Run(cs).cwnd < 1024.0
  {
    hide TransportRuns.Run, CC.Run;
    forall i | 0 <= i < |ss| ensures Win(ss[i]) <= 512 { WindowWithinHalf(ss, es, R, 512, i); }
    CC.BelowRingIff(512);
    assert CC.WindowAtMost(cs, 512);
  }

  /** A burst ended in this state. */
  predicate BurstOf(s: Flow, winLen: nat) {
    winLen == Win(s)
  }

  /** The sizes of `CopyBuffers.TwoCalls` are those of two calls' segments. */
  lemma ExactFitIsTwoCalls()
    ensures var c, d := Cut(8388606, 0), Cut(3, 0);
      && |c| == 4 && |d| == 1
      && CB.TwoCalls() == [CB.Alloc(c[0].size)] + [CB.Alloc(c[1].size)] + [CB.Alloc(c[2].size)] + [CB.Alloc(c[3].size)]
           + [CB.Free] + [CB.Free] + [CB.Free] + [CB.Free] + [CB.Alloc(d[0].size)]
  {
    var n, m := 8388606, 3;
    CutCount(n, 0);
    CutCount(m, 0);
    hide Cut;
    CutShape(n, 0, 0);
    CutShape(n, 0, 1);
    CutShape(n, 0, 2);
    CutShape(n, 0, 3);
    CutShape(m, 0, 0);
  }

  /** Calls one after the other, whose operations are all destroyed: their frees go well if and only if
      none of their segments, placed one after the other, ends on the ring's last byte. */
  lemma CallsRunWellIff(calls: seq<CO.Asked>, ops: seq<CB.Op>)
    requires CB.Accepted(ops) == CO.Operations(calls) && CB.Run(ops).live == []
    ensures CB.AllFreesWell(ops) <==> CB.OffEnds(0, CO.Operations(calls))
  {
    hide CB.Run, CB.Accepted, CB.AllFreesWell, CB.OffEnds, CO.Operations;
    CB.RunsWellIff(ops);
  }

  // ----- a release between two free neighbours -----

  /** Three groups, of which the first, the third and then the second are destroyed. */
  function ThreeGroups(a: seq<Member>, b: seq<Member>, c: seq<Member>): seq<Request> {
    [] + [CreateGroup(a)] + [CreateGroup(b)] + [CreateGroup(c)] + [DestroyGroup(1)] + [DestroyGroup(3)] + [DestroyGroup(2)]
  }

  lemma RunCreate(ports: seq<nat>, rs: seq<Request>, ms: seq<Member>)
    requires ports != []
    ensures GroupRuns.Run(ports, rs + [CreateGroup(ms)]) ==
      var (c, live) := GroupRuns.Run(ports, rs); (Create(c, ms), Added(live, c, ms))
  {
    assert (rs + [CreateGroup(ms)])[..|rs|] == rs;
    hide Create, Added, GroupRuns.Inv;
  }

  lemma RunDestroy(ports: seq<nat>, rs: seq<Request>, g: nat)
    requires ports != []
    ensures GroupRuns.Run(ports, rs + [DestroyGroup(g)]) ==
      var (c, live) := GroupRuns.Run(ports, rs); (Destroy(c, g), live - {g})
  {
    assert (rs + [DestroyGroup(g)])[..|rs|] == rs;
    hide Destroy, GroupRuns.Inv;
  }

  /** A creation from a list whose free memory is one segment up to the end. */
  lemma CreateFromTail(c: Ctl, live: Lives, ms: seq<Member>, lo: nat)
    requires GroupRuns.Inv(c, live) && c.memseg == [Seg(lo, SWITCH_MEM_SIZE)] && lo + ALLOC_SIZE < SWITCH_MEM_SIZE
    requires c.freeGroup != [] && |ms| <= |c.freeNode|
    ensures var d, l := Create(c, ms), Added(live, c, ms);
      && d.memseg == [Seg(lo + ALLOC_SIZE, SWITCH_MEM_SIZE)]
      && d.freeGroup == c.freeGroup[1..] && |d.freeNode| == |c.freeNode| - |ms|
      && c.freeGroup[0] in l && l[c.freeGroup[0]].lo == lo
      && (forall g :: g in live && g != c.freeGroup[0] ==> g in l && l[g] == live[g])
  {
    hide FitSeg, FirstFit, UndoList, AddMembers, GroupRuns.Inv, MinIndex, Create, CreatedTables;
    TailCovers(c.memseg[0]);
    OfferFacts(c, live, ms);
    CreateFields(c, live, ms);
    MemParts(c, live);
    FitIsFirst(c.memseg);
  }

  lemma TailCovers(s: Seg)
    requires s.lo < s.hi
    ensures exists a :: Covers([s], a)
  {
    assert In([s][0], s.lo);
    assert Covers([s], s.lo);
  }

  lemma MemParts(c: Ctl, live: Lives)
    requires GroupRuns.Inv(c, live)
    ensures Ordered(c.memseg) && AlignedTo(c.memseg, ALLOC_SIZE)
  {
    hide Pool, NodesApart, RecirInv, UndoInv, TablesInv, Ordered, AlignedTo, Overlaps, Covers;
  }

  lemma DestroyMem(c: Ctl, live: Lives, g: nat)
    requires GroupRuns.Inv(c, live) && g in live
    ensures Some(Destroy(c, g).memseg) == FreeSeg(c.memseg, live[g].lo, live[g].lo + ALLOC_SIZE)
  {
    hide GroupRuns.Inv, MemInv, FreeSeg, UndoList, ExecBack, Destroy;
    LiveParts(c, live, g);
    MemDestroy(c.memseg, live, g);
    DestroyFields(c, g, live[g]);
  }

  /** After these requests, with any members that fit, the controller's list has two touching
      segments: the release of the second group merged only with the left one. */
  lemma TwoSidedMergeFails(ports: seq<nat>, a: seq<Member>, b: seq<Member>, c: seq<Member>)
    requires ports != [] && |a| + |b| + |c| < MAX_WORKER_NUM
    ensures GroupRuns.Run(ports, ThreeGroups(a, b, c)).0.memseg
      == [Seg(0, 2 * ALLOC_SIZE), Seg(2 * ALLOC_SIZE, SWITCH_MEM_SIZE)]
  {
    hide GroupRuns.Run, Create, Destroy, Added, GroupRuns.Inv, FreeSeg;
    var r0: seq<Request> := [];
    var r1, A := r0 + [CreateGroup(a)], ALLOC_SIZE;
    var r2 := r1 + [CreateGroup(b)];
    var r3 := r2 + [CreateGroup(c)];
    var r4 := r3 + [DestroyGroup(1)];
    var r5 := r4 + [DestroyGroup(3)];
    StartOfRun(ports);
    RunCreate(ports, r0, a);
    var (s0, l0) := GroupRuns.Run(ports, r0);
    CreateFromTail(s0, l0, a, 0);
    RunCreate(ports, r1, b);
    var (s1, l1) := GroupRuns.Run(ports, r1);
    CreateFromTail(s1, l1, b, A);
    RunCreate(ports, r2, c);
    var (s2, l2) := GroupRuns.Run(ports, r2);
    CreateFromTail(s2, l2, c, 2 * A);
    var (s3, l3) := GroupRuns.Run(ports, r3);
    RunDestroy(ports, r3, 1);
    DestroyMem(s3, l3, 1);
    var (s4, l4) := GroupRuns.Run(ports, r4);
    RunDestroy(ports, r4, 3);
    DestroyMem(s4, l4, 3);
    var (s5, l5) := GroupRuns.Run(ports, r5);
    RunDestroy(ports, r5, 2);
    DestroyMem(s5, l5, 2);
    ThreeReleases();
  }

  lemma StartOfRun(ports: seq<nat>)
    requires ports != []
    ensures GroupRuns.Run(ports, []) == (Groups.Fresh(ports), map[])
  {}

  /** The three releases on the list: of the first block, of the third, and of the second between. */
  lemma ThreeReleases()
    ensures var A, M := ALLOC_SIZE, SWITCH_MEM_SIZE;
      && FreeSeg([Seg(3 * A, M)], 0, A) == Some([Seg(0, A), Seg(3 * A, M)])
      && FreeSeg([Seg(0, A), Seg(3 * A, M)], 2 * A, 3 * A) == Some([Seg(0, A), Seg(2 * A, M)])
      && FreeSeg([Seg(0, A), Seg(2 * A, M)], A, 2 * A) == Some([Seg(0, 2 * A), Seg(2 * A, M)])
  {
    var A, M := ALLOC_SIZE, SWITCH_MEM_SIZE;
    var x, y, z := [Seg(3 * A, M)], [Seg(0, A), Seg(3 * A, M)], [Seg(0, A), Seg(2 * A, M)];
    var k := 0;
    assert FirstAfter(x, 0, k) == 0;
    assert FirstAfter(y, 2 * A, k) == 1;
    assert FirstAfter(z, A, k) == 1;
    hide FirstAfter;
    assert x[..0] + [Seg(0, A)] + x[0..] == y;
    assert y[..1] + [Seg(2 * A, M)] + y[2..] == z;
    assert z[..0] + [Seg(0, 2 * A)] + z[1..] == [Seg(0, 2 * A), Seg(2 * A, M)];
    FreeIsSplice(x, 0, A);
    FreeIsSplice(y, 2 * A, 3 * A);
    FreeIsSplice(z, A, 2 * A);
  }
}
