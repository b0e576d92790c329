/** What goes wrong without the frontend's drain barrier and with unequal group sizes, exactly when,
    and what hosts agree on. */
module TransportBarrier {
  import opened NetCommon
  import opened Transport
  import opened TransportShape
  import opened TransportMemory
  import opened TransportRuns

  // ----- group switch in the middle of a burst -----

  /** A burst that began on an empty window takes every queued sub-operation in turn, whatever its
      group, until it has its n packets or the queue is empty. */
  lemma {:induction false} BurstFills(s: Flow, n: nat)
    requires Shape(s) && Win(s) + n <= MAX_WIN_LEN - 1
    ensures var t := Burst(s, true, n);
      && Shape(t) && t.posted == s.posted && t.base == s.base && t.done == s.done
      && |t.log| == Min(|s.log| + n, FirstIdx(s.posted, |s.posted|))
    decreases n
  {
    hide PktCount, MakePacket, Serials, FirstIdx, Shape, Sane, CanGen, Gen;
    QueuedEnd(s);
    if n != 0 && CanGen(s, true) {
      GenShape(s);
      GenCounts(s);
      BurstFills(Gen(s), n - 1);
    }
  }

  /** The log ends where the queued packets end only when nothing more can be generated. */
  lemma QueuedEnd(s: Flow)
    requires Shape(s)
    ensures Sane(s) && |s.log| <= FirstIdx(s.posted, |s.posted|)
    ensures CanGen(s, true) <==> |s.log| < FirstIdx(s.posted, |s.posted|)
    ensures CanGen(s, true) ==> s.popped < |s.posted| && s.sent < Count(s.posted, s.popped) && JobOk(s.posted[s.popped].sub, |s.mem|)
  {
    hide PktCount, Serials;
    if s.popped < |s.posted| { FirstIdxMono(s.posted, s.popped + 1, |s.posted|); }
  }

  lemma GenCounts(s: Flow)
    requires Sane(s) && s.popped < |s.posted|
    ensures var t := Gen(s); Sane(t) && t.posted == s.posted && t.base == s.base && t.done == s.done && |t.log| == |s.log| + 1
  {
    hide PktCount, MakePacket, Serials;
    GenSane(s);
  }

  /** All packets of the window belong to one group. */
  ghost predicate Unmixed(s: Flow)
    requires Sane(s)
  {
    forall i :: s.base <= i < |s.log| ==> Gid(s.posted, s.log[i].job) == Gid(s.posted, s.log[s.base].job)
  }

  /** Every queued sub-operation, from the first on, whose first packet comes before log index
      `edge` belongs to the first one's group. */
  predicate ReachesOne(ps: seq<Job>, first: nat, edge: nat)
    requires first < |ps|
  {
    forall j :: first <= j < |ps| && FirstIdx(ps, j) < edge ==> Gid(ps, j) == Gid(ps, first)
  }

  /** The guard against mixing groups looks at the published right edge, which a burst updates only
      at its end. So the first burst on an empty window mixes groups unless every queued
      sub-operation that the burst reaches belongs to the group at the front of the queue. */
  lemma BurstUnmixedIff(s: Flow, n: nat)
    requires Shape(s) && s.base == |s.log| && s.sent == 0 && s.popped < |s.posted|
    requires 0 < n <= MAX_WIN_LEN - 1
    ensures Sane(Burst(s, true, n))
    ensures Unmixed(Burst(s, true, n)) <==> ReachesOne(s.posted, s.popped, |s.log| + n)
  {
    hide PktCount, MakePacket, Serials, Burst;
    BurstFills(s, n);
    var t := Burst(s, true, n);
    FirstIdxMono(s.posted, s.popped + 1, |s.posted|);
    UnmixedIffReach(t, n, s.popped);
  }

  lemma UnmixedIffReach(t: Flow, n: nat, first: nat)
    requires Shape(t) && first < |t.posted|
    requires t.base == FirstIdx(t.posted, first) < |t.log| == Min(t.base + n, FirstIdx(t.posted, |t.posted|))
    ensures Unmixed(t) <==> ReachesOne(t.posted, first, t.base + n)
  {
    hide PktCount, MakePacket, Serials;
    if Unmixed(t) { UnmixedReaches(t, n, first); }
    if ReachesOne(t.posted, first, t.base + n) { ReachesUnmixed(t, n, first); }
  }

  lemma ReachesUnmixed(t: Flow, n: nat, first: nat)
    requires Shape(t) && first < |t.posted| && ReachesOne(t.posted, first, t.base + n)
    requires t.base == FirstIdx(t.posted, first) < |t.log| == Min(t.base + n, FirstIdx(t.posted, |t.posted|))
    ensures Unmixed(t)
  {
    hide PktCount, MakePacket, Serials;
    BurstReaches(t, first);
    forall i | t.base <= i < |t.log| ensures Gid(t.posted, t.log[i].job) == Gid(t.posted, first) {
      var j := t.log[i].job;
      if j < first { FirstIdxMono(t.posted, j + 1, first); }
    }
  }

  lemma UnmixedReaches(t: Flow, n: nat, first: nat)
    requires Shape(t) && Unmixed(t) && first < |t.posted|
    requires t.base == FirstIdx(t.posted, first) < |t.log| == Min(t.base + n, FirstIdx(t.posted, |t.posted|))
    ensures ReachesOne(t.posted, first, t.base + n)
  {
    hide PktCount;
    BurstReaches(t, first);
    forall j | first <= j < |t.posted| && FirstIdx(t.posted, j) < t.base + n
      ensures Gid(t.posted, j) == Gid(t.posted, first)
    {
      FirstIdxMono(t.posted, j + 1, |t.posted|);
      FirstIdxMono(t.posted, first, j);
      BurstReaches(t, j);
    }
  }

  lemma BurstReaches(t: Flow, j: nat)
    requires Shape(t) && j < |t.posted| && FirstIdx(t.posted, j) < |t.log|
    ensures t.log[FirstIdx(t.posted, j)].job == j
  {
    hide PktCount;
    var i := FirstIdx(t.posted, j);
    Locate(t.posted, i, j, t.log[i].job);
  }

  function Tiny(g: nat, aggLen: nat): SubOp {
    SubOp(Op(0, AllReduce, 0, 0, 0, Group(g, 2, 0, 0, aggLen, 0)), 0, 0, 0, aggLen)
  }

  /** Two empty sub-operations of groups 1 and 2, queued together, share the window. */
  lemma WithoutBarrierMixes(mem: seq<Byte>, cwnd: nat)
    requires cwnd >= CC_CWND_MIN
    ensures var s := Post(Post(Start(mem), Tiny(1, 1024)), Tiny(2, 1024));
      && Shape(s)
      && Sane(ShiftSend(s, cwnd)) && !Unmixed(ShiftSend(s, cwnd))
      && !CanPost(Post(Start(mem), Tiny(1, 1024)), Tiny(2, 1024))
  {
    var s1 := Post(Start(mem), Tiny(1, 1024));
    var s := Post(s1, Tiny(2, 1024));
    assert Gid(s1.posted, 0) == 1;
    assert FirstIdx(s.posted, 1) == 1;
    assert Gid(s.posted, 0) == 1 && Gid(s.posted, 1) == 2;
    assert Shape(s) && Room(s, cwnd) == 10;
    hide Shape, Burst, CanPost;
    BurstUnmixedIff(s, 10);
  }

  // ----- window size against switch memory -----

  ghost predicate WithinHalf(s: Flow, H: nat) {
    && Sane(s)
    && s.limit <= H && Win(s) <= H
    && (forall j :: 0 <= j < |s.posted| ==> s.posted[j].sub.aggLen / 2 <= H)
  }

  lemma {:induction false} BurstWithin(s: Flow, lookedEmpty: bool, n: nat, H: nat)
    requires WithinHalf(s, H) && Win(s) + n <= H
    ensures WithinHalf(Burst(s, lookedEmpty, n), H)
    decreases n
  {
    hide PktCount;
    if n != 0 && CanGen(s, lookedEmpty) {
      GenSane(s);
      BurstWithin(Gen(s), lookedEmpty, n - 1, H);
    }
  }

  /** On every run whose sub-operations all have at most 2H+1 aggregators, with H at least the
      initial limit of 10, no window ever exceeds H: half the aggregators when they all have equally
      many. */
  lemma {:induction false} WindowWithinHalf(ss: seq<Flow>, es: seq<Event>, R: Results, H: nat, i: nat)
    requires Run(ss, es, R) && i < |ss| && H >= CC_CWND_MIN
    requires forall k :: 0 <= k < |es| && es[k].Posted? ==> es[k].sub.aggLen / 2 <= H
    ensures WithinHalf(ss[i], H)
  {
    hide PktCount;
    AlwaysInv(ss, es, R, i);
    if i > 0 {
      WindowWithinHalf(ss, es, R, H, i - 1);
      AlwaysInv(ss, es, R, i - 1);
      assert Next(ss[i - 1], es[i - 1], ss[i], R);
      WithinStep(ss[i - 1], es[i - 1], ss[i], R, H);
    }
  }

  lemma WithinStep(s: Flow, e: Event, t: Flow, R: Results, H: nat)
    requires InvM(s, R) && InvM(t, R) && WithinHalf(s, H) && Next(s, e, t, R)
    requires e.Posted? ==> e.sub.aggLen / 2 <= H
    ensures WithinHalf(t, H)
  {
    hide PktCount;
    hide OneGroup, GroupNow, JobsOk, MemoryRight, PacketsRight;
    match e
    case Shifted => ShiftAckFrame(s);
    case Sending(cwnd) => BurstWithin(s, Win(s) == 0, Room(s, cwnd), H);
    case _ =>
  }

  /** The limit is half the aggregators of the sub-operation that the newest packet belongs to. */
  predicate LimitRight(s: Flow) {
    if s.log == [] then s.limit == CC_CWND_MIN
    else s.log[|s.log| - 1].job < |s.posted| && s.limit == s.posted[s.log[|s.log| - 1].job].sub.aggLen / 2
  }

  lemma {:induction false} BurstLimitRight(s: Flow, lookedEmpty: bool, n: nat)
    requires Shape(s) && LimitRight(s) && Win(s) + n <= MAX_WIN_LEN - 1
    ensures LimitRight(Burst(s, lookedEmpty, n))
    decreases n
  {
    hide PktCount, MakePacket, Serials;
    if n != 0 && CanGen(s, lookedEmpty) {
      GenShape(s);
      MoreSent(s);
      hide Shape;
      BurstLimitRight(Gen(s), lookedEmpty, n - 1);
    }
  }

  /** Within a sub-operation the newest packet is its own. */
  lemma MoreSent(s: Flow)
    requires Shape(s) && LimitRight(s) && s.popped < |s.posted|
    ensures LimitRight(Gen(s))
  {
    hide PktCount, MakePacket, Serials;
    if s.sent > 0 {
      var i := |s.log| - 1;
      Locate(s.posted, i, s.popped, s.log[i].job);
    }
  }

  lemma {:induction false} AlwaysLimitRight(ss: seq<Flow>, es: seq<Event>, R: Results, i: nat)
    requires Run(ss, es, R) && i < |ss|
    ensures LimitRight(ss[i])
  {
    hide PktCount;
    if i > 0 {
      AlwaysLimitRight(ss, es, R, i - 1);
      AlwaysInv(ss, es, R, i - 1);
      assert Next(ss[i - 1], es[i - 1], ss[i], R);
      StepLimitRight(ss[i - 1], es[i - 1], ss[i], R);
    }
  }

  lemma StepLimitRight(s: Flow, e: Event, t: Flow, R: Results)
    requires InvM(s, R) && LimitRight(s) && Next(s, e, t, R)
    ensures LimitRight(t)
  {
    hide PktCount, OneGroup, GroupNow, JobsOk, MemoryRight, PacketsRight, MakePacket, Serials, FirstIdx, Received, Burst, ShiftSend;
    match e
    case Shifted => ShiftAckFrame(s);
    case Sending(cwnd) => SendLimitRight(s, cwnd);
    case _ => hide Shape;
  }

  lemma SendLimitRight(s: Flow, cwnd: nat)
    requires Inv(s) && LimitRight(s)
    ensures LimitRight(ShiftSend(s, cwnd))
  {
    hide PktCount, OneGroup, GroupNow, Burst, FirstIdx, LimitRight;
    BurstLimitRight(s, Win(s) == 0, Room(s, cwnd));
  }

  /** The limit of a new group takes effect only after its first burst, whose length is the room
      computed from the old limit, or the amount of queued work if that is less. So the burst stays
      within half the new group's aggregators exactly when one of the two does. */
  lemma FirstBurstLength(s: Flow, cwnd: nat)
    requires Shape(s) && s.base == |s.log| && s.sent == 0 && s.popped < |s.posted|
    ensures Sane(ShiftSend(s, cwnd))
    ensures var half, queued := s.posted[s.popped].sub.aggLen / 2, FirstIdx(s.posted, |s.posted|) - |s.log|;
      && Win(ShiftSend(s, cwnd)) == Min(Room(s, cwnd), queued)
      && (Win(ShiftSend(s, cwnd)) <= half <==> Room(s, cwnd) <= half || queued <= half)
  {
    hide Burst, Shape, Sane, FirstIdx, PktCount;
    SaneShape(s);
    BurstLength(s, Room(s, cwnd));
  }

  lemma SaneShape(s: Flow)
    requires Shape(s)
    ensures Sane(s) && s.base <= |s.log|
  {}

  lemma BurstLength(s: Flow, n: nat)
    requires Shape(s) && s.base == |s.log| && n <= MAX_WIN_LEN - 1
    ensures Sane(Burst(s, true, n))
    ensures Win(Burst(s, true, n)) == Min(n, FirstIdx(s.posted, |s.posted|) - |s.log|)
  {
    hide PktCount, Burst, FirstIdx;
    BurstFills(s, n);
  }

  /** A first group with eight aggregators per worker starts with ten outstanding packets: more than
      half, and even more than all of them. The source assumes, beside the initial limit of ten, that
      ten packets per worker are at most half the switch memory; `InitialLimitHarmless` is that case. */
  lemma StaleLimitExceeds(mem: seq<Byte>, cwnd: nat, sub: SubOp, s: Flow)
    requires cwnd >= CC_CWND_MIN && JobOk(sub, |mem|)
    requires sub.data == 0 && sub.size == 2560 && sub.aggLen == 8 && s == Post(Start(mem), sub)
    ensures Shape(s) && CanPost(Start(mem), sub)
    ensures Win(ShiftSend(s, cwnd)) == 10 > sub.aggLen
  {
    StaleStart(mem, cwnd, sub, s);
    hide *;
    StaleBurst(s, cwnd);
  }

  lemma StaleBurst(s: Flow, cwnd: nat)
    requires Shape(s) && Room(s, cwnd) == 10
    requires s.base == |s.log| == 0 && s.sent == 0 == s.popped && |s.posted| == 1 && FirstIdx(s.posted, |s.posted|) == 10
    ensures Sane(s) && Win(ShiftSend(s, cwnd)) == 10
  {
    hide Burst, PktCount, FirstIdx, ShiftSend, Room;
    FirstBurstLength(s, cwnd);
  }

  lemma StaleStart(mem: seq<Byte>, cwnd: nat, sub: SubOp, s: Flow)
    requires cwnd >= CC_CWND_MIN && JobOk(sub, |mem|)
    requires sub.data == 0 && sub.size == 2560 && sub.aggLen == 8 && s == Post(Start(mem), sub)
    ensures Shape(s) && CanPost(Start(mem), sub) && Room(s, cwnd) == 10
    ensures s.base == |s.log| == 0 && s.sent == 0 == s.popped && |s.posted| == 1
    ensures FirstIdx(s.posted, |s.posted|) == 10
  {
    hide MakePacket, Serials;
    var n := |s.posted|;
    assert FirstIdx(s.posted, n - 1) == 0;
    assert PktCount(sub.size) == 10;
    hide PktCount;
    assert FirstIdx(s.posted, n) == FirstIdx(s.posted, n - 1) + Count(s.posted, n - 1);
  }

  /** When a group's L aggregators are divided over n workers and ten per worker are at most half of
      them, no window of any run exceeds half of its worker's aggregators, from the first burst on. */
  lemma InitialLimitHarmless(ss: seq<Flow>, es: seq<Event>, R: Results, L: nat, n: nat, i: nat)
    requires Run(ss, es, R) && i < |ss| && n > 0 && CC_CWND_MIN * n <= L / 2
    requires forall k :: 0 <= k < |es| && es[k].Posted? ==> es[k].sub.aggLen == L / n
    ensures Sane(ss[i]) && Win(ss[i]) <= L / n / 2
  {
    hide Run;
    HalfOfShare(L, n);
    WindowWithinHalf(ss, es, R, L / n / 2, i);
  }

  lemma HalfOfShare(L: nat, n: nat)
    requires n > 0 && CC_CWND_MIN * n <= L / 2
    ensures L / n / 2 >= CC_CWND_MIN
  {
    var q, r := L / n, L % n;
    assert L == q * n + r;
    TimesMono(q, 2 * CC_CWND_MIN - 1, n);
  }

  lemma TimesMono(a: nat, b: nat, n: nat)
    ensures a <= b ==> a * n <= b * n
  {}

  // ----- agreement between hosts -----

  /** Sizes of the first k jobs' sub-operations of group g, in order. */
  function Sizes(ps: seq<Job>, k: nat, g: nat): seq<nat>
    requires k <= |ps|
  {
    if k == 0 then []
    else Sizes(ps, k - 1, g) + if Gid(ps, k - 1) == g then [ps[k - 1].sub.size] else []
  }

  function Packets(sizes: seq<nat>): nat {
    if sizes == [] then 0 else Packets(sizes[..|sizes| - 1]) + PktCount(sizes[|sizes| - 1])
  }

  lemma {:induction false} SerialsBySizes(ps: seq<Job>, k: nat, g: nat)
    requires k <= |ps|
    ensures Serials(ps, k, g) == Packets(Sizes(ps, k, g))
  {
    if k > 0 {
      SerialsBySizes(ps, k - 1, g);
      var z := Sizes(ps, k, g);
      if Gid(ps, k - 1) == g {
        assert z[..|z| - 1] == Sizes(ps, k - 1, g);
      } else {
        assert z == Sizes(ps, k - 1, g);
      }
    }
  }

  lemma {:induction false} SizesPrefix(ps: seq<Job>, j: nat, k: nat, g: nat)
    requires j <= k <= |ps|
    ensures Sizes(ps, j, g) <= Sizes(ps, k, g)
    decreases k
  {
    if j < k { SizesPrefix(ps, j, k - 1, g); }
  }

  /** Two hosts that post the same sequence of sizes for group g, one possibly further along, give
      every chunk of g's n-th sub-operation the same serial number and the same aggregator,
      however differently they interleave other groups. */
  lemma HostsAgree(ps: seq<Job>, qs: seq<Job>, g: nat, j: nat, k: nat, c: nat)
    requires j < |ps| && k < |qs| && Gid(ps, j) == g == Gid(qs, k)
    requires Sizes(ps, |ps|, g) <= Sizes(qs, |qs|, g)
    requires |Sizes(ps, j, g)| == |Sizes(qs, k, g)|
    ensures ps[j].sub.size == qs[k].sub.size
    ensures Serial(ps, j, c) == Serial(qs, k, c)
    ensures var a, b := ps[j].sub, qs[k].sub;
      JobGood(ps[j], a.data + a.size) && JobGood(qs[k], b.data + b.size) && c < PktCount(a.size)
      && a.aggAddr == b.aggAddr && a.aggLen == b.aggLen ==>
        var p, q := Expected(ps[j], Serial(ps, j, c), c), Expected(qs[k], Serial(qs, k, c), c);
        p.psn == q.psn && p.aggAddr == q.aggAddr
  {
    NthSize(ps, j, g, Sizes(qs, |qs|, g));
    SizesPrefix(qs, |qs|, |qs|, g);
    NthSize(qs, k, g, Sizes(qs, |qs|, g));
    SerialsBySizes(ps, j, g);
    SerialsBySizes(qs, k, g);
    hide Sizes, Serials, Packets;
  }

  lemma NthSize(ps: seq<Job>, j: nat, g: nat, all: seq<nat>)
    requires j < |ps| && Gid(ps, j) == g && Sizes(ps, |ps|, g) <= all
    ensures var n := |Sizes(ps, j, g)|;
            n < |all| && Sizes(ps, j, g) == all[..n] && ps[j].sub.size == all[n]
  {
    SizesPrefix(ps, j + 1, |ps|, g);
    var n := |Sizes(ps, j, g)|;
    assert Sizes(ps, j + 1, g) == all[..n + 1];
    assert all[..n] == all[..n + 1][..n];
  }
}
