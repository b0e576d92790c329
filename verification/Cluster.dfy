/** Several hosts of one group and the switch between them. The switch is only this assumption: it
    answers a sequence number after every host of the group has transmitted it. */
module Cluster {
  import opened NetCommon
  import opened Transport
  import opened TransportShape
  import opened TransportMemory
  import opened TransportRuns
  import opened TransportBarrier
  import opened Modular

  /** Packets of group g that a host has generated, and so transmitted. */
  function Hi(s: Flow, g: nat): nat
    requires s.popped <= |s.posted| && (s.sent > 0 ==> s.popped < |s.posted|)
  {
    Serials(s.posted, s.popped, g) + if s.sent > 0 && Gid(s.posted, s.popped) == g then s.sent else 0
  }

  /** Packets of group g left of a host's window. */
  function Edge(s: Flow, g: nat): nat
    requires s.popped <= |s.posted| && (s.sent > 0 ==> s.popped < |s.posted|)
    requires s.base < |s.log| ==> RecOk(s.posted, s.log[s.base])
  {
    if s.base < |s.log| then
      var r := s.log[s.base];
      Serials(s.posted, r.job, g) + if Gid(s.posted, r.job) == g then r.chunk else 0
    else Hi(s, g)
  }

  ghost predicate AckedBelow(s: Flow, g: nat, n: nat)
    requires Sane(s)
  {
    forall i :: 0 <= i < |s.log| && s.acked[i] && Gid(s.posted, s.log[i].job) == g ==> SerialAt(s, i) < n
  }

  ghost predicate Behind(s: Flow, g: nat, n: nat) {
    Sane(s) && Edge(s, g) <= n && AckedBelow(s, g, n)
  }

  // ----- one host's step -----

  lemma GenEdge(s: Flow, g: nat)
    requires Sane(s) && s.popped < |s.posted|
    ensures Sane(Gen(s)) && Edge(Gen(s), g) == Edge(s, g) && Hi(s, g) <= Hi(Gen(s), g)
  {}

  lemma {:induction false} BurstEdge(s: Flow, lookedEmpty: bool, k: nat, g: nat, n: nat)
    requires Behind(s, g, n)
    ensures var t := Burst(s, lookedEmpty, k); Behind(t, g, n) && Hi(s, g) <= Hi(t, g)
    decreases k
  {
    if k != 0 && CanGen(s, lookedEmpty) {
      GenEdge(s, g);
      BurstEdge(Gen(s), lookedEmpty, k - 1, g, n);
    }
  }

  /** Job and chunk of the packet at the left edge, or of the next packet to be generated. */
  function LeftPos(s: Flow): (nat, nat) {
    if s.base < |s.log| then (s.log[s.base].job, s.log[s.base].chunk) else (s.popped, s.sent)
  }

  /** The packet after the left edge is the next chunk, or the first chunk of the next job. */
  lemma NextPos(s: Flow)
    requires Shape(s) && s.base < |s.log| && s.log[s.base].job < |s.posted|
    ensures var r := s.log[s.base];
      LeftPos(Release(s)) == if r.chunk + 1 < Count(s.posted, r.job) then (r.job, r.chunk + 1) else (r.job + 1, 0)
  {
    hide PktCount, MakePacket, Serials, Shape;
    if s.base + 1 < |s.log| { NextInside(s); } else { NextAtEnd(s); }
  }

  lemma NextInside(s: Flow)
    requires Shape(s) && s.base + 1 < |s.log|
    ensures var r, q := s.log[s.base], s.log[s.base + 1];
      r.job < |s.posted| && (q.job, q.chunk) == if r.chunk + 1 < Count(s.posted, r.job) then (r.job, r.chunk + 1) else (r.job + 1, 0)
  {
    hide PktCount, MakePacket, Serials;
    var r, q := s.log[s.base], s.log[s.base + 1];
    assert RecOk(s.posted, r) && RecOk(s.posted, q);
    if r.chunk + 1 < Count(s.posted, r.job) {
      Locate(s.posted, s.base + 1, r.job, q.job);
    } else {
      SuccessorJob(s.posted, s.base + 1, r.job, q.job);
    }
  }

  lemma NextAtEnd(s: Flow)
    requires Shape(s) && s.base + 1 == |s.log|
    ensures var r := s.log[s.base];
      r.job < |s.posted| && (s.popped, s.sent) == if r.chunk + 1 < Count(s.posted, r.job) then (r.job, r.chunk + 1) else (r.job + 1, 0)
  {
    hide PktCount, MakePacket, Serials;
    var r := s.log[s.base];
    assert RecOk(s.posted, r);
    if r.chunk + 1 < Count(s.posted, r.job) {
      LastIsOpen(s, r.job);
    } else {
      SuccessorJob(s.posted, s.base + 1, r.job, s.popped);
    }
  }

  lemma NextEdge(s: Flow, g: nat)
    requires Shape(s) && s.base < |s.log|
    ensures Sane(Release(s)) ==>
      Edge(Release(s), g) == Edge(s, g) + if Gid(s.posted, s.log[s.base].job) == g then 1 else 0
  {
    hide PktCount, MakePacket, FirstIdx;
    assert RecOk(s.posted, s.log[s.base]);
    NextPos(s);
    var r, t := s.log[s.base], Release(s);
    if Sane(t) {
      hide Shape;
      EdgeByPos(s, g);
      EdgeByPos(t, g);
    }
  }

  lemma EdgeByPos(s: Flow, g: nat)
    requires Sane(s)
    ensures var (j, c) := LeftPos(s);
      j <= |s.posted| && Edge(s, g) == Serials(s.posted, j, g) + if j < |s.posted| && Gid(s.posted, j) == g then c else 0
  {
    hide PktCount, MakePacket, Serials;
  }

  lemma SuccessorJob(ps: seq<Job>, i: nat, j: nat, k: nat)
    requires j < |ps| && k <= |ps| && i == FirstIdx(ps, j + 1)
    requires FirstIdx(ps, k) <= i && (k < |ps| ==> i < FirstIdx(ps, k + 1))
    ensures k == j + 1
  {
    if k < j + 1 { FirstIdxMono(ps, k + 1, j + 1); }
    if k > j + 1 { FirstIdxMono(ps, j + 1, k); }
  }

  lemma LastIsOpen(s: Flow, j: nat)
    requires Shape(s) && j < |s.posted|
    requires FirstIdx(s.posted, j) <= |s.log| < FirstIdx(s.posted, j + 1)
    ensures s.popped == j
  {
    hide PktCount;
    if s.popped < j { FirstIdxMono(s.posted, s.popped + 1, j); }
    if s.popped > j { FirstIdxMono(s.posted, j + 1, s.popped); }
  }

  lemma {:induction false} ShiftAckEdge(s: Flow, g: nat, n: nat)
    requires Inv(s) && Behind(s, g, n)
    ensures Behind(ShiftAck(s), g, n) && Hi(ShiftAck(s), g) == Hi(s, g)
    decreases |s.log| - s.base
  {
    if s.base < |s.log| && s.acked[s.base] {
      ReleaseKeeps(s);
      NextEdge(s, g);
      assert Gid(s.posted, s.log[s.base].job) == g ==> SerialAt(s, s.base) < n;
      ShiftAckEdge(Release(s), g, n);
    }
  }

  lemma PostEdge(s: Flow, sub: SubOp, g: nat, n: nat)
    requires Sane(s) && Behind(s, g, n) && JobOk(sub, |s.mem|)
    ensures Behind(Post(s, sub), g, n) && Hi(Post(s, sub), g) == Hi(s, g)
  {
    var t := Post(s, sub);
    var x := t.posted[|s.posted|];
    forall k, h | 0 <= k <= |s.posted| ensures Serials(t.posted, k, h) == Serials(s.posted, k, h) {
      NumberingAppend(s.posted, x, k, h);
    }
    forall i | 0 <= i < |s.log| ensures RecOk(t.posted, t.log[i]) && Gid(t.posted, t.log[i].job) == Gid(s.posted, s.log[i].job) {
      assert RecOk(s.posted, s.log[i]);
    }
  }

  lemma RxEdge(s: Flow, p: RxPacket, u: nat, R: Results, g: nat, n: nat)
    requires Inv(s) && Behind(s, g, n) && Genuine(s, p, u, R)
    requires p.groupId == g ==> u < n
    ensures Behind(Rx(s, p), g, n) && Hi(Rx(s, p), g) == Hi(s, g)
  {
    hide PktCount, MakePacket, FirstIdx, Serials, Received;
    RxKeeps(s, p);
    var f := Find(s, p.groupId, p.psn);
    if f.Some? && !s.acked[f.value] {
      FindGenuine(s, u, f.value);
      WindowIsLive(s, f.value);
      WindowIsLive(s, s.base);
      assert Gid(s.posted, s.log[f.value].job) == s.group;
      var t := Rx(s, p);
      forall i | 0 <= i < |t.log| && t.acked[i] && Gid(t.posted, t.log[i].job) == g ensures SerialAt(t, i) < n {
        assert SerialAt(t, i) == SerialAt(s, i);
      }
    }
  }

  lemma MemberKeeps(s: Flow, e: Event, t: Flow, R: Results, g: nat, n: nat)
    requires InvM(s, R) && InvM(t, R) && Next(s, e, t, R) && Behind(s, g, n)
    requires e.Arrived? && e.pkt.groupId == g ==> e.serial < n
    ensures Behind(t, g, n) && Hi(s, g) <= Hi(t, g)
  {
    hide JobsOk, MemoryRight, PacketsRight;
    match e
    case Posted(sub) => PostEdge(s, sub, g, n);
    case Written(mem) => SameNumbers(s, t, g, n);
    case Arrived(p, u) => RxEdge(s, p, u, R, g, n);
    case Shifted => ShiftAckEdge(s, g, n);
    case Sending(cwnd) => BurstEdge(s, Win(s) == 0, Room(s, cwnd), g, n);
    case TimedOut => SameNumbers(s, t, g, n);
  }

  lemma SameNumbers(s: Flow, t: Flow, g: nat, n: nat)
    requires Behind(s, g, n) && Sane(t)
    requires t.posted == s.posted && t.log == s.log && t.acked == s.acked && t.base == s.base
    requires t.popped == s.popped && t.sent == s.sent
    ensures Behind(t, g, n) && Hi(t, g) == Hi(s, g)
  {
    forall i | 0 <= i < |t.log| && t.acked[i] && Gid(t.posted, t.log[i].job) == g ensures SerialAt(t, i) < n {
      assert SerialAt(t, i) == SerialAt(s, i);
    }
  }

  // ----- runs of the whole group -----

  /** Group g, with `len` aggregators at `addr` for this worker index. */
  datatype Setup = Setup(g: nat, addr: nat, len: nat)

  ghost predicate Fits(sub: SubOp, c: Setup) {
    && sub.aggLen / 2 <= c.len / 2
    && (sub.op.group.id == c.g ==> sub.aggLen == c.len && sub.aggAddr == c.addr)
  }

  /** Host h takes event e. */
  ghost predicate GroupNext(ms: seq<Flow>, h: nat, e: Event, ns: seq<Flow>, c: Setup, R: Results) {
    && h < |ms| == |ns|
    && ns == ms[h := ns[h]]
    && Next(ms[h], e, ns[h], R)
    && (e.Posted? ==> Fits(e.sub, c))
    && (e.Arrived? && e.pkt.groupId == c.g ==>
          forall b :: 0 <= b < |ms| && Sane(ms[b]) ==> e.serial < Hi(ms[b], c.g))
  }

  ghost predicate GroupRun(ss: seq<seq<Flow>>, hs: seq<nat>, es: seq<Event>, c: Setup, R: Results) {
    && |ss| == |es| + 1 && |hs| == |es|
    && (forall h :: 0 <= h < |ss[0]| ==> exists mem :: ss[0][h] == Start(mem))
    && (forall i :: 0 <= i < |es| ==> GroupNext(ss[i], hs[i], es[i], ss[i + 1], c, R))
  }

  ghost predicate HostOk(s: Flow, c: Setup, R: Results) {
    && InvM(s, R)
    && WithinHalf(s, c.len / 2)
    && (forall j :: 0 <= j < |s.posted| ==> Fits(s.posted[j].sub, c))
  }

  ghost predicate GroupInv(ms: seq<Flow>, c: Setup, R: Results) {
    && (forall a :: 0 <= a < |ms| ==> HostOk(ms[a], c, R))
    && (forall a, b :: 0 <= a < |ms| && 0 <= b < |ms| ==> Behind(ms[a], c.g, Hi(ms[b], c.g)))
  }

  lemma HostStep(s: Flow, e: Event, t: Flow, c: Setup, R: Results)
    requires HostOk(s, c, R) && Next(s, e, t, R) && (e.Posted? ==> Fits(e.sub, c))
    ensures HostOk(t, c, R)
  {
    NextKeeps(s, e, t, R);
    WithinStep(s, e, t, R, c.len / 2);
    PostedOnly(s, e, t, R);
    hide InvM, WithinHalf, Next, Fits;
  }

  lemma PostedOnly(s: Flow, e: Event, t: Flow, R: Results)
    requires InvM(s, R) && Next(s, e, t, R)
    ensures if e.Posted? then |t.posted| == |s.posted| + 1 && t.posted[..|s.posted|] == s.posted && t.posted[|s.posted|].sub == e.sub
            else t.posted == s.posted
  {
    hide OneGroup, GroupNow, JobsOk, MemoryRight, PacketsRight;
    match e
    case Shifted => ShiftAckFrame(s);
    case Sending(cwnd) => ShiftSendKeeps(s, cwnd);
    case _ =>
  }

  lemma BehindMore(s: Flow, g: nat, n: nat, m: nat)
    requires Behind(s, g, n) && n <= m
    ensures Behind(s, g, m)
  {}

  lemma GroupNextKeeps(ms: seq<Flow>, h: nat, e: Event, ns: seq<Flow>, c: Setup, R: Results)
    requires GroupInv(ms, c, R) && GroupNext(ms, h, e, ns, c, R)
    ensures GroupInv(ns, c, R)
  {
    HostStep(ms[h], e, ns[h], c, R);
    forall a, b | 0 <= a < |ns| && 0 <= b < |ns| ensures Behind(ns[a], c.g, Hi(ns[b], c.g)) {
      var n := Hi(ms[b], c.g);
      assert HostOk(ms[a], c, R) && HostOk(ms[b], c, R);
      assert Behind(ms[a], c.g, n);
      if a == h {
        MemberKeeps(ms[h], e, ns[h], R, c.g, n);
      }
      if b == h {
        assert Behind(ms[h], c.g, n);
        MemberKeeps(ms[h], e, ns[h], R, c.g, n);
      }
      BehindMore(ns[a], c.g, n, Hi(ns[b], c.g));
    }
  }

  lemma {:induction false} AlwaysGroupInv(ss: seq<seq<Flow>>, hs: seq<nat>, es: seq<Event>, c: Setup, R: Results, i: nat)
    requires GroupRun(ss, hs, es, c, R) && i < |ss| && c.len / 2 >= CC_CWND_MIN
    ensures GroupInv(ss[i], c, R)
  {
    if i > 0 {
      AlwaysGroupInv(ss, hs, es, c, R, i - 1);
      assert GroupNext(ss[i - 1], hs[i - 1], es[i - 1], ss[i], c, R);
      GroupNextKeeps(ss[i - 1], hs[i - 1], es[i - 1], ss[i], c, R);
    }
  }

  // ----- slot safety -----

  /** Two packets outstanding at any two hosts of the group are less than 2*(len/2) apart. */
  lemma OutstandingAreClose(ms: seq<Flow>, c: Setup, R: Results, a: nat, i: nat, b: nat, k: nat)
    requires GroupInv(ms, c, R) && a < |ms| && b < |ms|
    requires ms[a].base <= i < |ms[a].log| && Gid(ms[a].posted, ms[a].log[i].job) == c.g
    requires ms[b].base <= k < |ms[b].log| && Gid(ms[b].posted, ms[b].log[k].job) == c.g
    ensures SerialAt(ms[a], i) < SerialAt(ms[b], k) + 2 * (c.len / 2)
  {
    var s, t := ms[a], ms[b];
    assert HostOk(s, c, R) && HostOk(t, c, R) && Behind(s, c.g, Hi(t, c.g));
    EdgeOfWindow(s, i, c.g);
    EdgeOfWindow(t, k, c.g);
    HiOfWindow(t, k, c.g);
  }

  lemma EdgeOfWindow(s: Flow, i: nat, g: nat)
    requires Inv(s) && s.base <= i < |s.log| && Gid(s.posted, s.log[i].job) == g
    ensures SerialAt(s, i) == Edge(s, g) + (i - s.base)
  {
    WindowIsLive(s, i);
    WindowIsLive(s, s.base);
    assert Gid(s.posted, s.log[s.base].job) == g;
    Contiguous(s, s.base, i);
  }

  lemma HiOfWindow(s: Flow, i: nat, g: nat)
    requires Inv(s) && s.base <= i < |s.log| && Gid(s.posted, s.log[i].job) == g
    ensures Hi(s, g) == SerialAt(s, i) + (|s.log| - i)
  {
    hide PktCount;
    var j := s.log[i].job;
    WindowIsLive(s, i);
    Together(s.posted, j, s.popped, g);
  }

  function Slot(serial: nat, c: Setup): nat
    requires c.len > 0
  {
    (c.addr + Psn(serial) % c.len) % 0x10000
  }

  predicate Distinct(u: nat, v: nat, n: nat)
    requires n > 0
  {
    Psn(u) % n != Psn(v) % n
  }

  lemma CloseDistinct(u: nat, v: nat, n: nat)
    requires 0 < n && u < v < u + n && TWO32 % n == 0
    ensures Distinct(u, v, n)
  {
    ModOfPsn(u, n);
    ModOfPsn(v, n);
    if u % n == v % n {
      var q := SameMod(u, v, n);
      MulAtLeast(q, n);
    }
  }

  lemma SlotsDiffer(u: nat, v: nat, c: Setup)
    requires c.len > 0 && WrapSafe(c.len) && c.addr + c.len <= 0x10000
    requires u < v + 2 * (c.len / 2) && v < u + 2 * (c.len / 2) && Slot(u, c) == Slot(v, c)
    ensures u == v
  {
    assert Psn(u) % c.len == Psn(v) % c.len by {
      hide Psn;
      assert Slot(u, c) == c.addr + Psn(u) % c.len && Slot(v, c) == c.addr + Psn(v) % c.len;
    }
    hide Slot, WrapSafe, Distinct;
    assert !Distinct(u, v, c.len) && !Distinct(v, u, c.len) by { SameSlot(u, v, c.len); }
    SlotsDistinctIff(c.len);
  }

  lemma SameSlot(u: nat, v: nat, n: nat)
    requires n > 0 && Psn(u) % n == Psn(v) % n
    ensures !Distinct(u, v, n) && !Distinct(v, u, n)
  {}

  lemma ModOfPsn(u: nat, n: nat)
    requires n > 0 && TWO32 % n == 0
    ensures Psn(u) % n == u % n
  {
    var q, m := u / TWO32, TWO32 / n;
    assert u == q * TWO32 + Psn(u) && TWO32 == m * n;
    assert q * TWO32 == (q * m) * n by { assert q * (m * n) == (q * m) * n; }
    AddMultiple(q * m, Psn(u), n);
  }

  /** Aggregator-slot safety. In every reachable state of the group, two packets with different
      sequence numbers that are outstanding at any two hosts use different switch slots. */
  lemma SlotSafety(ss: seq<seq<Flow>>, hs: seq<nat>, es: seq<Event>, c: Setup, R: Results, n: nat,
                   a: nat, i: nat, b: nat, k: nat)
    requires GroupRun(ss, hs, es, c, R) && n < |ss| && c.len / 2 >= CC_CWND_MIN
    requires WrapSafe(c.len) && c.addr + c.len <= 0x10000
    requires a < |ss[n]| && ss[n][a].base <= i < |ss[n][a].log| && ss[n][a].log[i].pkt.groupId == c.g
    requires b < |ss[n]| && ss[n][b].base <= k < |ss[n][b].log| && ss[n][b].log[k].pkt.groupId == c.g
    requires ss[n][a].log[i].pkt.aggAddr == ss[n][b].log[k].pkt.aggAddr
    ensures ss[n][a].log[i].pkt.psn == ss[n][b].log[k].pkt.psn
    ensures Sane(ss[n][a]) && Sane(ss[n][b]) && SerialAt(ss[n][a], i) == SerialAt(ss[n][b], k)
  {
    AlwaysGroupInv(ss, hs, es, c, R, n);
    var ms := ss[n];
    SlotOfPacket(ms[a], c, R, i);
    SlotOfPacket(ms[b], c, R, k);
    OutstandingAreClose(ms, c, R, a, i, b, k);
    OutstandingAreClose(ms, c, R, b, k, a, i);
    var u, v := SerialAt(ms[a], i), SerialAt(ms[b], k);
    hide *;
    SlotsDiffer(u, v, c);
  }

  lemma SlotOfPacket(s: Flow, c: Setup, R: Results, i: nat)
    requires HostOk(s, c, R) && i < |s.log| && s.log[i].pkt.groupId == c.g && c.len > 0
    ensures Sane(s) && Gid(s.posted, s.log[i].job) == c.g
    ensures s.log[i].pkt.aggAddr == Slot(SerialAt(s, i), c) && s.log[i].pkt.psn == Psn(SerialAt(s, i))
  {
    assert PacketRight(s.posted, |s.mem|, s.log[i]);
    assert Fits(s.posted[s.log[i].job].sub, c);
  }

  // ----- when the number of aggregators does not divide 2^32 -----

  /** The numbers of aggregators for which the 32-bit wrap is harmless: divisors of 2^32 and odd
      divisors of 2^32 + 1. */
  predicate WrapSafe(n: nat)
    requires n > 0
  {
    TWO32 % n == 0 || (n % 2 == 1 && TWO32 % n == n - 1)
  }

  /** Slots of close sequence numbers stay distinct across the 32-bit wrap exactly for those. */
  lemma SlotsDistinctIff(n: nat)
    requires 0 < n < TWO32
    ensures (forall u: nat, v: nat :: u < v < u + 2 * (n / 2) ==> Distinct(u, v, n)) <==> WrapSafe(n)
  {
    var r := TWO32 % n;
    if r == 0 || (n % 2 == 1 && r == n - 1) {
      forall u: nat, v: nat | u < v < u + 2 * (n / 2) ensures Distinct(u, v, n) {
        if r == 0 {
          CloseDistinct(u, v, n);
        } else {
          DistinctAcrossOddWrap(u, v, n);
        }
      }
    } else {
      var u, v := TWO32 - 1, TWO32 - 1 + r;
      assert Psn(u) == TWO32 - 1 && Psn(v) == r - 1;
      var m := TWO32 / n;
      assert TWO32 - 1 == m * n + (r - 1);
      AddMultiple(m, r - 1, n);
      assert u < v < u + 2 * (n / 2);
      assert !Distinct(u, v, n);
    }
  }

  lemma DistinctAcrossOddWrap(u: nat, v: nat, n: nat)
    requires 0 < n < TWO32 && TWO32 % n == n - 1
    requires u < v < u + n - 1
    ensures Distinct(u, v, n)
  {
    var x, y := Psn(u), Psn(v);
    if x % n == y % n {
      var d := v - u;
      PsnDistance(u, v);
      var q := SameMod(x, y, n);
      var m := TWO32 / n;
      assert TWO32 == m * n + (n - 1);
      if y - x == d {
        MulAtLeast(q, n);
      } else {
        assert d == q * n + TWO32;
        assert d == (q + m) * n + (n - 1) by { assert (q + m) * n == q * n + m * n; }
        ModUnique(d, n, q + m, n - 1);
        SmallMod(d, n);
      }
    }
  }
}
