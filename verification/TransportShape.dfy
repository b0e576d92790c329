/** The window invariant, for every step and with no assumption on what arrives. */
module TransportShape {
  import opened NetCommon
  import opened Transport

  /** Where log, window and queues stand relative to each other: entry i of the log is the packet
      that FirstIdx says, the window is at most 1023 long, and responses stop exactly before the
      sub-operation that owns the left edge. */
  ghost predicate Shape(s: Flow) {
    && Sane(s)
    && Win(s) <= MAX_WIN_LEN - 1
    && |s.log| == FirstIdx(s.posted, s.popped) + s.sent
    && FirstIdx(s.posted, s.done) <= s.base
    && (s.done < s.popped ==> s.base < FirstIdx(s.posted, s.done + 1))
    && (forall i :: 0 <= i < |s.log| ==> i == FirstIdx(s.posted, s.log[i].job) + s.log[i].chunk)
    && (forall i :: 0 <= i < s.base ==> s.acked[i])
    && |s.answered| == s.done
    && (forall k :: 0 <= k < s.done ==> s.answered[k] == k)
  }

  /** Every unanswered sub-operation belongs to one group. */
  ghost predicate OneGroup(s: Flow) {
    forall j :: s.done <= j < |s.posted| ==> Gid(s.posted, j) == Gid(s.posted, s.done)
  }

  /** While something is in the window or half sent, the current group is that group. */
  ghost predicate GroupNow(s: Flow)
    requires Sane(s)
  {
    && (s.base < |s.log| ==> s.group == Gid(s.posted, s.log[s.base].job))
    && (s.sent > 0 ==> s.group == Gid(s.posted, s.popped))
  }

  ghost predicate Inv(s: Flow) {
    Shape(s) && OneGroup(s) && GroupNow(s)
  }

  // ----- numbering lemmas -----

  lemma {:induction false} FirstIdxMono(ps: seq<Job>, a: nat, b: nat)
    requires a <= b <= |ps|
    ensures FirstIdx(ps, a) + (b - a) <= FirstIdx(ps, b)
    decreases b - a
  {
    if a < b { FirstIdxMono(ps, a, b - 1); }
  }

  /** A log index belongs to one job only. */
  lemma Locate(ps: seq<Job>, i: nat, a: nat, b: nat)
    requires a < |ps| && b < |ps|
    requires FirstIdx(ps, a) <= i < FirstIdx(ps, a + 1)
    requires FirstIdx(ps, b) <= i < FirstIdx(ps, b + 1)
    ensures a == b
  {
    if a < b { FirstIdxMono(ps, a + 1, b); }
    if b < a { FirstIdxMono(ps, b + 1, a); }
  }

  lemma {:induction false} NumberingAppend(ps: seq<Job>, x: Job, k: nat, g: nat)
    requires k <= |ps|
    ensures FirstIdx(ps + [x], k) == FirstIdx(ps, k)
    ensures Serials(ps + [x], k, g) == Serials(ps, k, g)
  {
    if k > 0 { NumberingAppend(ps, x, k - 1, g); }
  }

  /** Among jobs of one group, serial numbers and log indices advance together. */
  lemma {:induction false} Together(ps: seq<Job>, a: nat, b: nat, g: nat)
    requires a <= b <= |ps|
    requires forall j :: a <= j < b ==> Gid(ps, j) == g
    ensures Serials(ps, b, g) - Serials(ps, a, g) == FirstIdx(ps, b) - FirstIdx(ps, a)
    decreases b - a
  {
    if a < b { Together(ps, a, b - 1, g); }
  }

  // ----- facts about the window -----

  /** Entries of the window belong to sub-operations that have not been answered (and freed). */
  lemma WindowIsLive(s: Flow, i: nat)
    requires Shape(s) && s.base <= i < |s.log|
    ensures s.done <= s.log[i].job <= s.popped
    ensures i == s.base ==> s.log[i].job == s.done
    ensures s.log[i].job == s.popped ==> s.log[i].chunk < s.sent
  {
    hide PktCount;
    var j := s.log[i].job;
    if j < s.done { FirstIdxMono(s.posted, j + 1, s.done); }
    if s.popped < j { FirstIdxMono(s.posted, s.popped + 1, j); }
    if i == s.base && s.done < j {
      FirstIdxMono(s.posted, s.done + 1, j);
    }
  }

  ghost function SerialAt(s: Flow, i: nat): nat
    requires Sane(s) && i < |s.log|
  {
    Serial(s.posted, s.log[i].job, s.log[i].chunk)
  }

  /** The window carries consecutive serial numbers. */
  lemma Contiguous(s: Flow, i: nat, k: nat)
    requires Inv(s) && s.base <= i < |s.log| && s.base <= k < |s.log|
    ensures SerialAt(s, k) - SerialAt(s, i) == k - i
  {
    hide PktCount;
    var a, b := s.log[i].job, s.log[k].job;
    WindowIsLive(s, i);
    WindowIsLive(s, k);
    var g := Gid(s.posted, a);
    if a <= b { Together(s.posted, a, b, g); } else { Together(s.posted, b, a, g); }
  }

  /** Two's-complement style facts about 32-bit sequence numbers. */
  lemma PsnDistance(a: nat, b: nat)
    requires a <= b < a + TWO32
    ensures (Psn(b) - Psn(a)) % TWO32 == b - a
  {
    var qa, qb := a / TWO32, b / TWO32;
    assert a == qa * TWO32 + Psn(a) && b == qb * TWO32 + Psn(b);
    assert qb == qa || qb == qa + 1;
  }

  /** No two packets of the window share a 32-bit sequence number. */
  lemma NamesUnique(s: Flow, gid: nat, psn: nat, i: nat, k: nat)
    requires Inv(s) && Names(s, gid, psn, i) && Names(s, gid, psn, k)
    ensures i == k
  {
    hide PktCount;
    Contiguous(s, i, k);
    if i <= k {
      PsnDistance(SerialAt(s, i), SerialAt(s, k));
    } else {
      PsnDistance(SerialAt(s, k), SerialAt(s, i));
    }
  }

  /** The position test on 32-bit numbers is exact: the in-window sequence numbers, and no others,
      lie within the distance of the right edge from the left edge, wrap-around included. */
  lemma FindByDistance(s: Flow, gid: nat, psn: nat)
    requires Inv(s) && psn < TWO32 && s.base < |s.log|
    ensures var left, right := Psn(SerialAt(s, s.base)), Psn(SerialAt(s, |s.log| - 1));
            Find(s, gid, psn) ==
              if gid == s.group && (psn - left) % TWO32 <= (right - left) % TWO32
              then Some(s.base + (psn - left) % TWO32) else None
  {
    hide PktCount, FirstIdx, Serials, MakePacket, Psn;
    Contiguous(s, s.base, |s.log| - 1);
    PsnDistance(SerialAt(s, s.base), SerialAt(s, |s.log| - 1));
    match Find(s, gid, psn)
    case Some(i) => NamedDistance(s, gid, psn, i);
    case None =>
      var d := (psn - Psn(SerialAt(s, s.base))) % TWO32;
      if gid == s.group && d < Win(s) { DistanceNames(s, psn, d); }
  }

  lemma NamedDistance(s: Flow, gid: nat, psn: nat, i: nat)
    requires Inv(s) && Names(s, gid, psn, i)
    ensures (psn - Psn(SerialAt(s, s.base))) % TWO32 == i - s.base
  {
    hide PktCount;
    Contiguous(s, s.base, i);
    PsnDistance(SerialAt(s, s.base), SerialAt(s, i));
  }

  lemma DistanceNames(s: Flow, psn: nat, d: nat)
    requires Inv(s) && psn < TWO32 && d < Win(s)
    requires d == (psn - Psn(SerialAt(s, s.base))) % TWO32
    ensures Names(s, s.group, psn, s.base + d)
  {
    hide PktCount;
    Contiguous(s, s.base, s.base + d);
    PsnFromDistance(SerialAt(s, s.base), psn);
  }

  lemma PsnFromDistance(a: nat, psn: nat)
    requires psn < TWO32
    ensures Psn(a + (psn - Psn(a)) % TWO32) == psn
  {
    var q := a / TWO32;
    assert a == q * TWO32 + Psn(a);
    var d := (psn - Psn(a)) % TWO32;
    assert d == psn - Psn(a) || d == psn - Psn(a) + TWO32;
  }

  /** A genuine packet, one sent for serial number u within the last 2^32 of its group, is found
      exactly when u itself is in the window. */
  lemma FindGenuine(s: Flow, u: nat, i: nat)
    requires Inv(s) && s.base <= i < |s.log|
    requires u <= SerialAt(s, |s.log| - 1) < u + TWO32
    ensures Find(s, s.group, Psn(u)) == Some(i) <==> SerialAt(s, i) == u
  {
    hide PktCount;
    Contiguous(s, i, |s.log| - 1);
    var v := SerialAt(s, i);
    if v == u {
      assert Names(s, s.group, Psn(u), i);
      NamesUnique(s, s.group, Psn(u), i, Find(s, s.group, Psn(u)).value);
    } else if u < v {
      PsnDistance(u, v);
    } else {
      PsnDistance(v, u);
    }
  }

  // ----- preservation -----

  lemma PostKeeps(s: Flow, sub: SubOp)
    requires Inv(s) && JobOk(sub, |s.mem|)
    requires s.done < |s.posted| ==> Gid(s.posted, s.done) == sub.op.group.id
    ensures Inv(Post(s, sub))
  {
    hide PktCount;
    var t := Post(s, sub);
    forall k | 0 <= k <= |s.posted| ensures FirstIdx(t.posted, k) == FirstIdx(s.posted, k) {
      NumberingAppend(s.posted, Job(sub, s.mem[sub.data..sub.data + sub.size]), k, 0);
    }
    forall i | 0 <= i < |s.log| ensures RecOk(t.posted, t.log[i]) {
      assert RecOk(s.posted, s.log[i]);
    }
    forall j | s.done <= j < |t.posted| ensures Gid(t.posted, j) == sub.op.group.id {
      if j < |s.posted| { assert Gid(s.posted, j) == Gid(s.posted, s.done); }
    }
    if s.base < |s.log| { WindowIsLive(s, s.base); }
  }

  lemma GenShape(s: Flow)
    requires Shape(s) && s.popped < |s.posted| && Win(s) < MAX_WIN_LEN - 1
    ensures Shape(Gen(s))
  {
    hide PktCount;
    if s.done == s.popped {
      assert FirstIdx(s.posted, s.done) <= s.base <= |s.log| == FirstIdx(s.posted, s.done) + s.sent;
    }
  }

  lemma GenKeeps(s: Flow, lookedEmpty: bool)
    requires Inv(s) && CanGen(s, lookedEmpty) && Win(s) < MAX_WIN_LEN - 1
    requires lookedEmpty ==> s.base == |s.log| || s.done < |s.posted|
    ensures Inv(Gen(s)) && Win(Gen(s)) == Win(s) + 1
    ensures Gen(s).done == s.done && Gen(s).base == s.base && Gen(s).posted == s.posted
  {
    GenShape(s);
    if s.base < |s.log| { WindowIsLive(s, s.base); }
    hide FirstIdx, MakePacket;
    assert s.base == |s.log| ==> Gen(s).log[s.base].job == s.popped;
  }

  lemma {:induction false} BurstKeeps(s: Flow, lookedEmpty: bool, n: nat)
    requires Inv(s) && Win(s) + n <= MAX_WIN_LEN - 1
    ensures var t := Burst(s, lookedEmpty, n);
            Inv(t) && Win(s) <= Win(t) <= Win(s) + n && t.done == s.done && t.base == s.base && t.posted == s.posted
    decreases n
  {
    hide PktCount;
    if n != 0 && CanGen(s, lookedEmpty) {
      GenKeeps(s, lookedEmpty);
      hide Shape, OneGroup, GroupNow;
      BurstKeeps(Gen(s), lookedEmpty, n - 1);
    }
  }

  lemma ShiftSendKeeps(s: Flow, cwnd: nat)
    requires Inv(s)
    ensures var t := ShiftSend(s, cwnd);
      Inv(t) && Win(s) <= Win(t) && t.done == s.done && t.base == s.base && t.posted == s.posted
  {
    BurstKeeps(s, Win(s) == 0, Room(s, cwnd));
  }

  lemma AckKeeps(s: Flow, i: nat, p: Payload)
    requires Inv(s) && i < |s.log|
    ensures Inv(Ack(s, i, p))
  {
    hide PktCount, FirstIdx;
  }

  lemma RxKeeps(s: Flow, p: RxPacket)
    requires Inv(s)
    ensures Inv(Rx(s, p))
  {
    hide PktCount;
    var f := Find(s, p.groupId, p.psn);
    if f.Some? && !s.acked[f.value] {
      var t := Rx(s, p);
    }
  }

  lemma ReleaseKeeps(s: Flow)
    requires Inv(s) && s.base < |s.log| && s.acked[s.base]
    ensures Inv(Release(s))
    ensures s.log[s.base].job == s.done
  {
    hide PktCount;
    var t := Release(s);
    WindowIsLive(s, s.base);
    var j := s.log[s.base].job;
    assert s.base == FirstIdx(s.posted, j) + s.log[s.base].chunk;
    if t.base < |t.log| {
      WindowIsLive(s, t.base);
    }
  }

  lemma {:induction false} ShiftAckKeeps(s: Flow)
    requires Inv(s)
    ensures Inv(ShiftAck(s))
    ensures var t := ShiftAck(s);
            t.base == |t.log| || !t.acked[t.base]
    decreases |s.log| - s.base
  {
    hide PktCount;
    if s.base < |s.log| && s.acked[s.base] {
      ReleaseKeeps(s);
      ShiftAckKeeps(Release(s));
    }
  }

  /** A release changes the left edge and the answers, and nothing else; it releases something if the
      left edge is acknowledged. */
  lemma {:induction false} ShiftAckFrame(s: Flow)
    requires Inv(s)
    ensures var t := ShiftAck(s);
      && t == s.(base := t.base, done := t.done, answered := t.answered)
      && s.base <= t.base <= |t.log| && s.done <= t.done <= t.popped && s.answered <= t.answered
      && (s.base < |s.log| && s.acked[s.base] ==> s.base < t.base)
    decreases |s.log| - s.base
  {
    SaneOf(s);
    if s.base < |s.log| && s.acked[s.base] {
      ReleaseKeeps(s);
      hide Shape, OneGroup, GroupNow;
      ShiftAckFrame(Release(s));
    }
  }

  lemma SaneOf(s: Flow)
    requires Inv(s)
    ensures Sane(s)
  {}

  lemma {:induction false} BurstExact(s: Flow, lookedEmpty: bool, n: nat)
    requires Inv(s) && Win(s) + n <= MAX_WIN_LEN - 1
    ensures var t := Burst(s, lookedEmpty, n);
      0 <= |t.log| - |s.log| <= n && (|t.log| - |s.log| == n || !CanGen(t, lookedEmpty))
    decreases n
  {
    hide PktCount;
    if n != 0 && CanGen(s, lookedEmpty) {
      GenKeeps(s, lookedEmpty);
      hide Shape, OneGroup, GroupNow, MakePacket;
      BurstExact(Gen(s), lookedEmpty, n - 1);
    }
  }

  /** A burst sends at most 32 packets, and none that takes the window above the congestion window, half of
      the switch memory or the ring. It stops only at one of these bounds or when nothing can be generated. */
  lemma BurstLimits(s: Flow, cwnd: nat)
    requires Inv(s)
    ensures var t := ShiftSend(s, cwnd); var n := |t.log| - |s.log|;
      && 0 <= n <= MAX_PKT_BURST
      && (n > 0 ==> Win(t) <= cwnd && Win(t) <= s.limit && Win(t) <= MAX_WIN_LEN - 1)
      && (n == MAX_PKT_BURST || Win(t) >= cwnd || Win(t) >= s.limit || Win(t) >= MAX_WIN_LEN - 1 || !CanGen(t, Win(s) == 0))
  {
    hide PktCount, Burst, FirstIdx;
    BurstKeeps(s, Win(s) == 0, Room(s, cwnd));
    BurstExact(s, Win(s) == 0, Room(s, cwnd));
    hide Inv;
  }
}
