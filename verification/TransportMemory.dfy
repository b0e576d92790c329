/** Reassembly and in-place safety: what the shared buffer and the transmissions contain. */
module TransportMemory {
  import opened NetCommon
  import opened Encoding
  import opened Transport
  import opened TransportShape

  /** The payload that the switch returns for a group's serial number. */
  type Results = (nat, nat) -> Payload

  predicate Disjoint(a: SubOp, b: SubOp) {
    a.data + a.size <= b.data || b.data + b.size <= a.data
  }

  predicate Apart(ps: seq<Job>, j: nat, k: nat)
    requires j < |ps| && k < |ps|
  {
    Disjoint(ps[j].sub, ps[k].sub)
  }

  predicate JobGood(job: Job, memSize: nat) {
    JobOk(job.sub, memSize) && |job.input| == job.sub.size
  }

  function InputChunk(job: Job, c: nat): (bs: seq<Byte>)
    requires |job.input| == job.sub.size && c < PktCount(job.sub.size)
    ensures |bs| == ChunkLen(job.sub.size, c)
  {
    job.input[PAYLOAD_SIZE * c .. PAYLOAD_SIZE * c + ChunkLen(job.sub.size, c)]
  }

  ghost predicate JobsOk(s: Flow) {
    && (forall j :: 0 <= j < |s.posted| ==> JobGood(s.posted[j], |s.mem|))
    && (forall j, k :: s.done <= j < k < |s.posted| ==> Apart(s.posted, j, k))
  }

  /** The packet for a chunk, computed from the bytes the sub-operation was posted with. */
  function Expected(job: Job, serial: nat, c: nat): Packet
    requires |job.input| == job.sub.size && c < PktCount(job.sub.size)
    requires job.sub.aggLen > 0 && (Reducing(job.sub.op.code) ==> job.sub.size % 4 == 0)
  {
    MakePacket(job.sub, serial, InputChunk(job, c))
  }

  ghost predicate Stored(ps: seq<Job>, acked: seq<bool>, j: nat, c: nat)
    requires j < |ps|
  {
    var i := FirstIdx(ps, j) + c;
    i < |acked| && acked[i] && NeedRx(ps[j].sub.op)
  }

  function ResultChunk(ps: seq<Job>, j: nat, c: nat, R: Results): (bs: seq<Byte>)
    requires j < |ps| && c < Count(ps, j)
    requires Reducing(ps[j].sub.op.code) ==> ps[j].sub.size % 4 == 0
    ensures |bs| == ChunkLen(ps[j].sub.size, c)
  {
    Received(ps[j].sub, c, R(Gid(ps, j), Serial(ps, j, c)))
  }

  /** A chunk of an unanswered sub-operation holds its input until the first acknowledgement and
      its result afterwards. */
  ghost predicate ChunkRight(ps: seq<Job>, acked: seq<bool>, mem: seq<Byte>, R: Results, j: nat, c: nat)
    requires j < |ps| && c < Count(ps, j) && JobGood(ps[j], |mem|)
  {
    ChunkOf(mem, ps[j].sub, c) ==
      if Stored(ps, acked, j, c) then ResultChunk(ps, j, c, R) else InputChunk(ps[j], c)
  }

  ghost predicate MemoryRight(s: Flow, R: Results)
    requires JobsOk(s)
  {
    forall j, c :: s.done <= j < |s.posted| && 0 <= c < Count(s.posted, j) ==>
      ChunkRight(s.posted, s.acked, s.mem, R, j, c)
  }

  /** A log entry's packet was filled from the bytes its sub-operation was posted with. */
  predicate PacketRight(ps: seq<Job>, memSize: nat, r: Rec) {
    && RecOk(ps, r)
    && JobGood(ps[r.job], memSize)
    && r.pkt == Expected(ps[r.job], Serial(ps, r.job, r.chunk), r.chunk)
  }

  ghost predicate PacketsRight(s: Flow) {
    && (forall i :: 0 <= i < |s.log| ==> PacketRight(s.posted, |s.mem|, s.log[i]))
    && (forall x :: 0 <= x < |s.wire| ==> s.wire[x].idx < |s.log| && s.wire[x].pkt == s.log[s.wire[x].idx].pkt)
  }

  ghost predicate InvM(s: Flow, R: Results) {
    Inv(s) && JobsOk(s) && MemoryRight(s, R) && PacketsRight(s)
  }

  // ----- assumptions on the surroundings -----

  /** What the load balancer guarantees of a new sub-operation while others are unanswered: the
      same group (the frontend's drain barrier) and a region of its own (the copy buffer). */
  ghost predicate CanPost(s: Flow, sub: SubOp) {
    && JobOk(sub, |s.mem|)
    && (forall j :: s.done <= j < |s.posted| ==> Gid(s.posted, j) == sub.op.group.id && Disjoint(s.posted[j].sub, sub))
  }

  function Region(mem: seq<Byte>, sub: SubOp): seq<Byte>
    requires JobOk(sub, |mem|)
  {
    mem[sub.data..sub.data + sub.size]
  }

  /** Other threads may write anywhere outside the regions of unanswered sub-operations. */
  ghost predicate AgreeLive(s: Flow, mem: seq<Byte>) {
    && JobsOk(s)
    && |mem| == |s.mem|
    && (forall j :: s.done <= j < |s.posted| ==> Region(mem, s.posted[j].sub) == Region(s.mem, s.posted[j].sub))
  }

  /** The packet is the switch's answer for serial number u of its group; if that group is being
      served, u has been sent and is less than 2^32 behind the newest packet. */
  ghost predicate Genuine(s: Flow, p: RxPacket, u: nat, R: Results)
    requires Sane(s)
  {
    && p.psn == Psn(u)
    && p.payload == R(p.groupId, u)
    && (p.groupId == s.group && s.base < |s.log| ==> u <= SerialAt(s, |s.log| - 1) < u + TWO32)
  }

  // ----- preservation -----

  lemma SameRegionSameChunk(m: seq<Byte>, n: seq<Byte>, sub: SubOp, c: nat)
    requires |m| == |n| && JobOk(sub, |m|) && c < PktCount(sub.size)
    requires Region(m, sub) == Region(n, sub)
    ensures ChunkOf(m, sub, c) == ChunkOf(n, sub, c)
  {
    var a, len := PAYLOAD_SIZE * c, ChunkLen(sub.size, c);
    forall i | 0 <= i < len ensures ChunkOf(m, sub, c)[i] == ChunkOf(n, sub, c)[i] {
      assert ChunkOf(m, sub, c)[i] == Region(m, sub)[a + i];
      assert ChunkOf(n, sub, c)[i] == Region(n, sub)[a + i];
    }
  }

  lemma EnvKeeps(s: Flow, mem: seq<Byte>, R: Results)
    requires InvM(s, R) && AgreeLive(s, mem)
    ensures InvM(s.(mem := mem), R)
  {
    var t := s.(mem := mem);
    forall j, c | t.done <= j < |t.posted| && 0 <= c < Count(t.posted, j)
      ensures ChunkRight(t.posted, t.acked, t.mem, R, j, c)
    {
      assert ChunkRight(s.posted, s.acked, s.mem, R, j, c);
      SameRegionSameChunk(s.mem, mem, s.posted[j].sub, c);
    }
  }

  lemma PostPackets(s: Flow, sub: SubOp)
    requires Shape(s) && PacketsRight(s) && JobOk(sub, |s.mem|)
    ensures PacketsRight(Post(s, sub))
  {
    var t := Post(s, sub);
    forall i | 0 <= i < |t.log| ensures PacketRight(t.posted, |t.mem|, t.log[i]) {
      assert PacketRight(s.posted, |s.mem|, s.log[i]);
      var r := s.log[i];
      NumberingAppend(s.posted, t.posted[|s.posted|], r.job, Gid(s.posted, r.job));
    }
  }

  lemma PostOldChunk(s: Flow, sub: SubOp, R: Results, j: nat, c: nat)
    requires j < |s.posted| && c < Count(s.posted, j)
    requires JobOk(sub, |s.mem|) && JobGood(s.posted[j], |s.mem|)
    requires ChunkRight(s.posted, s.acked, s.mem, R, j, c)
    ensures ChunkRight(Post(s, sub).posted, s.acked, s.mem, R, j, c)
  {
    hide Received, InputChunk, FirstIdx, Serials, PktCount;
    var ps := Post(s, sub).posted;
    NumberingAppend(s.posted, ps[|s.posted|], j, Gid(ps, j));
  }

  lemma PostNewChunk(s: Flow, sub: SubOp, R: Results, c: nat)
    requires Shape(s) && JobOk(sub, |s.mem|) && c < PktCount(sub.size)
    ensures ChunkRight(Post(s, sub).posted, s.acked, s.mem, R, |s.posted|, c)
  {
    hide PktCount, ResultChunk, Serials, MakePacket;
    NewNotStored(s, sub, c);
    PostedChunk(s.mem, sub, c);
  }

  /** Nothing has been received for a sub-operation that was just posted. */
  lemma NewNotStored(s: Flow, sub: SubOp, c: nat)
    requires Shape(s) && JobOk(sub, |s.mem|)
    ensures !Stored(Post(s, sub).posted, s.acked, |s.posted|, c)
  {
    hide PktCount, Serials, MakePacket;
    var n := |s.posted|;
    NumberingAppend(s.posted, Post(s, sub).posted[n], n, 0);
    if s.popped < n { FirstIdxMono(s.posted, s.popped + 1, n); }
  }

  lemma PostedChunk(mem: seq<Byte>, sub: SubOp, c: nat)
    requires JobOk(sub, |mem|) && c < PktCount(sub.size)
    ensures ChunkOf(mem, sub, c) == InputChunk(Job(sub, mem[sub.data..sub.data + sub.size]), c)
  {
    hide PktCount, ChunkLen;
    var a, len := PAYLOAD_SIZE * c, ChunkLen(sub.size, c);
    var x, y := ChunkOf(mem, sub, c), InputChunk(Job(sub, mem[sub.data..sub.data + sub.size]), c);
    forall i | 0 <= i < len ensures x[i] == y[i] {
      assert mem[sub.data..sub.data + sub.size][a + i] == mem[sub.data + a + i];
    }
  }

  lemma PostJobs(s: Flow, sub: SubOp)
    requires JobsOk(s) && CanPost(s, sub) && s.done <= |s.posted|
    ensures JobsOk(Post(s, sub))
  {
    var t := Post(s, sub);
    forall j, k | t.done <= j < k < |t.posted| ensures Apart(t.posted, j, k) {
      if k < |s.posted| { assert Apart(s.posted, j, k); }
    }
  }

  lemma PostMemory(s: Flow, sub: SubOp, R: Results)
    requires Shape(s) && JobsOk(s) && MemoryRight(s, R) && CanPost(s, sub)
    ensures JobsOk(Post(s, sub)) && MemoryRight(Post(s, sub), R)
  {
    PostJobs(s, sub);
    var t := Post(s, sub);
    forall j, c | t.done <= j < |t.posted| && 0 <= c < Count(t.posted, j)
      ensures ChunkRight(t.posted, t.acked, t.mem, R, j, c)
    {
      if j < |s.posted| {
        assert ChunkRight(s.posted, s.acked, s.mem, R, j, c);
        PostOldChunk(s, sub, R, j, c);
      } else {
        PostNewChunk(s, sub, R, c);
      }
    }
  }

  lemma PostKeepsM(s: Flow, sub: SubOp, R: Results)
    requires InvM(s, R) && CanPost(s, sub)
    ensures InvM(Post(s, sub), R)
  {
    PostKeeps(s, sub);
    PostPackets(s, sub);
    PostMemory(s, sub, R);
  }

  /** The packet being filled still finds its input in place, since nothing has been received for it. */
  lemma NextPacketRight(s: Flow, R: Results)
    requires InvM(s, R) && s.popped < |s.posted|
    ensures PacketRight(s.posted, |s.mem|, NextRec(s))
  {
    assert ChunkRight(s.posted, s.acked, s.mem, R, s.popped, s.sent);
    assert !Stored(s.posted, s.acked, s.popped, s.sent);
    hide Inv, MemoryRight, PacketsRight, Stored, ResultChunk, InputChunk, MakePacket, Serials;
  }

  lemma GenMemory(s: Flow, R: Results)
    requires JobsOk(s) && MemoryRight(s, R)
    requires Sane(s) && s.popped < |s.posted|
    ensures JobsOk(Gen(s)) && MemoryRight(Gen(s), R)
  {
    var t := Gen(s);
    forall j, c | t.done <= j < |t.posted| && 0 <= c < Count(t.posted, j)
      ensures ChunkRight(t.posted, t.acked, t.mem, R, j, c)
    {
      assert ChunkRight(s.posted, s.acked, s.mem, R, j, c);
      assert Stored(t.posted, t.acked, j, c) == Stored(s.posted, s.acked, j, c);
      hide Stored, ResultChunk, InputChunk, ChunkOf, MakePacket, Serials, FirstIdx;
    }
  }

  lemma GenKeepsM(s: Flow, lookedEmpty: bool, R: Results)
    requires InvM(s, R) && CanGen(s, lookedEmpty) && Win(s) < MAX_WIN_LEN - 1
    requires lookedEmpty ==> s.base == |s.log| || s.done < |s.posted|
    ensures InvM(Gen(s), R)
  {
    hide Shape, OneGroup, GroupNow, MakePacket, Serials, ChunkOf, PktCount, ChunkRight;
    SaneOf(s);
    GenKeeps(s, lookedEmpty);
    NextPacketRight(s, R);
    hide PacketRight;
    GenMemory(s, R);
    hide Inv, JobsOk, MemoryRight;
  }

  lemma {:induction false} BurstKeepsM(s: Flow, lookedEmpty: bool, n: nat, R: Results)
    requires InvM(s, R) && Win(s) + n <= MAX_WIN_LEN - 1
    requires lookedEmpty ==> s.base == |s.log| || s.done < |s.posted|
    ensures InvM(Burst(s, lookedEmpty, n), R)
    decreases n
  {
    if n != 0 && CanGen(s, lookedEmpty) {
      GenKeeps(s, lookedEmpty);
      GenKeepsM(s, lookedEmpty, R);
      hide Shape, OneGroup, GroupNow, JobsOk, MemoryRight, PacketsRight;
      BurstKeepsM(Gen(s), lookedEmpty, n - 1, R);
    }
  }

  /** Two different chunks of unanswered sub-operations do not overlap. */
  lemma ChunksApart(s: Flow, j: nat, c: nat, k: nat, d: nat)
    requires JobsOk(s)
    requires s.done <= j < |s.posted| && c < Count(s.posted, j)
    requires s.done <= k < |s.posted| && d < Count(s.posted, k)
    requires j != k || c != d
    ensures var a, b := s.posted[j].sub, s.posted[k].sub;
            var x, y := a.data + PAYLOAD_SIZE * c, b.data + PAYLOAD_SIZE * d;
            x + ChunkLen(a.size, c) <= y || y + ChunkLen(b.size, d) <= x
  {
    assert j < k ==> Apart(s.posted, j, k);
    assert k < j ==> Apart(s.posted, k, j);
  }

  lemma SliceOfWrite(mem: seq<Byte>, at: nat, bs: seq<Byte>, lo: nat, hi: nat)
    requires at + |bs| <= |mem| && lo <= hi <= |mem|
    ensures lo == at && hi == at + |bs| ==> WriteAt(mem, at, bs)[lo..hi] == bs
    ensures hi <= at || at + |bs| <= lo ==> WriteAt(mem, at, bs)[lo..hi] == mem[lo..hi]
  {}

  lemma AckOwnChunk(s: Flow, i: nat, p: Payload, R: Results)
    requires Shape(s) && JobsOk(s) && s.base <= i < |s.log|
    requires p == R(Gid(s.posted, s.log[i].job), SerialAt(s, i))
    requires ChunkRight(s.posted, s.acked, s.mem, R, s.log[i].job, s.log[i].chunk)
    ensures ChunkRight(s.posted, Ack(s, i, p).acked, Ack(s, i, p).mem, R, s.log[i].job, s.log[i].chunk)
  {
    WindowIsLive(s, i);
    hide Received, InputChunk, FirstIdx, Serials;
    var j, c := s.log[i].job, s.log[i].chunk;
    var a := s.posted[j].sub;
    if NeedRx(a.op) {
      var lo := a.data + PAYLOAD_SIZE * c;
      SliceOfWrite(s.mem, lo, Received(a, c, p), lo, lo + ChunkLen(a.size, c));
      assert Received(a, c, p) == ResultChunk(s.posted, j, c, R);
    }
  }

  lemma AckOtherChunk(s: Flow, i: nat, p: Payload, R: Results, k: nat, d: nat)
    requires Shape(s) && JobsOk(s) && s.base <= i < |s.log|
    requires s.done <= k < |s.posted| && d < Count(s.posted, k)
    requires k != s.log[i].job || d != s.log[i].chunk
    requires ChunkRight(s.posted, s.acked, s.mem, R, k, d)
    ensures ChunkRight(s.posted, Ack(s, i, p).acked, Ack(s, i, p).mem, R, k, d)
  {
    hide Received, ResultChunk, InputChunk, Serials, PktCount, Apart, MakePacket, ChunkRight;
    WindowIsLive(s, i);
    AckOtherStored(s, i, p, k, d);
    hide FirstIdx, Shape, Stored;
    AckOtherBytes(s, i, p, k, d);
    SameChunk(s.posted, s.acked, Ack(s, i, p).acked, s.mem, Ack(s, i, p).mem, R, k, d);
  }

  lemma SameChunk(ps: seq<Job>, acked: seq<bool>, acked2: seq<bool>, mem: seq<Byte>, mem2: seq<Byte>, R: Results, k: nat, d: nat)
    requires k < |ps| && d < Count(ps, k) && JobGood(ps[k], |mem|) && |mem2| == |mem|
    requires Stored(ps, acked2, k, d) == Stored(ps, acked, k, d) && ChunkOf(mem2, ps[k].sub, d) == ChunkOf(mem, ps[k].sub, d)
    ensures ChunkRight(ps, acked2, mem2, R, k, d) == ChunkRight(ps, acked, mem, R, k, d)
  {
    hide Stored, ChunkOf, ResultChunk, InputChunk, PktCount;
  }

  lemma AckOtherStored(s: Flow, i: nat, p: Payload, k: nat, d: nat)
    requires Shape(s) && JobsOk(s) && s.base <= i < |s.log|
    requires k < |s.posted| && d < Count(s.posted, k) && (k != s.log[i].job || d != s.log[i].chunk)
    ensures Stored(s.posted, Ack(s, i, p).acked, k, d) == Stored(s.posted, s.acked, k, d)
  {
    hide Received, Serials, PktCount, Apart, MakePacket;
    if i == FirstIdx(s.posted, k) + d { Locate(s.posted, i, s.log[i].job, k); }
  }

  lemma AckOtherBytes(s: Flow, i: nat, p: Payload, k: nat, d: nat)
    requires Sane(s) && JobsOk(s) && i < |s.log| && s.done <= s.log[i].job < |s.posted| && s.log[i].chunk < Count(s.posted, s.log[i].job)
    requires s.done <= k < |s.posted| && d < Count(s.posted, k) && (k != s.log[i].job || d != s.log[i].chunk)
    ensures |Ack(s, i, p).mem| == |s.mem| && ChunkOf(Ack(s, i, p).mem, s.posted[k].sub, d) == ChunkOf(s.mem, s.posted[k].sub, d)
  {
    hide Received, PktCount, Apart, MakePacket;
    var j, c := s.log[i].job, s.log[i].chunk;
    var a, b := s.posted[j].sub, s.posted[k].sub;
    if NeedRx(a.op) {
      ChunksApart(s, j, c, k, d);
      var lo := b.data + PAYLOAD_SIZE * d;
      SliceOfWrite(s.mem, a.data + PAYLOAD_SIZE * c, Received(a, c, p), lo, lo + ChunkLen(b.size, d));
    }
  }

  lemma AckKeepsM(s: Flow, i: nat, p: Payload, R: Results)
    requires InvM(s, R) && s.base <= i < |s.log| && !s.acked[i]
    requires p == R(s.group, SerialAt(s, i))
    ensures JobsOk(Ack(s, i, p)) && MemoryRight(Ack(s, i, p), R)
  {
    var t := Ack(s, i, p);
    WindowIsLive(s, i);
    WindowIsLive(s, s.base);
    assert Gid(s.posted, s.log[i].job) == s.group;
    forall k, d | t.done <= k < |t.posted| && 0 <= d < Count(t.posted, k)
      ensures ChunkRight(t.posted, t.acked, t.mem, R, k, d)
    {
      assert ChunkRight(s.posted, s.acked, s.mem, R, k, d);
      if k == s.log[i].job && d == s.log[i].chunk {
        AckOwnChunk(s, i, p, R);
      } else {
        AckOtherChunk(s, i, p, R, k, d);
      }
    }
  }

  lemma RxPackets(s: Flow, p: RxPacket)
    requires Sane(s) && PacketsRight(s)
    ensures PacketsRight(Rx(s, p))
  {
    var t := Rx(s, p);
    forall x | 0 <= x < |t.wire| ensures t.wire[x].idx < |t.log| && t.wire[x].pkt == t.log[t.wire[x].idx].pkt {
      if x < |s.wire| { assert t.wire[x] == s.wire[x]; }
    }
  }

  lemma MemoryFrame(s: Flow, t: Flow, R: Results)
    requires JobsOk(s) && MemoryRight(s, R)
    requires t.posted == s.posted && t.acked == s.acked && t.mem == s.mem && t.done == s.done
    ensures JobsOk(t) && MemoryRight(t, R)
  {}

  /** A genuine packet that is accepted for entry i is the answer for entry i. */
  lemma GenuineAnswer(s: Flow, p: RxPacket, u: nat, R: Results, i: nat)
    requires Inv(s) && Genuine(s, p, u, R) && Find(s, p.groupId, p.psn) == Some(i)
    ensures s.base <= i < |s.log| && p.payload == R(s.group, SerialAt(s, i))
  {
    FindGenuine(s, u, i);
  }

  lemma RxMemory(s: Flow, p: RxPacket, u: nat, R: Results)
    requires InvM(s, R) && Genuine(s, p, u, R)
    ensures JobsOk(Rx(s, p)) && MemoryRight(Rx(s, p), R)
  {
    var f := Find(s, p.groupId, p.psn);
    if f.Some? && !s.acked[f.value] {
      GenuineAnswer(s, p, u, R, f.value);
      AckKeepsM(s, f.value, p.payload, R);
      hide Shape, OneGroup, GroupNow, PacketsRight, JobsOk, MemoryRight, Genuine, Find;
      MemoryFrame(Ack(s, f.value, p.payload), Rx(s, p), R);
    }
  }

  lemma RxKeepsM(s: Flow, p: RxPacket, u: nat, R: Results)
    requires InvM(s, R) && Genuine(s, p, u, R)
    ensures InvM(Rx(s, p), R)
  {
    RxKeeps(s, p);
    RxPackets(s, p);
    RxMemory(s, p, u, R);
    hide Inv, JobsOk, MemoryRight, PacketsRight;
  }

  lemma {:induction false} ResendUnackedFromLog(s: Flow, i: nat, j: nat)
    requires |s.acked| == |s.log| && i <= j <= |s.log|
    ensures forall x :: x in ResendUnacked(s, i, j) ==> i <= x.idx < j && x.pkt == s.log[x.idx].pkt
    decreases j - i
  {
    if i < j { ResendUnackedFromLog(s, i, j - 1); }
  }

  lemma FullRetransKeepsM(s: Flow, R: Results)
    requires InvM(s, R)
    ensures InvM(FullRetrans(s), R)
  {
    var t := FullRetrans(s);
    ResendUnackedFromLog(s, s.base, |s.log|);
    forall x | 0 <= x < |t.wire| ensures t.wire[x].idx < |t.log| && t.wire[x].pkt == t.log[t.wire[x].idx].pkt {
      if x >= |s.wire| { assert t.wire[x] in ResendUnacked(s, s.base, |s.log|); }
    }
  }

  // ----- answering -----

  /** The first n result chunks of job j, in the order of their sequence numbers. */
  function Assemble(ps: seq<Job>, j: nat, n: nat, R: Results): (bs: seq<Byte>)
    requires j < |ps| && n <= Count(ps, j)
    requires Reducing(ps[j].sub.op.code) ==> ps[j].sub.size % 4 == 0
    ensures |bs| == Min(PAYLOAD_SIZE * n, ps[j].sub.size)
  {
    if n == 0 then [] else Assemble(ps, j, n - 1, R) + ResultChunk(ps, j, n - 1, R)
  }

  /** What a finished sub-operation leaves in its region. */
  function Outcome(ps: seq<Job>, j: nat, R: Results): seq<Byte>
    requires j < |ps|
    requires Reducing(ps[j].sub.op.code) ==> ps[j].sub.size % 4 == 0
  {
    if NeedRx(ps[j].sub.op) then Assemble(ps, j, Count(ps, j), R) else ps[j].input
  }

  lemma {:induction false} ChunksMakeResult(s: Flow, j: nat, n: nat, R: Results)
    requires JobsOk(s) && MemoryRight(s, R) && s.done <= j < |s.posted| && n <= Count(s.posted, j)
    requires forall c :: 0 <= c < n ==> Stored(s.posted, s.acked, j, c)
    ensures var sub := s.posted[j].sub;
            s.mem[sub.data..sub.data + Min(PAYLOAD_SIZE * n, sub.size)] == Assemble(s.posted, j, n, R)
  {
    if n > 0 {
      ChunksMakeResult(s, j, n - 1, R);
      var sub := s.posted[j].sub;
      assert ChunkRight(s.posted, s.acked, s.mem, R, j, n - 1);
      var lo := sub.data + PAYLOAD_SIZE * (n - 1);
      assert s.mem[sub.data..lo + ChunkLen(sub.size, n - 1)] == s.mem[sub.data..lo] + ChunkOf(s.mem, sub, n - 1);
    }
  }

  lemma {:induction false} ChunksMakeInput(s: Flow, j: nat, n: nat, R: Results)
    requires JobsOk(s) && MemoryRight(s, R) && s.done <= j < |s.posted| && n <= Count(s.posted, j)
    requires !NeedRx(s.posted[j].sub.op)
    ensures var sub := s.posted[j].sub; var m := Min(PAYLOAD_SIZE * n, sub.size);
            s.mem[sub.data..sub.data + m] == s.posted[j].input[..m]
  {
    if n > 0 {
      ChunksMakeInput(s, j, n - 1, R);
      var sub := s.posted[j].sub;
      assert ChunkRight(s.posted, s.acked, s.mem, R, j, n - 1);
      var m, len := PAYLOAD_SIZE * (n - 1), ChunkLen(sub.size, n - 1);
      assert s.mem[sub.data..sub.data + m + len] == s.mem[sub.data..sub.data + m] + ChunkOf(s.mem, sub, n - 1);
      assert s.posted[j].input[..m + len] == s.posted[j].input[..m] + InputChunk(s.posted[j], n - 1);
    }
  }

  predicate AckedAt(acked: seq<bool>, i: nat) {
    i < |acked| && acked[i]
  }

  ghost predicate AllAcked(ps: seq<Job>, acked: seq<bool>, j: nat)
    requires j < |ps|
  {
    forall i :: FirstIdx(ps, j) <= i < FirstIdx(ps, j) + Count(ps, j) ==> AckedAt(acked, i)
  }

  /** A sub-operation whose packets are all acknowledged has its outcome in place. */
  lemma RegionIsOutcome(s: Flow, j: nat, R: Results)
    requires JobsOk(s) && MemoryRight(s, R) && s.done <= j < |s.posted|
    requires AllAcked(s.posted, s.acked, j)
    ensures Region(s.mem, s.posted[j].sub) == Outcome(s.posted, j, R)
  {
    hide ChunkRight, Assemble, FirstIdx;
    if NeedRx(s.posted[j].sub.op) {
      forall c | 0 <= c < Count(s.posted, j) ensures Stored(s.posted, s.acked, j, c) {
        var i := FirstIdx(s.posted, j) + c;
        assert AckedAt(s.acked, i);
      }
      ChunksMakeResult(s, j, Count(s.posted, j), R);
    } else {
      ChunksMakeInput(s, j, Count(s.posted, j), R);
    }
  }

  lemma ReleaseKeepsM(s: Flow, R: Results)
    requires InvM(s, R) && s.base < |s.log| && s.acked[s.base]
    ensures InvM(Release(s), R)
    ensures Release(s).done > s.done ==>
      s.done < |s.posted| && Region(s.mem, s.posted[s.done].sub) == Outcome(s.posted, s.done, R)
  {
    ReleaseKeeps(s);
    var t := Release(s);
    assert RecOk(s.posted, s.log[s.base]);
    assert JobsOk(t) && MemoryRight(t, R);
    if t.done > s.done {
      RegionIsOutcome(s, s.done, R);
    }
  }

  lemma {:induction false} ShiftAckKeepsM(s: Flow, R: Results)
    requires InvM(s, R)
    ensures InvM(ShiftAck(s), R)
    decreases |s.log| - s.base
  {
    if s.base < |s.log| && s.acked[s.base] {
      ReleaseKeepsM(s, R);
      hide Shape, OneGroup, GroupNow, JobsOk, MemoryRight, PacketsRight;
      ShiftAckKeepsM(Release(s), R);
    }
  }

  /** Reassembly. When a sub-operation's response is pushed, its region holds the results of its
      packets in sequence order (or, for one that only sends, still its input). */
  lemma {:induction false} AnswerIsRight(s: Flow, R: Results, j: nat)
    requires InvM(s, R) && s.done <= j < ShiftAck(s).done
    ensures j < |s.posted| && JobGood(s.posted[j], |s.mem|)
    ensures Region(s.mem, s.posted[j].sub) == Outcome(s.posted, j, R)
    decreases |s.log| - s.base
  {
    ReleaseKeepsM(s, R);
    var t := Release(s);
    assert t.mem == s.mem && t.posted == s.posted && ShiftAck(s) == ShiftAck(t);
    if j >= t.done {
      hide Shape, OneGroup, GroupNow, JobsOk, MemoryRight, PacketsRight, Outcome;
      AnswerIsRight(t, R, j);
    }
  }

  /** In-place safety. Every packet ever transmitted, first or again, carries the bytes its chunk
      had when the sub-operation was posted, although results overwrite the same region. */
  lemma TransmissionsCarryInput(s: Flow, R: Results, x: nat)
    requires InvM(s, R) && x < |s.wire|
    ensures s.wire[x].idx < |s.log|
    ensures var r := s.log[s.wire[x].idx];
            && PacketRight(s.posted, |s.mem|, r)
            && s.wire[x].pkt == r.pkt
            && (NeedTx(s.posted[r.job].sub.op) ==>
                  Received(s.posted[r.job].sub, r.chunk, s.wire[x].pkt.payload) == InputChunk(s.posted[r.job], r.chunk))
  {
    var r := s.log[s.wire[x].idx];
    assert PacketRight(s.posted, |s.mem|, r);
    WireRoundTrip(s.posted[r.job].sub.op.code, InputChunk(s.posted[r.job], r.chunk));
  }
}
