/** What one worker thread does, with the 1024-slot ring and the 32-bit packet sequence numbers
    replaced by an ever-growing log and unbounded serial numbers (server/backend/worker.cpp).
    Module `WorkerThread` keeps the ring and the 32-bit numbers and is proved to follow these steps. */
module Transport {
  import opened NetCommon
  import opened Encoding

  const MAX_WIN_LEN: nat := 1024
  const MAX_PKT_BURST: nat := 32
  const CC_CWND_MIN: nat := 10

  /** A posted sub-operation with the bytes its region held when it was posted. */
  datatype Job = Job(sub: SubOp, input: seq<Byte>)

  /** Contents of a transmitted packet. Without payload the packet stops after the header. */
  datatype Packet = Packet(code: OpCode, groupId: nat, rank: nat, root: nat, switchIp: nat,
                           aggAddr: nat, psn: nat, payload: seq<Byte>)

  /** A packet that arrives from the switch. */
  datatype RxPacket = RxPacket(groupId: nat, psn: nat, payload: Payload)

  /** The `chunk`-th packet of the `job`-th posted sub-operation, as it was filled. */
  datatype Rec = Rec(job: nat, chunk: nat, pkt: Packet)

  /** One transmission: which log entry, and the packet that went out. */
  datatype Sent = Sent(idx: nat, pkt: Packet)

  /** posted[popped..] is the request queue, and `sent` packets of posted[popped] have been
      generated. log[base..] is the window. `answered` lists the jobs whose responses have been
      pushed, in that order, and `done` is how many they are. */
  datatype Flow = Flow(
    posted: seq<Job>, popped: nat, sent: nat, done: nat, answered: seq<nat>,
    log: seq<Rec>, acked: seq<bool>, base: nat,
    group: nat, limit: nat,
    mem: seq<Byte>, wire: seq<Sent>)

  // ----- chunks -----

  /** At least one packet, so that a zero-length sub-operation also gets a last packet. */
  function PktCount(size: nat): (n: nat)
    ensures n >= 1
    ensures PAYLOAD_SIZE * (n - 1) <= size <= PAYLOAD_SIZE * n
  {
    if size == 0 then 1 else (size + PAYLOAD_SIZE - 1) / PAYLOAD_SIZE
  }

  function ChunkLen(size: nat, c: nat): (n: nat)
    requires c < PktCount(size)
    ensures n <= PAYLOAD_SIZE && PAYLOAD_SIZE * c + n <= size
    ensures size % 4 == 0 ==> n % 4 == 0
    ensures c + 1 < PktCount(size) ==> n == PAYLOAD_SIZE
    ensures c + 1 == PktCount(size) ==> PAYLOAD_SIZE * c + n == size
  {
    WholeWords(size, c);
    Min(PAYLOAD_SIZE, size - PAYLOAD_SIZE * c)
  }

  lemma WholeWords(size: nat, c: nat)
    ensures size % 4 == 0 ==> (size - PAYLOAD_SIZE * c) % 4 == 0
  {
    var w := size / 4;
    assert size % 4 == 0 ==> size - PAYLOAD_SIZE * c == 4 * (w - 64 * c);
  }

  predicate JobOk(sub: SubOp, memSize: nat) {
    && sub.data + sub.size <= memSize
    && sub.aggLen > 0
    && (Reducing(sub.op.code) ==> sub.size % 4 == 0)
  }

  // ----- numbering -----

  function Count(ps: seq<Job>, j: nat): (n: nat)
    requires j < |ps|
    ensures n >= 1
  {
    PktCount(ps[j].sub.size)
  }

  function Gid(ps: seq<Job>, j: nat): nat
    requires j < |ps|
  {
    ps[j].sub.op.group.id
  }

  /** Log index of the first packet of job k: all packets of earlier jobs come before it. */
  function FirstIdx(ps: seq<Job>, k: nat): nat
    requires k <= |ps|
  {
    if k == 0 then 0 else FirstIdx(ps, k - 1) + Count(ps, k - 1)
  }

  /** Packets of group g among the first k jobs: the group's unbounded sequence counter. */
  function Serials(ps: seq<Job>, k: nat, g: nat): nat
    requires k <= |ps|
  {
    if k == 0 then 0
    else Serials(ps, k - 1, g) + if Gid(ps, k - 1) == g then Count(ps, k - 1) else 0
  }

  /** Unbounded sequence number of a chunk within its group. */
  function Serial(ps: seq<Job>, j: nat, c: nat): nat
    requires j < |ps|
  {
    Serials(ps, j, Gid(ps, j)) + c
  }

  function Psn(serial: nat): nat {
    serial % TWO32
  }

  // ----- packets -----

  /** The packet with a given 32-bit sequence number. */
  function FilledPacket(sub: SubOp, psn: nat, bytes: seq<Byte>): Packet
    requires sub.aggLen > 0
    requires |bytes| <= PAYLOAD_SIZE
    requires Reducing(sub.op.code) ==> |bytes| % 4 == 0
  {
    var op := sub.op;
    Packet(op.code, op.group.id, op.group.rank, op.root, op.group.switchIp,
           (sub.aggAddr + psn % sub.aggLen) % 0x10000, psn,
           if NeedTx(op) then Padded(Wire(op.code, bytes)) else [])
  }

  function MakePacket(sub: SubOp, serial: nat, bytes: seq<Byte>): Packet
    requires sub.aggLen > 0
    requires |bytes| <= PAYLOAD_SIZE
    requires Reducing(sub.op.code) ==> |bytes| % 4 == 0
  {
    FilledPacket(sub, Psn(serial), bytes)
  }

  function ChunkOf(mem: seq<Byte>, sub: SubOp, c: nat): (bs: seq<Byte>)
    requires JobOk(sub, |mem|) && c < PktCount(sub.size)
    ensures |bs| == ChunkLen(sub.size, c)
  {
    mem[sub.data + PAYLOAD_SIZE * c .. sub.data + PAYLOAD_SIZE * c + ChunkLen(sub.size, c)]
  }

  /** The bytes that a received payload contributes to its chunk. */
  function Received(sub: SubOp, c: nat, p: Payload): (bs: seq<Byte>)
    requires c < PktCount(sub.size) && (Reducing(sub.op.code) ==> sub.size % 4 == 0)
    ensures |bs| == ChunkLen(sub.size, c)
  {
    Wire(sub.op.code, p[..ChunkLen(sub.size, c)])
  }

  function WriteAt(mem: seq<Byte>, at: nat, bs: seq<Byte>): (r: seq<Byte>)
    requires at + |bs| <= |mem|
    ensures |r| == |mem|
    ensures forall i :: 0 <= i < |mem| ==> r[i] == if at <= i < at + |bs| then bs[i - at] else mem[i]
  {
    mem[..at] + bs + mem[at + |bs|..]
  }

  // ----- steps -----

  /** Sizes and references that make every step below well defined. */
  ghost predicate Sane(s: Flow) {
    && |s.acked| == |s.log|
    && s.done <= s.popped <= |s.posted|
    && s.base <= |s.log|
    && (s.sent > 0 ==> s.popped < |s.posted|)
    && (s.popped < |s.posted| ==> s.sent < Count(s.posted, s.popped))
    && (forall j :: 0 <= j < |s.posted| ==> JobOk(s.posted[j].sub, |s.mem|))
    && (forall i :: 0 <= i < |s.log| ==> RecOk(s.posted, s.log[i]))
  }

  predicate RecOk(ps: seq<Job>, r: Rec) {
    r.job < |ps| && r.chunk < Count(ps, r.job)
  }

  /** A worker thread before its first request; group 0 is not a real group. */
  function Start(mem: seq<Byte>): Flow {
    Flow([], 0, 0, 0, [], [], [], 0, 0, CC_CWND_MIN, mem, [])
  }

  function Win(s: Flow): int {
    |s.log| - s.base
  }

  /** The load balancer queues a sub-operation. */
  function Post(s: Flow, sub: SubOp): Flow
    requires JobOk(sub, |s.mem|)
  {
    s.(posted := s.posted + [Job(sub, s.mem[sub.data..sub.data + sub.size])])
  }

  /** Can another packet be generated? A sub-operation in progress always continues; a new one of
      another group is taken only if the window looked empty when the burst began. */
  predicate CanGen(s: Flow, lookedEmpty: bool) {
    || s.sent > 0
    || (s.popped < |s.posted| && (s.group == Gid(s.posted, s.popped) || lookedEmpty))
  }

  function NextRec(s: Flow): Rec
    requires s.popped < |s.posted| && s.sent < Count(s.posted, s.popped)
    requires JobOk(s.posted[s.popped].sub, |s.mem|)
  {
    var sub := s.posted[s.popped].sub;
    Rec(s.popped, s.sent,
        MakePacket(sub, Serial(s.posted, s.popped, s.sent), ChunkOf(s.mem, sub, s.sent)))
  }

  /** Generate the next packet and transmit it. */
  function Gen(s: Flow): Flow
    requires s.popped < |s.posted| && s.sent < Count(s.posted, s.popped)
    requires JobOk(s.posted[s.popped].sub, |s.mem|)
  {
    var sub := s.posted[s.popped].sub;
    var rec := NextRec(s);
    var last := s.sent + 1 == Count(s.posted, s.popped);
    s.(popped := if last then s.popped + 1 else s.popped,
       sent := if last then 0 else s.sent + 1,
       log := s.log + [rec],
       acked := s.acked + [false],
       group := if s.sent == 0 then sub.op.group.id else s.group,
       limit := if s.sent == 0 then sub.aggLen / 2 else s.limit,
       wire := s.wire + [Sent(|s.log|, rec.pkt)])
  }

  ghost function Burst(s: Flow, lookedEmpty: bool, n: nat): Flow
    requires Sane(s)
    decreases n
  {
    if n == 0 || !CanGen(s, lookedEmpty) then s
    else GenSane(s); Burst(Gen(s), lookedEmpty, n - 1)
  }

  lemma GenSane(s: Flow)
    requires Sane(s) && s.popped < |s.posted|
    ensures Sane(Gen(s))
  {}

  /** The window size that a burst aims at. */
  function Target(s: Flow, cwnd: nat): nat
    requires s.base <= |s.log|
  {
    Min(MAX_WIN_LEN - 1, Min(s.limit, Min(cwnd, Win(s) + MAX_PKT_BURST)))
  }

  function Room(s: Flow, cwnd: nat): nat
    requires s.base <= |s.log|
  {
    Max(0, Target(s, cwnd) - Win(s))
  }

  ghost function ShiftSend(s: Flow, cwnd: nat): Flow
    requires Sane(s)
  {
    Burst(s, Win(s) == 0, Room(s, cwnd))
  }

  /** Does an arriving packet name entry i of the window? */
  ghost predicate Names(s: Flow, gid: nat, psn: nat, i: nat)
    requires Sane(s)
  {
    && s.base <= i < |s.log|
    && gid == s.group
    && psn == Psn(Serial(s.posted, s.log[i].job, s.log[i].chunk))
  }

  ghost function Find(s: Flow, gid: nat, psn: nat): (r: Option<nat>)
    requires Sane(s)
    ensures r.Some? ==> Names(s, gid, psn, r.value)
    ensures r.None? ==> forall i :: !Names(s, gid, psn, i)
  {
    if i :| Names(s, gid, psn, i) then Some(i) else None
  }

  /** First packet of the maximal run of unacknowledged packets that ends just before i. */
  function RunStart(s: Flow, i: nat): (j: nat)
    requires |s.acked| == |s.log| && s.base <= i <= |s.log|
    ensures s.base <= j <= i
    ensures forall k :: j <= k < i ==> !s.acked[k]
    ensures j > s.base ==> s.acked[j - 1]
  {
    if i == s.base || s.acked[i - 1] then i else RunStart(s, i - 1)
  }

  /** The transmissions of log[i..j] in order. */
  function Resend(s: Flow, i: nat, j: nat): (r: seq<Sent>)
    requires i <= j <= |s.log|
    ensures |r| == j - i
    ensures forall k :: 0 <= k < j - i ==> r[k] == Sent(i + k, s.log[i + k].pkt)
    decreases j - i
  {
    if i == j then [] else Resend(s, i, j - 1) + [Sent(j - 1, s.log[j - 1].pkt)]
  }

  /** The transmissions of the unacknowledged entries of log[i..j] in order. */
  function ResendUnacked(s: Flow, i: nat, j: nat): seq<Sent>
    requires |s.acked| == |s.log| && i <= j <= |s.log|
    decreases j - i
  {
    if i == j then []
    else ResendUnacked(s, i, j - 1) + if s.acked[j - 1] then [] else [Sent(j - 1, s.log[j - 1].pkt)]
  }

  /** Entry i is acknowledged for the first time and its result, if wanted, is stored. */
  function Ack(s: Flow, i: nat, p: Payload): Flow
    requires i < |s.log| == |s.acked|
    requires s.log[i].job < |s.posted| && s.log[i].chunk < Count(s.posted, s.log[i].job)
    requires JobOk(s.posted[s.log[i].job].sub, |s.mem|)
  {
    var sub := s.posted[s.log[i].job].sub;
    var c := s.log[i].chunk;
    s.(acked := s.acked[i := true],
       mem := if NeedRx(sub.op) then WriteAt(s.mem, sub.data + PAYLOAD_SIZE * c, Received(sub, c, p))
              else s.mem)
  }

  ghost function Rx(s: Flow, p: RxPacket): Flow
    requires Sane(s)
  {
    match Find(s, p.groupId, p.psn)
    case None => s
    case Some(i) =>
      if s.acked[i] then s
      else
        var t := Ack(s, i, p.payload);
        t.(wire := t.wire + Resend(t, RunStart(t, i), i))
  }

  predicate Releasable(s: Flow) {
    && |s.acked| == |s.log|
    && s.base <= |s.log|
    && (forall i :: 0 <= i < |s.log| ==> s.log[i].job < |s.posted|)
  }

  /** Release acknowledged packets from the left; the last packet of a sub-operation answers it. */
  function ShiftAck(s: Flow): Flow
    requires Releasable(s)
    decreases |s.log| - s.base
  {
    if s.base < |s.log| && s.acked[s.base] then ShiftAck(Release(s)) else s
  }

  function Release(s: Flow): Flow
    requires s.base < |s.log| && s.log[s.base].job < |s.posted|
  {
    var r := s.log[s.base];
    var last := r.chunk + 1 == Count(s.posted, r.job);
    s.(base := s.base + 1,
       done := if last then s.done + 1 else s.done,
       answered := if last then s.answered + [r.job] else s.answered)
  }

  function FullRetrans(s: Flow): Flow
    requires |s.acked| == |s.log| && s.base <= |s.log|
  {
    s.(wire := s.wire + ResendUnacked(s, s.base, |s.log|))
  }
}
