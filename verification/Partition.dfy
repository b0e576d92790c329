/** The three levels on which a collective is divided: 2 MiB segments in the frontend
    (server/frontend/src/c/api.cpp:229-258), one share per worker in the load balancer
    (server/backend/load_balancer.cpp:72-89), and 256-byte packets in the worker. */
module Partition {
  import opened NetCommon
  import opened Modular
  import opened Transport

  const SEGMENT_SIZE: nat := 2 * 1024 * 1024

  datatype Segment = Segment(offset: nat, size: nat, first: bool, last: bool)

  // ----- segments -----

  /** The segments from `offset` on. A collective of no bytes still has one. */
  function Cut(size: nat, offset: nat): seq<Segment>
    requires offset <= size
    decreases size - offset
  {
    if size - offset <= SEGMENT_SIZE then [Segment(offset, size - offset, offset == 0, true)]
    else [Segment(offset, SEGMENT_SIZE, offset == 0, false)] + Cut(size, offset + SEGMENT_SIZE)
  }

  function Lengths(segs: seq<Segment>): (r: seq<nat>)
    ensures |r| == |segs| && forall i :: 0 <= i < |segs| ==> r[i] == segs[i].size
  {
    seq(|segs|, i requires 0 <= i < |segs| => segs[i].size)
  }

  /** The frontend's segmentation loop. */
  method CutLoop(size: nat) returns (segs: seq<Segment>)
    ensures segs == Cut(size, 0)
  {
    segs := [];
    var offset := 0;
    while true
      invariant offset <= size && segs + Cut(size, offset) == Cut(size, 0)
      decreases size - offset
    {
      var segSize, first, last := SEGMENT_SIZE, offset == 0, false;
      if size - offset <= SEGMENT_SIZE {
        segSize, last := size - offset, true;
      }
      ghost var before := segs;
      segs := segs + [Segment(offset, segSize, first, last)];
      if last { assert segs == Cut(size, 0); }
      else { assert segs + Cut(size, offset + SEGMENT_SIZE) == before + Cut(size, offset); }
      offset := offset + SEGMENT_SIZE;
      if !(offset < size) { break; }
    }
  }

  /** Segment i starts at i times the segment size; only the first is marked first and only the
      last is marked last; all but the last are full, and the last ends at the end. */
  lemma {:induction false} CutShape(size: nat, offset: nat, i: nat)
    requires offset <= size && i < |Cut(size, offset)|
    ensures var c := Cut(size, offset);
      && c[i].offset == offset + i * SEGMENT_SIZE <= size
      && c[i].size == Min(SEGMENT_SIZE, size - c[i].offset)
      && (c[i].first <==> c[i].offset == 0)
      && (c[i].last <==> i == |c| - 1)
      && (c[i].last <==> c[i].offset + c[i].size == size)
    decreases size - offset
  {
    if size - offset > SEGMENT_SIZE && i > 0 {
      CutShape(size, offset + SEGMENT_SIZE, i - 1);
      assert Cut(size, offset)[i] == Cut(size, offset + SEGMENT_SIZE)[i - 1];
    }
  }

  lemma {:induction false} CutCount(size: nat, offset: nat)
    requires offset <= size
    ensures var n := |Cut(size, offset)|;
      n >= 1 && (n - 1) * SEGMENT_SIZE <= size - offset <= n * SEGMENT_SIZE
      && (n > 1 ==> (n - 1) * SEGMENT_SIZE < size - offset)
    decreases size - offset
  {
    if size - offset > SEGMENT_SIZE { CutCount(size, offset + SEGMENT_SIZE); }
  }

  // ----- shares -----

  /** Whole 32-bit words are dealt out evenly, the first workers taking one more; the last worker
      also takes the bytes that do not fill a word. */
  function ShareSize(size: nat, n: nat, i: nat): nat
    requires n > 0
  {
    4 * (size / 4 / n + if i < size / 4 % n then 1 else 0) + if i == n - 1 then size % 4 else 0
  }

  function ShareOffset(size: nat, n: nat, i: nat): nat
    requires n > 0
  {
    if i == 0 then 0 else ShareOffset(size, n, i - 1) + ShareSize(size, n, i - 1)
  }

  lemma {:induction false} ShareOffsetForm(size: nat, n: nat, i: nat)
    requires n > 0 && i < n
    ensures ShareOffset(size, n, i) == 4 * (i * (size / 4 / n) + Min(i, size / 4 % n))
  {
    if i > 0 {
      ShareOffsetForm(size, n, i - 1);
      var q, r := size / 4 / n, size / 4 % n;
      assert ShareSize(size, n, i - 1) == 4 * (q + if i - 1 < r then 1 else 0);
      hide ShareSize;
      OneMore(i, q);
    }
  }

  lemma OneMore(i: nat, q: nat)
    requires i > 0
    ensures i * q == (i - 1) * q + q
  {}

  /** The shares fill the segment exactly. */
  lemma ShareTotal(size: nat, n: nat)
    requires n > 0
    ensures ShareOffset(size, n, n) == size
  {
    ShareOffsetForm(size, n, n - 1);
    var w := size / 4;
    var q, r := w / n, w % n;
    assert w == q * n + r;
    assert (n - 1) * q + q == q * n;
  }

  lemma {:induction false} ShareMono(size: nat, n: nat, i: nat, j: nat)
    requires n > 0 && i < j
    ensures ShareOffset(size, n, i) + ShareSize(size, n, i) <= ShareOffset(size, n, j)
    decreases j
  {
    if i < j - 1 { ShareMono(size, n, i, j - 1); }
  }

  lemma ShareEnds(size: nat, n: nat, i: nat)
    requires i < n
    ensures ShareOffset(size, n, i) + ShareSize(size, n, i) <= size
    ensures size % 4 == 0 ==> ShareSize(size, n, i) % 4 == 0
    ensures ShareOffset(size, n, i) % 4 == 0
  {
    ShareWords(size, n, i);
    hide ShareSize, ShareOffset;
    ShareTotal(size, n);
    ShareMono(size, n, i, n);
  }

  lemma FourTimes(x: nat)
    ensures (4 * x) % 4 == 0
  {}

  lemma ShareWord(size: nat, n: nat, i: nat)
    requires i < n
    ensures i < n - 1 || size % 4 == 0 ==> ShareSize(size, n, i) % 4 == 0
  {
    FourTimes(size / 4 / n + if i < size / 4 % n then 1 else 0);
  }

  lemma {:induction false} ShareWords(size: nat, n: nat, i: nat)
    requires i < n
    ensures size % 4 == 0 ==> ShareSize(size, n, i) % 4 == 0
    ensures ShareOffset(size, n, i) % 4 == 0
  {
    hide ShareSize;
    ShareWord(size, n, i);
    if i > 0 {
      ShareWords(size, n, i - 1);
      ShareWord(size, n, i - 1);
    }
  }

  /** The work is even: two workers' whole words differ by one at most, the earlier ones having more, and
      only the last has bytes that fill no word. */
  lemma ShareBalanced(size: nat, n: nat, i: nat, j: nat)
    requires i < j < n
    ensures 0 <= ShareSize(size, n, i) / 4 - ShareSize(size, n, j) / 4 <= 1
    ensures ShareSize(size, n, i) % 4 == 0 && ShareSize(size, n, n - 1) % 4 == size % 4
  {
    hide ShareSize;
    ShareInWords(size, n, i);
    ShareInWords(size, n, j);
    ShareInWords(size, n, n - 1);
  }

  lemma ShareInWords(size: nat, n: nat, i: nat)
    requires i < n
    ensures ShareSize(size, n, i) / 4 == size / 4 / n + if i < size / 4 % n then 1 else 0
    ensures ShareSize(size, n, i) % 4 == if i == n - 1 then size % 4 else 0
  {
    WordsOf(size / 4 / n + if i < size / 4 % n then 1 else 0, if i == n - 1 then size % 4 else 0);
  }

  lemma WordsOf(q: nat, x: nat)
    requires x < 4
    ensures (4 * q + x) / 4 == q && (4 * q + x) % 4 == x
  {}

  /** Worker i's part of an operation; aggregator numbers are 16 bits wide. */
  function Share(op: Op, n: nat, i: nat): SubOp
    requires n > 0
  {
    var len := op.group.aggLen / n;
    SubOp(op, op.buffer + ShareOffset(op.size, n, i), ShareSize(op.size, n, i), (op.group.aggAddr + len * i) % 0x10000, len)
  }

  /** The workers' aggregators lie apart from each other and inside the group's. */
  lemma AggregatorsApart(op: Op, n: nat, i: nat, j: nat)
    requires i < j < n && op.group.aggAddr < 0x10000 && op.group.aggAddr + op.group.aggLen <= 0x10000
    ensures var a, b := Share(op, n, i), Share(op, n, j);
      && op.group.aggAddr <= a.aggAddr && a.aggAddr + a.aggLen <= b.aggAddr
      && b.aggAddr + b.aggLen <= op.group.aggAddr + op.group.aggLen
  {
    var len := op.group.aggLen / n;
    assert op.group.aggLen == len * n + op.group.aggLen % n;
    LessTimes(i, j, len);
    LessTimes(j, n, len);
    var x, y, all := len * i, len * j, len * n;
    assert 0 <= x && x + len <= y && y + len <= all <= op.group.aggLen;
    SmallMod(op.group.aggAddr + x, 0x10000);
    SmallMod(op.group.aggAddr + y, 0x10000);
  }

  lemma LessTimes(i: nat, j: nat, len: nat)
    requires i < j
    ensures 0 <= len * i && len * i + len <= len * j
  {
    var d := j - i - 1;
    assert len * d >= 0;
    assert len * j == len * (i + 1 + d) == len * i + len + len * d;
  }

  /** Shares of two operations, or two shares of one, lie apart if the operations' blocks do. */
  lemma SharesApart(a: Op, b: Op, n: nat, i: nat, j: nat)
    requires i < n && j < n
    requires (a == b && i != j) || a.buffer + a.size <= b.buffer || b.buffer + b.size <= a.buffer
    ensures var x, y := Share(a, n, i), Share(b, n, j); x.data + x.size <= y.data || y.data + y.size <= x.data
  {
    ShareEnds(a.size, n, i);
    ShareEnds(b.size, n, j);
    if a == b && i < j { ShareMono(a.size, n, i, j); }
    if a == b && j < i { ShareMono(a.size, n, j, i); }
  }

  // ----- all three levels -----

  datatype Place = Place(seg: nat, worker: nat, packet: nat)

  predicate IsPlace(size: nat, n: nat, p: Place)
    requires n > 0
  {
    && p.seg < |Cut(size, 0)| && p.worker < n
    && p.packet < PktCount(ShareSize(Cut(size, 0)[p.seg].size, n, p.worker))
  }

  /** Byte b of the collective is in this packet. */
  predicate Carries(size: nat, n: nat, p: Place, b: nat)
    requires n > 0 && IsPlace(size, n, p)
  {
    var seg := Cut(size, 0)[p.seg];
    var share := ShareSize(seg.size, n, p.worker);
    var start := seg.offset + ShareOffset(seg.size, n, p.worker) + PAYLOAD_SIZE * p.packet;
    start <= b < start + ChunkLen(share, p.packet)
  }

  /** The last of the first k + 1 workers whose share starts at or before b. */
  function WorkerOf(size: nat, n: nat, k: nat, b: nat): (i: nat)
    requires k < n
    ensures i <= k && ShareOffset(size, n, i) <= b
    ensures i < k ==> b < ShareOffset(size, n, i + 1)
  {
    if ShareOffset(size, n, k) <= b then k
    else var i := WorkerOf(size, n, k - 1, b); i
  }

  function Home(size: nat, n: nat, b: nat): Place
    requires n > 0 && b < size
  {
    var i := b / SEGMENT_SIZE;
    var len := Min(SEGMENT_SIZE, size - i * SEGMENT_SIZE);
    var inSeg := b - i * SEGMENT_SIZE;
    var w := WorkerOf(len, n, n - 1, inSeg);
    Place(i, w, (inSeg - ShareOffset(len, n, w)) / PAYLOAD_SIZE)
  }

  lemma PacketOf(size: nat, b: nat, k: nat)
    requires k < PktCount(size)
    ensures b < size && PAYLOAD_SIZE * k <= b < PAYLOAD_SIZE * k + ChunkLen(size, k) <==> b < size && k == b / PAYLOAD_SIZE
  {}

  lemma PacketExists(size: nat, b: nat)
    requires b < size
    ensures b / PAYLOAD_SIZE < PktCount(size)
  {}

  lemma WorkerUnique(size: nat, n: nat, b: nat, i: nat)
    requires i < n && b < size
    ensures ShareOffset(size, n, i) <= b < ShareOffset(size, n, i) + ShareSize(size, n, i) <==> i == WorkerOf(size, n, n - 1, b)
  {
    ShareTotal(size, n);
    var w := WorkerOf(size, n, n - 1, b);
    if i < w { ShareMono(size, n, i, w); }
    if w < i { ShareMono(size, n, w, i); }
  }

  lemma SegmentUnique(size: nat, b: nat, i: nat)
    requires b < size && i < |Cut(size, 0)|
    ensures b / SEGMENT_SIZE < |Cut(size, 0)|
    ensures var c := Cut(size, 0)[i]; c.offset <= b < c.offset + c.size <==> i == b / SEGMENT_SIZE
  {
    hide Cut;
    CutShape(size, 0, i);
    CutCount(size, 0);
  }

  lemma HomeIsPlace(size: nat, n: nat, b: nat)
    requires n > 0 && b < size
    ensures IsPlace(size, n, Home(size, n, b))
  {
    hide Cut, PktCount, ShareSize, ShareOffset, WorkerOf, ChunkLen;
    var i := b / SEGMENT_SIZE;
    CutCount(size, 0);
    SegmentUnique(size, b, 0);
    CutShape(size, 0, i);
    var len, inSeg := Cut(size, 0)[i].size, b - i * SEGMENT_SIZE;
    var w := WorkerOf(len, n, n - 1, inSeg);
    WorkerUnique(len, n, inSeg, w);
    PacketExists(ShareSize(len, n, w), inSeg - ShareOffset(len, n, w));
  }

  /** Every byte of a collective travels in exactly one packet, the one at its home, for every size
      and number of workers. */
  lemma CarriedOnce(size: nat, n: nat, p: Place, b: nat)
    requires n > 0 && b < size && IsPlace(size, n, p)
    ensures IsPlace(size, n, Home(size, n, b))
    ensures Carries(size, n, p, b) <==> p == Home(size, n, b)
  {
    hide Cut, PktCount, ShareSize, ShareOffset, WorkerOf, ChunkLen;
    HomeIsPlace(size, n, b);
    SegmentUnique(size, b, p.seg);
    CutShape(size, 0, p.seg);
    var seg := Cut(size, 0)[p.seg];
    var share, off := ShareSize(seg.size, n, p.worker), ShareOffset(seg.size, n, p.worker);
    ShareEnds(seg.size, n, p.worker);
    if p.seg == b / SEGMENT_SIZE {
      WorkerUnique(seg.size, n, b - seg.offset, p.worker);
      if off <= b - seg.offset { PacketOf(share, b - seg.offset - off, p.packet); }
    }
  }

  /** No packet carries bytes outside the collective. */
  lemma CarriesOnlyInside(size: nat, n: nat, p: Place, b: nat)
    requires n > 0 && IsPlace(size, n, p) && Carries(size, n, p, b)
    ensures b < size
  {
    CutShape(size, 0, p.seg);
    hide Cut, PktCount, ShareSize, ShareOffset;
    ShareEnds(Cut(size, 0)[p.seg].size, n, p.worker);
  }
}
