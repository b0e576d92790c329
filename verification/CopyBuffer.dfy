/** The byte ring behind the shared copy buffer (server/frontend/src/c/common.hpp:47-84). Blocks are
    allocated and freed in FIFO order, and a free is told only the size of the oldest block. */
module CopyBuffers {
  import opened NetCommon

  /** The buffer has CAPACITY + 1 bytes, numbered from 0. */
  const CAPACITY: nat := 8 * 1024 * 1024

  datatype Block = Block(start: nat, size: nat)

  /** Head and tail as the source keeps them. */
  datatype Ends = Ends(head: nat, tail: nat)

  function Available(e: Ends): int {
    if e.tail == 0 then CAPACITY - e.head
    else if e.head >= e.tail then Max(CAPACITY + 1 - e.head, e.tail - 1)
    else e.tail - 1 - e.head
  }

  /** Where an allocation of `size` puts its block and leaves the head. */
  function Place(e: Ends, size: nat): (nat, Ends) {
    var h := e.head + size;
    if h == CAPACITY + 1 then (e.head, e.(head := 0))
    else if h > CAPACITY + 1 then (0, e.(head := size))
    else (e.head, e.(head := h))
  }

  /** A free wraps the tail before advancing it when the block cannot lie behind the tail; the two
      assertions of the source are `Freeable`. */
  function TailBefore(e: Ends, size: nat): nat {
    if e.tail + size > CAPACITY then 0 else e.tail
  }

  predicate Freeable(e: Ends, size: nat) {
    && size <= CAPACITY
    && (e.tail + size > CAPACITY ==> e.head < e.tail)
    && var t := TailBefore(e, size); ((e.head >= t) <==> (e.head >= t + size))
  }

  function Freed(e: Ends, size: nat): Ends {
    e.(tail := TailBefore(e, size) + size)
  }

  // ----- what the two numbers stand for -----

  /** Blocks laid out one after the other from `from` to `to`. */
  predicate Chain(bs: seq<Block>, from: nat, to: nat) {
    if bs == [] then from == to
    else bs[0].start == from && Chain(bs[1..], from + bs[0].size, to)
  }

  /** The live blocks, oldest first: `low` lies behind the tail; `high` follows from the start of the
      buffer once the head has wrapped, which it does only when the next block did not fit. */
  datatype Layout = Layout(low: seq<Block>, high: seq<Block>, wrapped: bool, turn: nat)

  function Blocks(l: Layout): seq<Block> {
    l.low + l.high
  }

  predicate Represents(e: Ends, l: Layout) {
    && e.head <= CAPACITY && e.tail <= CAPACITY
    && Chain(l.low, e.tail, l.turn)
    && if l.wrapped then
         && e.head < e.tail
         && l.turn <= CAPACITY + 1
         && Chain(l.high, 0, e.head)
         && (l.turn == CAPACITY + 1 || (l.high != [] && l.turn + l.high[0].size > CAPACITY + 1))
       else l.high == [] && l.turn == e.head
  }

  lemma {:induction false} ChainOrder(bs: seq<Block>, from: nat, to: nat, i: nat)
    requires Chain(bs, from, to) && i < |bs|
    ensures from <= bs[i].start && bs[i].start + bs[i].size <= to
    ensures i + 1 < |bs| ==> bs[i].start + bs[i].size <= bs[i + 1].start
  {
    if i > 0 {
      ChainOrder(bs[1..], from + bs[0].size, to, i - 1);
    } else {
      ChainEnd(bs[1..], from + bs[0].size, to);
    }
  }

  lemma {:induction false} ChainEnd(bs: seq<Block>, from: nat, to: nat)
    requires Chain(bs, from, to)
    ensures from <= to
  {
    if bs != [] { ChainEnd(bs[1..], from + bs[0].size, to); }
  }

  lemma {:induction false} ChainApart(bs: seq<Block>, from: nat, to: nat, i: nat, j: nat)
    requires Chain(bs, from, to) && i < j < |bs|
    ensures bs[i].start + bs[i].size <= bs[j].start
  {
    if i > 0 {
      ChainApart(bs[1..], from + bs[0].size, to, i - 1, j - 1);
    } else {
      ChainOrder(bs[1..], from + bs[0].size, to, j - 1);
    }
  }

  lemma {:induction false} ChainSnoc(bs: seq<Block>, from: nat, to: nat, size: nat)
    requires Chain(bs, from, to)
    ensures Chain(bs + [Block(to, size)], from, to + size)
  {
    if bs != [] {
      ChainSnoc(bs[1..], from + bs[0].size, to, size);
      assert (bs + [Block(to, size)])[1..] == bs[1..] + [Block(to, size)];
    }
  }

  /** Pairwise disjoint blocks inside the buffer. */
  predicate Apart(bs: seq<Block>) {
    && (forall i :: 0 <= i < |bs| ==> bs[i].start + bs[i].size <= CAPACITY + 1)
    && (forall i, j :: 0 <= i < j < |bs| ==> NoOverlap(bs[i], bs[j]))
  }

  predicate NoOverlap(a: Block, b: Block) {
    a.start + a.size <= b.start || b.start + b.size <= a.start
  }

  /** Live blocks stay inside the buffer and never overlap. */
  lemma LiveApart(e: Ends, l: Layout)
    requires Represents(e, l)
    ensures Apart(Blocks(l))
  {
    var bs, n := Blocks(l), |l.low|;
    forall i | 0 <= i < |bs| ensures bs[i].start + bs[i].size <= CAPACITY + 1 {
      if i < n { ChainOrder(l.low, e.tail, l.turn, i); } else { ChainOrder(l.high, 0, e.head, i - n); }
    }
    forall i, j | 0 <= i < j < |bs| ensures NoOverlap(bs[i], bs[j]) {
      if j < n {
        ChainApart(l.low, e.tail, l.turn, i, j);
      } else if i < n {
        ChainOrder(l.low, e.tail, l.turn, i);
        ChainOrder(l.high, 0, e.head, j - n);
      } else {
        ChainApart(l.high, 0, e.head, i - n, j - n);
      }
    }
  }

  /** The bytes from a on are free: outside what lies between tail and head. */
  predicate FreeAt(e: Ends, a: nat, size: nat) {
    a + size <= CAPACITY + 1
    && if e.head >= e.tail then a >= e.head || a + size <= e.tail else a >= e.head && a + size <= e.tail
  }

  /** A size is available exactly when its block, where it would be placed, has free bytes, and the head
      does not come to meet the tail, which would mean that the ring is empty. */
  lemma AvailableIff(e: Ends, size: nat)
    requires e.head <= CAPACITY && e.tail <= CAPACITY && size > 0
    ensures size <= Available(e) <==> FreeAt(e, Place(e, size).0, size) && Place(e, size).1.head != e.tail
  {}

  /** An empty ring has room for half its bytes at least, wherever its head is. */
  lemma EmptyRoom(e: Ends, l: Layout)
    requires Represents(e, l) && Blocks(l) == []
    ensures Available(e) >= CAPACITY / 2
  {
    assert l.low == [] && l.high == [];
  }

  // ----- allocation -----

  function AllocLayout(e: Ends, l: Layout, size: nat): Layout {
    var b := Block(Place(e, size).0, size);
    if l.wrapped then l.(high := l.high + [b])
    else if e.head + size > CAPACITY + 1 then l.(high := [b], wrapped := true)
    else if e.head + size == CAPACITY + 1 then l.(low := l.low + [b], wrapped := true, turn := CAPACITY + 1)
    else l.(low := l.low + [b], turn := e.head + size)
  }

  /** An allocation within the available size appends its block to the queue of live blocks. */
  lemma AllocAppends(e: Ends, l: Layout, size: nat)
    requires Represents(e, l) && size <= Available(e)
    ensures Represents(Place(e, size).1, AllocLayout(e, l, size))
    ensures Blocks(AllocLayout(e, l, size)) == Blocks(l) + [Block(Place(e, size).0, size)]
  {
    if l.wrapped {
      ChainSnoc(l.high, 0, e.head, size);
      assert l.high != [] ==> (l.high + [Block(e.head, size)])[0] == l.high[0];
    } else {
      ChainSnoc(l.low, e.tail, e.head, size);
      ChainEnd(l.low, e.tail, e.head);
    }
  }

  // ----- freeing -----

  function FreeLayout(e: Ends, l: Layout): Layout
    requires Blocks(l) != []
  {
    if l.low != [] then l.(low := l.low[1..])
    else Layout(l.high[1..], [], false, e.head)
  }

  function Oldest(l: Layout): Block
    requires Blocks(l) != []
  {
    Blocks(l)[0]
  }

  /** The tail stands for exactly the remaining blocks once the oldest is gone. */
  ghost predicate FreesOldest(e: Ends, l: Layout)
    requires Blocks(l) != []
  {
    && Freeable(e, Oldest(l).size)
    && exists m :: Represents(Freed(e, Oldest(l).size), m) && Blocks(m) == Blocks(l)[1..]
  }

  lemma FreeGood(e: Ends, l: Layout)
    requires Represents(e, l) && Blocks(l) != []
    requires Oldest(l).start + Oldest(l).size != CAPACITY + 1
    ensures Freeable(e, Oldest(l).size)
    ensures Represents(Freed(e, Oldest(l).size), FreeLayout(e, l))
    ensures Blocks(FreeLayout(e, l)) == Blocks(l)[1..]
  {
    if l.low != [] {
      ChainOrder(l.low, e.tail, l.turn, 0);
      assert Blocks(l)[1..] == l.low[1..] + l.high;
    } else {
      ChainOrder(l.high, 0, e.head, 0);
      assert Blocks(l)[1..] == l.high[1..];
    }
  }

  lemma FreeBad(e: Ends, l: Layout, m: Layout)
    requires Represents(e, l) && Blocks(l) != []
    requires Oldest(l).start + Oldest(l).size == CAPACITY + 1
    requires Freeable(e, Oldest(l).size) && Represents(Freed(e, Oldest(l).size), m)
    ensures Blocks(m) != Blocks(l)[1..]
  {
    if l.low == [] {
      ChainOrder(l.high, 0, e.head, 0);
    } else {
      ChainOrder(l.low, e.tail, l.turn, 0);
      var size := Oldest(l).size;
      var rest := l.low[1..] + l.high;
      assert Blocks(l)[1..] == rest;
      if l.low[1..] != [] { ChainOrder(l.low[1..], CAPACITY + 1, l.turn, 0); }
      assert rest != [] && (rest[0].start == 0 || rest[0].start == CAPACITY + 1);
      if m.low != [] { assert Blocks(m)[0].start == size; }
    }
  }

  /** Freeing releases exactly the oldest block, and the source's assertions hold, if and only if that
      block does not end on the very last byte of the buffer. */
  lemma FreesOldestIff(e: Ends, l: Layout)
    requires Represents(e, l) && Blocks(l) != []
    ensures FreesOldest(e, l) <==> Oldest(l).start + Oldest(l).size != CAPACITY + 1
  {
    if Oldest(l).start + Oldest(l).size != CAPACITY + 1 {
      FreeGood(e, l);
    } else if FreesOldest(e, l) {
      var m :| Represents(Freed(e, Oldest(l).size), m) && Blocks(m) == Blocks(l)[1..];
      FreeBad(e, l, m);
    }
  }

  // ----- runs -----

  datatype Op = Alloc(size: nat) | Free

  datatype State = State(ends: Ends, live: seq<Block>)

  function Step(s: State, op: Op): State {
    match op
    case Alloc(size) =>
      if size > Available(s.ends) then s
      else var (at, e) := Place(s.ends, size); State(e, s.live + [Block(at, size)])
    case Free =>
      if s.live == [] then s else State(Freed(s.ends, s.live[0].size), s.live[1..])
  }

  function Run(ops: seq<Op>): State {
    if ops == [] then State(Ends(0, 0), []) else Step(Run(ops[..|ops| - 1]), ops[|ops| - 1])
  }

  // ----- sizes that never meet the last byte -----

  predicate OffEnd(b: Block) {
    b.start + b.size != CAPACITY + 1
  }

  /** The block of an allocation depends on the head and its size only. */
  function BlockAt(head: nat, size: nat): Block {
    Block(Place(Ends(head, 0), size).0, size)
  }

  function NextHead(head: nat, size: nat): nat {
    Place(Ends(head, 0), size).1.head
  }

  function HeadAfter(head: nat, sizes: seq<nat>): nat
    decreases |sizes|
  {
    if sizes == [] then head else HeadAfter(NextHead(head, sizes[0]), sizes[1..])
  }

  /** The blocks that these sizes get one after the other, whatever is freed in between. */
  function Placed(head: nat, sizes: seq<nat>): (bs: seq<Block>)
    ensures |bs| == |sizes|
    decreases |sizes|
  {
    if sizes == [] then [] else [BlockAt(head, sizes[0])] + Placed(NextHead(head, sizes[0]), sizes[1..])
  }

  predicate OffEnds(head: nat, sizes: seq<nat>) {
    forall i :: 0 <= i < |sizes| ==> OffEnd(Placed(head, sizes)[i])
  }

  lemma OffEndsFirst(head: nat, sizes: seq<nat>)
    requires sizes != []
    ensures OffEnds(head, sizes) <==> OffEnd(BlockAt(head, sizes[0])) && OffEnds(NextHead(head, sizes[0]), sizes[1..])
  {
    hide OffEnd, BlockAt, NextHead;
    var bs, rest := Placed(head, sizes), Placed(NextHead(head, sizes[0]), sizes[1..]);
    assert bs == [BlockAt(head, sizes[0])] + rest;
    hide Placed;
    if OffEnds(head, sizes) {
      assert OffEnd(bs[0]);
      forall i | 0 <= i < |rest| ensures OffEnd(rest[i]) { assert OffEnd(bs[i + 1]); }
    }
  }

  lemma {:induction false} PlacedSnoc(head: nat, sizes: seq<nat>, size: nat)
    ensures Placed(head, sizes + [size]) == Placed(head, sizes) + [BlockAt(HeadAfter(head, sizes), size)]
    ensures HeadAfter(head, sizes + [size]) == NextHead(HeadAfter(head, sizes), size)
    decreases |sizes|
  {
    hide BlockAt, NextHead;
    if sizes == [] {
      assert [size][1..] == [] && sizes + [size] == [size];
    } else {
      PlacedSnoc(NextHead(head, sizes[0]), sizes[1..], size);
      assert (sizes + [size])[1..] == sizes[1..] + [size];
    }
  }

  /** Sizes and more sizes after them. */
  lemma {:induction false} OffEndsAppend(head: nat, a: seq<nat>, b: seq<nat>)
    ensures OffEnds(head, a + b) <==> OffEnds(head, a) && OffEnds(HeadAfter(head, a), b)
    decreases |a|
  {
    hide OffEnd, BlockAt, NextHead, OffEnds;
    if a == [] {
      assert a + b == b;
      NoneEnds(head);
    } else {
      OffEndsFirst(head, a);
      OffEndsFirst(head, a + b);
      assert (a + b)[1..] == a[1..] + b;
      OffEndsAppend(NextHead(head, a[0]), a[1..], b);
    }
  }

  lemma NoneEnds(head: nat)
    ensures OffEnds(head, [])
  {}

  /** Even sizes never do. */
  lemma {:induction false} EvenOffEnds(head: nat, sizes: seq<nat>)
    requires head % 2 == 0 && forall i :: 0 <= i < |sizes| ==> sizes[i] % 2 == 0
    ensures OffEnds(head, sizes) && HeadAfter(head, sizes) % 2 == 0
    decreases |sizes|
  {
    if sizes != [] {
      OffEndsFirst(head, sizes);
      assert NextHead(head, sizes[0]) % 2 == 0;
      hide OffEnds;
      EvenOffEnds(NextHead(head, sizes[0]), sizes[1..]);
    }
  }

  // ----- runs in which no block meets it -----

  /** Head and tail represent the live blocks. */
  ghost predicate Good(s: State) {
    exists l :: Represents(s.ends, l) && Blocks(l) == s.live
  }

  ghost predicate Sound(s: State) {
    (forall i :: 0 <= i < |s.live| ==> OffEnd(s.live[i])) && Good(s)
  }

  /** Sizes of the allocations that were not refused. */
  function Accepted(ops: seq<Op>): seq<nat> {
    if ops == [] then []
    else
      var k := |ops| - 1;
      Accepted(ops[..k]) + if ops[k].Alloc? && ops[k].size <= Available(Run(ops[..k]).ends) then [ops[k].size] else []
  }

  /** The live blocks are the last ones placed. */
  predicate LastOf(s: State, bs: seq<Block>) {
    |s.live| <= |bs| && s.live == bs[|bs| - |s.live|..]
  }

  lemma {:induction false} RunPlaces(ops: seq<Op>)
    ensures Run(ops).ends.head == HeadAfter(0, Accepted(ops)) && LastOf(Run(ops), Placed(0, Accepted(ops)))
  {
    if ops != [] {
      var k := |ops| - 1;
      RunPlaces(ops[..k]);
      PlacesStep(Run(ops[..k]), ops[k], Accepted(ops[..k]));
      assert Accepted(ops[..k]) + [] == Accepted(ops[..k]);
      hide Placed, HeadAfter, Available, Step;
    }
  }

  lemma PlacesStep(s: State, op: Op, zs: seq<nat>)
    requires s.ends.head == HeadAfter(0, zs) && LastOf(s, Placed(0, zs))
    ensures var now := if op.Alloc? && op.size <= Available(s.ends) then zs + [op.size] else zs;
      Step(s, op).ends.head == HeadAfter(0, now) && LastOf(Step(s, op), Placed(0, now))
  {
    hide Placed, HeadAfter, Available;
    if op.Alloc? && op.size <= Available(s.ends) { PlacedSnoc(0, zs, op.size); }
  }

  /** Over every run in which no block ends on the last byte, even sizes for one, head and tail
      represent exactly the live blocks, so every free passes its assertions and releases the oldest block. */
  lemma {:induction false} AlwaysSound(ops: seq<Op>)
    requires OffEnds(0, Accepted(ops))
    ensures Sound(Run(ops)) && Apart(Run(ops).live)
    ensures Run(ops).live != [] ==> Freeable(Run(ops).ends, Run(ops).live[0].size)
  {
    if ops == [] {
      StartSound();
    } else {
      var k := |ops| - 1;
      OffBefore(ops);
      hide Sound, Step, Freeable, Apart, OffEnds, OffEnd;
      AlwaysSound(ops[..k]);
      StepSound(Run(ops[..k]), ops[k]);
    }
    hide *;
    SoundState(Run(ops));
  }

  lemma OffBefore(ops: seq<Op>)
    requires ops != [] && OffEnds(0, Accepted(ops))
    ensures var k := |ops| - 1;
      && OffEnds(0, Accepted(ops[..k]))
      && (ops[k].Alloc? && ops[k].size <= Available(Run(ops[..k]).ends) ==> OffEnd(BlockAt(Run(ops[..k]).ends.head, ops[k].size)))
  {
    hide Run, OffEnd, BlockAt, NextHead, Available, Placed, HeadAfter;
    var k := |ops| - 1;
    RunPlaces(ops[..k]);
    var s, zs := Run(ops[..k]), Accepted(ops[..k]);
    assert zs + [] == zs;
    if ops[k].Alloc? && ops[k].size <= Available(s.ends) { OffSnoc(zs, ops[k].size); }
  }

  lemma OffSnoc(zs: seq<nat>, size: nat)
    requires OffEnds(0, zs + [size])
    ensures OffEnds(0, zs) && OffEnd(BlockAt(HeadAfter(0, zs), size))
  {
    hide OffEnd, BlockAt, NextHead, Placed, HeadAfter;
    PlacedSnoc(0, zs, size);
    var bs := Placed(0, zs + [size]);
    assert OffEnd(bs[|zs|]);
    forall i | 0 <= i < |zs| ensures OffEnd(Placed(0, zs)[i]) { assert OffEnd(bs[i]); }
  }

  lemma EvenSound(ops: seq<Op>)
    requires forall i :: 0 <= i < |ops| && ops[i].Alloc? ==> ops[i].size % 2 == 0
    ensures OffEnds(0, Accepted(ops)) && Sound(Run(ops))
  {
    hide Sound, OffEnds;
    EvenAccepted(ops);
    EvenOffEnds(0, Accepted(ops));
    AlwaysSound(ops);
  }

  lemma {:induction false} EvenAccepted(ops: seq<Op>)
    requires forall i :: 0 <= i < |ops| && ops[i].Alloc? ==> ops[i].size % 2 == 0
    ensures forall i :: 0 <= i < |Accepted(ops)| ==> Accepted(ops)[i] % 2 == 0
  {
    hide Run, Available;
    if ops != [] { EvenAccepted(ops[..|ops| - 1]); }
  }

  lemma StartSound()
    ensures Sound(Run([]))
  {
    assert Represents(Ends(0, 0), Layout([], [], false, 0)) && Blocks(Layout([], [], false, 0)) == [];
  }

  lemma StepSound(s: State, op: Op)
    requires Sound(s)
    requires op.Alloc? && op.size <= Available(s.ends) ==> OffEnd(BlockAt(s.ends.head, op.size))
    ensures Sound(Step(s, op))
  {
    if op.Alloc? {
      AllocGood(s, op.size);
    } else if s.live != [] {
      var l :| Represents(s.ends, l) && Blocks(l) == s.live;
      assert OffEnd(Oldest(l));
      FreeGood(s.ends, l);
      assert Blocks(FreeLayout(s.ends, l)) == Step(s, op).live;
    }
  }

  lemma AllocGood(s: State, size: nat)
    requires Good(s)
    ensures Good(Step(s, Alloc(size)))
  {
    var l :| Represents(s.ends, l) && Blocks(l) == s.live;
    if size <= Available(s.ends) {
      AllocAppends(s.ends, l, size);
      assert Blocks(AllocLayout(s.ends, l, size)) == Step(s, Alloc(size)).live;
    }
  }

  lemma SoundState(s: State)
    requires Sound(s)
    ensures s.live != [] ==> Freeable(s.ends, s.live[0].size)
    ensures Apart(s.live)
  {
    var l :| Represents(s.ends, l) && Blocks(l) == s.live;
    LiveApart(s.ends, l);
    if s.live != [] {
      assert Oldest(l) == s.live[0];
      FreeGood(s.ends, l);
    }
  }

  // ----- and in no other -----

  /** A free in this state passes its assertions and releases exactly the oldest block. */
  ghost predicate FreesWell(s: State) {
    s.live != [] ==> Freeable(s.ends, s.live[0].size) && Good(Step(s, Free))
  }

  ghost predicate AllFreesWell(ops: seq<Op>) {
    forall k :: 0 <= k < |ops| && ops[k].Free? ==> FreesWell(Run(ops[..k]))
  }

  lemma FreesWellIff(s: State)
    requires Good(s) && s.live != []
    ensures FreesWell(s) <==> OffEnd(s.live[0])
  {
    var l :| Represents(s.ends, l) && Blocks(l) == s.live;
    FreesOldestIff(s.ends, l);
    hide Represents, Freeable;
    assert FreesWell(s) <==> FreesOldest(s.ends, l);
  }

  /** As long as all frees go well, head and tail represent the live blocks, and no block that is gone
      ended on the last byte. */
  lemma {:induction false} GoneOff(ops: seq<Op>)
    requires AllFreesWell(ops)
    ensures Good(Run(ops)) && LastOf(Run(ops), Placed(0, Accepted(ops)))
    ensures forall i :: 0 <= i < |Accepted(ops)| - |Run(ops).live| ==> OffEnd(Placed(0, Accepted(ops))[i])
  {
    hide Good, FreesWell, Available, OffEnd, HeadAfter, Placed, Step;
    RunPlaces(ops);
    if ops == [] {
      assert Good(Run([])) by { StartSound(); OfSound(Run([])); }
    } else {
      var k := |ops| - 1;
      assert AllFreesWell(ops[..k]) by { FreesBefore(ops); }
      GoneOff(ops[..k]);
      GoneStep(ops);
    }
  }

  lemma OfSound(s: State)
    requires Sound(s)
    ensures Good(s)
  {}

  lemma FreesBefore(ops: seq<Op>)
    requires ops != [] && AllFreesWell(ops)
    ensures AllFreesWell(ops[..|ops| - 1])
  {
    hide FreesWell, Run;
    var was := ops[..|ops| - 1];
    forall k | 0 <= k < |was| && was[k].Free? ensures FreesWell(Run(was[..k])) { assert was[..k] == ops[..k]; }
  }

  lemma GoneStep(ops: seq<Op>)
    requires ops != [] && AllFreesWell(ops)
    requires var was := ops[..|ops| - 1];
      && Good(Run(was)) && LastOf(Run(was), Placed(0, Accepted(was)))
      && forall i :: 0 <= i < |Accepted(was)| - |Run(was).live| ==> OffEnd(Placed(0, Accepted(was))[i])
    ensures Good(Run(ops))
    ensures forall i :: 0 <= i < |Accepted(ops)| - |Run(ops).live| ==> OffEnd(Placed(0, Accepted(ops))[i])
  {
    hide Good, Available, OffEnd, HeadAfter, Placed;
    var k := |ops| - 1;
    var s, zs := Run(ops[..k]), Accepted(ops[..k]);
    assert zs + [] == zs;
    if ops[k].Alloc? {
      AllocGood(s, ops[k].size);
      if ops[k].size <= Available(s.ends) {
        PlacedSnoc(0, zs, ops[k].size);
        assert forall i :: 0 <= i < |zs| ==> Placed(0, zs + [ops[k].size])[i] == Placed(0, zs)[i];
      }
    } else if s.live != [] {
      FreesWellIff(s);
      assert FreesWell(Run(ops[..k]));
      assert s.live[0] == Placed(0, zs)[|zs| - |s.live|];
    }
  }

  /** A run that frees all its blocks passes every assertion, each free releasing the oldest block, if
      and only if none of the blocks that its sizes get ends on the last byte: when it frees them does not
      matter. */
  lemma RunsWellIff(ops: seq<Op>)
    requires Run(ops).live == []
    ensures AllFreesWell(ops) <==> OffEnds(0, Accepted(ops))
  {
    hide Run, Accepted, Placed, OffEnd, FreesWell;
    if AllFreesWell(ops) {
      GoneOff(ops);
    }
    if OffEnds(0, Accepted(ops)) {
      forall k | 0 <= k < |ops| && ops[k].Free? ensures FreesWell(Run(ops[..k])) { WellAt(ops, k); }
    }
  }

  lemma {:induction false} WellAt(ops: seq<Op>, k: nat)
    requires OffEnds(0, Accepted(ops)) && k <= |ops|
    ensures OffEnds(0, Accepted(ops[..k])) && FreesWell(Run(ops[..k]))
    decreases |ops|
  {
    if k == |ops| {
      assert ops[..k] == ops;
      hide Accepted, OffEnds, Run;
      AlwaysSound(ops);
      SoundWell(Run(ops));
    } else {
      OffBefore(ops);
      assert ops[..|ops| - 1][..k] == ops[..k];
      hide Accepted, OffEnds, Run, FreesWell;
      WellAt(ops[..|ops| - 1], k);
    }
  }

  lemma SoundWell(s: State)
    requires Sound(s)
    ensures FreesWell(s)
  {
    if s.live != [] { FreesWellIff(s); }
  }

  // ----- an exact fit -----

  const MIB2: nat := 2 * 1024 * 1024

  /** The allocations of a first broadcast of 8388606 bytes, its frees, and a broadcast of 3 bytes. */
  function TwoCalls(): seq<Op> {
    [Alloc(MIB2)] + [Alloc(MIB2)] + [Alloc(MIB2)] + [Alloc(MIB2 - 2)] + [Free] + [Free] + [Free] + [Free] + [Alloc(3)]
  }

  lemma RunStep(ops: seq<Op>, op: Op)
    ensures Run(ops + [op]) == Step(Run(ops), op)
  {
    assert (ops + [op])[..|ops|] == ops;
  }

  /** The last block of these two calls ends on the buffer's last byte, and freeing it fails an
      assertion of the source. */
  lemma ExactFitFails()
    ensures Run(TwoCalls()) == State(Ends(0, CAPACITY - 2), [Block(CAPACITY - 2, 3)])
    ensures !Freeable(Run(TwoCalls()).ends, 3)
  {
    hide Run;
    var a, b, c := Alloc(MIB2), Alloc(MIB2 - 2), Alloc(3);
    var s4 := [a] + [a] + [a] + [b];
    assert Run([a] + [a] + [a]) == State(Ends(3 * MIB2, 0), [Block(0, MIB2), Block(MIB2, MIB2), Block(2 * MIB2, MIB2)]) by { ThreeAllocs(); }
    RunStep([a] + [a] + [a], b);
    RunStep(s4, Free);
    RunStep(s4 + [Free], Free);
    RunStep(s4 + [Free] + [Free], Free);
    RunStep(s4 + [Free] + [Free] + [Free], Free);
    RunStep(s4 + [Free] + [Free] + [Free] + [Free], c);
  }

  lemma ThreeAllocs()
    ensures var a := Alloc(MIB2);
      Run([a] + [a] + [a]) == State(Ends(3 * MIB2, 0), [Block(0, MIB2), Block(MIB2, MIB2), Block(2 * MIB2, MIB2)])
  {
    var a := Alloc(MIB2);
    var none: seq<Op> := [];
    assert Run(none) == State(Ends(0, 0), []);
    hide Run;
    RunStep(none, a);
    assert none + [a] == [a];
    RunStep([a], a);
    RunStep([a] + [a], a);
  }

  class CopyBuffer {
    var head: nat
    var tail: nat
    ghost var layout: Layout

    ghost function Live(): seq<Block>
      reads this
    {
      Blocks(layout)
    }

    ghost predicate Valid()
      reads this
    {
      Represents(Ends(head, tail), layout)
    }

    constructor ()
      ensures Valid() && Live() == [] && head == 0
    {
      head, tail := 0, 0;
      layout := Layout([], [], false, 0);
    }

    method AvailableSpace() returns (n: int)
      ensures n == Available(Ends(head, tail))
    {
      if tail == 0 { return CAPACITY - head; }
      if head >= tail { return Max(CAPACITY + 1 - head, tail - 1); }
      n := tail - 1 - head;
    }

    /** Refused exactly when the size exceeds the available space; otherwise the block joins the
        queue of live blocks, apart from all of them. */
    method FifoAllocate(size: nat) returns (r: Option<nat>)
      requires Valid()
      modifies this
      ensures Valid()
      ensures r.None? <==> size > old(Available(Ends(head, tail)))
      ensures r.None? ==> Live() == old(Live()) && head == old(head) && tail == old(tail)
      ensures r.Some? ==> Live() == old(Live()) + [Block(r.value, size)]
      ensures r.Some? ==> (r.value, Ends(head, tail)) == Place(old(Ends(head, tail)), size)
    {
      var avail := AvailableSpace();
      if size > avail { return None; }
      AllocAppends(Ends(head, tail), layout, size);
      layout := AllocLayout(Ends(head, tail), layout, size);
      r := Some(head);
      head := head + size;
      if head == CAPACITY + 1 { head := 0; }
      if head > CAPACITY + 1 { r, head := Some(0), size; }
    }

    /** Given the size of the oldest block, and unless that block ends on the last byte, release it. */
    method FifoFree(size: nat)
      requires Valid() && Live() != [] && size == Live()[0].size
      requires Live()[0].start + size != CAPACITY + 1
      modifies this
      ensures Valid() && Live() == old(Live())[1..]
      ensures Ends(head, tail) == Freed(old(Ends(head, tail)), size)
    {
      FreeGood(Ends(head, tail), layout);
      layout := FreeLayout(Ends(head, tail), layout);
      assert size <= CAPACITY;
      if tail + size > CAPACITY {
        assert head < tail;
        tail := 0;
      }
      assert (head >= tail) == (head >= tail + size);
      tail := tail + size;
    }
  }

  /** The ring of operation slots (server/frontend/src/c/common.hpp:86-107). Slots are handed out and
      returned in turn; `first` counts the returned ones, so the live slots are first..first + cnt. */
  class OpBuffer {
    var head: nat
    var cnt: nat
    ghost var first: nat

    ghost predicate Valid()
      reads this
    {
      cnt <= QUEUE_SIZE && head == (first + cnt) % QUEUE_SIZE
    }

    constructor ()
      ensures Valid() && first == 0 && cnt == 0
    {
      head, cnt, first := 0, 0, 0;
    }

    method Available() returns (n: int)
      ensures n == QUEUE_SIZE - cnt
    {
      n := QUEUE_SIZE - cnt;
    }

    /** The slot of the next operation in turn, unless all are live. */
    method FifoAllocate() returns (r: Option<nat>)
      requires Valid()
      modifies this
      ensures Valid() && first == old(first)
      ensures r == if old(cnt) == QUEUE_SIZE then None else Some((first + old(cnt)) % QUEUE_SIZE)
      ensures cnt == if r.None? then old(cnt) else old(cnt) + 1
    {
      if cnt == QUEUE_SIZE { return None; }
      r := Some(head);
      cnt := cnt + 1;
      head := head + 1;
      if head == QUEUE_SIZE { head := 0; }
    }

    method FifoFree()
      requires Valid() && cnt != 0
      modifies this
      ensures Valid() && first == old(first) + 1 && cnt == old(cnt) - 1
    {
      cnt := cnt - 1;
      first := first + 1;
    }
  }

  /** Two live operations never share a slot. */
  lemma SlotsDistinct(first: nat, cnt: nat, i: nat, j: nat)
    requires cnt <= QUEUE_SIZE && first <= i < j < first + cnt
    ensures i % QUEUE_SIZE != j % QUEUE_SIZE
  {
    var a, b := i / QUEUE_SIZE, j / QUEUE_SIZE;
    assert i == a * QUEUE_SIZE + i % QUEUE_SIZE && j == b * QUEUE_SIZE + j % QUEUE_SIZE;
  }
}
