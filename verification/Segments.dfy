/** The controller's list of free switch-memory segments (switch/bfrt_grpc.py:54-65, 100-143). */
module Segments {
  import opened NetCommon
  import opened Modular

  const MTU_SIZE: nat := 256
  const SWITCH_MEM_SIZE: nat := 4 * 1024 * 1024
  const ALLOC_SIZE: nat := 256 * 1024

  /** Addresses lo..hi, hi excluded. */
  datatype Seg = Seg(lo: nat, hi: nat)

  predicate In(s: Seg, a: int) {
    s.lo <= a < s.hi
  }

  /** Address a is free. */
  predicate Covers(ms: seq<Seg>, a: int) {
    exists i :: 0 <= i < |ms| && In(ms[i], a)
  }

  /** Non-empty segments in ascending order, none overlapping, all inside the memory. */
  predicate Ordered(ms: seq<Seg>) {
    && (forall i :: 0 <= i < |ms| ==> ms[i].lo < ms[i].hi <= SWITCH_MEM_SIZE)
    && (forall i, j :: 0 <= i < j < |ms| ==> ms[i].hi <= ms[j].lo)
  }

  /** No two neighbours touch. */
  predicate Coalesced(ms: seq<Seg>) {
    forall i :: 0 < i < |ms| ==> ms[i - 1].hi != ms[i].lo
  }

  predicate AlignedTo(ms: seq<Seg>, n: nat)
    requires n > 0
  {
    forall i :: 0 <= i < |ms| ==> ms[i].lo % n == 0 && ms[i].hi % n == 0
  }

  // ----- first fit -----

  function UpperAlign(x: nat, n: nat): (r: int)
    requires n > 0
    ensures x <= r < x + n && r % n == 0
  {
    UpperAlignBound(x, n);
    (x + n - 1) / n * n
  }

  lemma UpperAlignBound(x: nat, n: nat)
    requires n > 0
    ensures x <= (x + n - 1) / n * n < x + n
    ensures ((x + n - 1) / n * n) % n == 0
  {
    var q := (x + n - 1) / n;
    assert x + n - 1 == q * n + (x + n - 1) % n;
    ModUnique(q * n, n, q, 0);
  }

  /** Lowest aligned address in the segment with `size` bytes after it. */
  function AddrInSeg(s: Seg, size: nat): Option<int>
    requires size > 0
  {
    var addr := UpperAlign(s.lo, size);
    if addr + size <= s.hi then Some(addr) else None
  }

  datatype Fit = Invalid | NoFit | Found(index: nat, addr: int)

  function BitAnd(a: nat, b: nat): nat {
    if a == 0 || b == 0 then 0 else 2 * BitAnd(a / 2, b / 2) + (a % 2) * (b % 2)
  }

  predicate IsPower2(x: nat) {
    x > 0 && BitAnd(x, x - 1) == 0
  }

  predicate PowerOfTwo(x: nat) {
    x == 1 || (x > 0 && x % 2 == 0 && PowerOfTwo(x / 2))
  }

  /** The bit trick recognizes exactly the powers of two. */
  lemma {:induction false} IsPower2Iff(x: nat)
    ensures IsPower2(x) <==> PowerOfTwo(x)
  {
    if x > 1 && x % 2 == 0 {
      IsPower2Iff(x / 2);
      assert (x - 1) / 2 == x / 2 - 1;
      assert BitAnd(x, x - 1) == 2 * BitAnd(x / 2, x / 2 - 1);
    } else if x > 1 {
      assert (x - 1) / 2 == x / 2 && (x - 1) % 2 == 0;
      BitAndSelf(x / 2);
      assert BitAnd(x, x - 1) == 2 * (x / 2);
    }
  }

  lemma {:induction false} BitAndSelf(x: nat)
    ensures BitAnd(x, x) == x
  {
    if x > 0 { BitAndSelf(x / 2); }
  }

  /** First segment with room for an aligned block. */
  function FirstFit(ms: seq<Seg>, size: nat, from: nat): (r: Fit)
    requires size > 0 && from <= |ms|
    ensures !r.Invalid?
    ensures r.Found? ==> from <= r.index < |ms| && AddrInSeg(ms[r.index], size) == Some(r.addr)
    ensures forall i :: from <= i < (if r.Found? then r.index else |ms|) ==> AddrInSeg(ms[i], size).None?
    decreases |ms| - from
  {
    if from == |ms| then NoFit
    else match AddrInSeg(ms[from], size)
      case Some(a) => Found(from, a)
      case None => FirstFit(ms, size, from + 1)
  }

  function FitSeg(ms: seq<Seg>, size: nat): Fit
    requires size > 0
  {
    if size % MTU_SIZE != 0 || !IsPower2(size / MTU_SIZE) then Invalid else FirstFit(ms, size, 0)
  }

  /** Sizes other than a power of two of packets are refused. */
  lemma InvalidIff(ms: seq<Seg>, size: nat)
    requires size > 0
    ensures FitSeg(ms, size).Invalid? <==> !(size % MTU_SIZE == 0 && PowerOfTwo(size / MTU_SIZE))
  {
    hide IsPower2, PowerOfTwo, FirstFit;
    IsPower2Iff(size / MTU_SIZE);
  }

  /** With every boundary a multiple of the block size there is no fragmentation: a block is found
      whenever any memory is free, and it is the start of the first free segment. */
  lemma NoFragmentation(ms: seq<Seg>, size: nat)
    requires Ordered(ms) && size > 0 && AlignedTo(ms, size)
    ensures FirstFit(ms, size, 0) == if ms == [] then NoFit else Found(0, ms[0].lo)
    ensures ms == [] <==> forall a :: !Covers(ms, a)
  {
    if ms != [] {
      AlignedFits(ms[0], size);
      assert In(ms[0], ms[0].lo);
      assert Covers(ms, ms[0].lo);
    }
  }

  lemma AlignedFits(s: Seg, size: nat)
    requires s.lo < s.hi && size > 0 && s.lo % size == 0 && s.hi % size == 0
    ensures AddrInSeg(s, size) == Some(s.lo) && s.lo + size <= s.hi
  {
    var a, b := s.lo / size, s.hi / size;
    assert s.lo == a * size && s.hi == b * size;
    MulAtLeast(b - a, size);
    assert (b - a) * size == s.hi - s.lo;
    var r := UpperAlign(s.lo, size);
    var c := SameMod(s.lo, r, size);
    MulAtLeast(c, size);
  }

  // ----- allocation -----

  /** Cut lo..hi out of segment `index`. */
  function AllocSeg(ms: seq<Seg>, index: nat, lo: nat, hi: nat): seq<Seg>
    requires index < |ms|
  {
    var s := ms[index];
    ms[..index]
    + (if s.lo != lo then [Seg(s.lo, lo)] else [])
    + (if s.hi != hi then [Seg(hi, s.hi)] else [])
    + ms[index + 1..]
  }

  lemma AllocKeeps(ms: seq<Seg>, index: nat, lo: nat, hi: nat, n: nat)
    requires Ordered(ms) && index < |ms| && ms[index].lo <= lo < hi <= ms[index].hi
    requires n > 0 && AlignedTo(ms, n) && lo % n == 0 && hi % n == 0
    ensures Ordered(AllocSeg(ms, index, lo, hi)) && AlignedTo(AllocSeg(ms, index, lo, hi), n)
    ensures forall a :: Covers(AllocSeg(ms, index, lo, hi), a) <==> Covers(ms, a) && !(lo <= a < hi)
  {
    AllocShape(ms, index, lo, hi, n);
    hide AllocSeg, Covers, AlignedTo;
    forall a ensures Covers(AllocSeg(ms, index, lo, hi), a) <==> Covers(ms, a) && !(lo <= a < hi) {
      AllocCovers(ms, index, lo, hi, a);
    }
  }

  function Remains(s: Seg, lo: nat, hi: nat): seq<Seg> {
    (if s.lo != lo then [Seg(s.lo, lo)] else []) + (if s.hi != hi then [Seg(hi, s.hi)] else [])
  }

  lemma AllocSplice(ms: seq<Seg>, index: nat, lo: nat, hi: nat)
    requires index < |ms|
    ensures AllocSeg(ms, index, lo, hi) == ms[..index] + Remains(ms[index], lo, hi) + ms[index + 1..]
  {}

  lemma AllocShape(ms: seq<Seg>, index: nat, lo: nat, hi: nat, n: nat)
    requires Ordered(ms) && index < |ms| && ms[index].lo <= lo < hi <= ms[index].hi
    requires n > 0 && AlignedTo(ms, n) && lo % n == 0 && hi % n == 0
    ensures Ordered(AllocSeg(ms, index, lo, hi)) && AlignedTo(AllocSeg(ms, index, lo, hi), n)
  {
    hide AllocSeg, Covers;
    AllocSplice(ms, index, lo, hi);
    SpliceKeeps(ms, index, index + 1, Remains(ms[index], lo, hi), n, ms[index].lo, ms[index].hi);
  }

  lemma AllocCovers(ms: seq<Seg>, index: nat, lo: nat, hi: nat, a: int)
    requires Ordered(ms) && index < |ms| && ms[index].lo <= lo < hi <= ms[index].hi
    ensures Covers(AllocSeg(ms, index, lo, hi), a) <==> Covers(ms, a) && !(lo <= a < hi)
  {
    hide AllocSeg, Covers, Ordered;
    var s := ms[index];
    AllocSplice(ms, index, lo, hi);
    SpliceCovers(ms, index, index + 1, Remains(s, lo, hi), a);
    assert ms[index..index + 1] == [s];
    One(s, a);
    CoversTwo(s.lo, lo, hi, s.hi, a);
    if lo <= a < hi { OnlyOwner(ms, index, a); }
  }

  lemma CoversTwo(x: nat, lo: nat, hi: nat, y: nat, a: int)
    requires x <= lo < hi <= y
    ensures Covers((if x != lo then [Seg(x, lo)] else []) + (if y != hi then [Seg(hi, y)] else []), a) <==>
            x <= a < y && !(lo <= a < hi)
  {
    var mid := (if x != lo then [Seg(x, lo)] else []) + (if y != hi then [Seg(hi, y)] else []);
    if x <= a < lo { assert In(mid[0], a); }
    if hi <= a < y { assert In(mid[|mid| - 1], a); }
  }

  /** An address inside one segment is in no other. */
  lemma OnlyOwner(ms: seq<Seg>, i: nat, a: int)
    requires Ordered(ms) && i < |ms| && In(ms[i], a)
    ensures !Covers(ms[..i], a) && !Covers(ms[i + 1..], a)
  {}

  lemma CoversConcat(a: seq<Seg>, b: seq<Seg>, x: int)
    ensures Covers(a + b, x) <==> Covers(a, x) || Covers(b, x)
  {
    if Covers(a, x) { var i :| 0 <= i < |a| && In(a[i], x); assert (a + b)[i] == a[i]; }
    if Covers(b, x) { var i :| 0 <= i < |b| && In(b[i], x); assert (a + b)[|a| + i] == b[i]; }
    if Covers(a + b, x) {
      var i :| 0 <= i < |a + b| && In((a + b)[i], x);
      if i < |a| { assert In(a[i], x); } else { assert In(b[i - |a|], x); }
    }
  }

  /** Replacing segments i..j by others. */
  lemma SpliceCovers(ms: seq<Seg>, i: nat, j: nat, mid: seq<Seg>, x: int)
    requires i <= j <= |ms|
    ensures Covers(ms[..i] + mid + ms[j..], x) <==> Covers(ms[..i], x) || Covers(mid, x) || Covers(ms[j..], x)
    ensures Covers(ms, x) <==> Covers(ms[..i], x) || Covers(ms[i..j], x) || Covers(ms[j..], x)
  {
    CoversConcat(ms[..i] + mid, ms[j..], x);
    CoversConcat(ms[..i], mid, x);
    assert ms == ms[..i] + ms[i..j] + ms[j..];
    CoversConcat(ms[..i] + ms[i..j], ms[j..], x);
    CoversConcat(ms[..i], ms[i..j], x);
  }

  lemma SpliceKeeps(ms: seq<Seg>, i: nat, j: nat, mid: seq<Seg>, n: nat, lo: nat, hi: nat)
    requires Ordered(ms) && i <= j <= |ms| && n > 0 && AlignedTo(ms, n)
    requires Ordered(mid) && AlignedTo(mid, n)
    requires forall k :: 0 <= k < |mid| ==> lo <= mid[k].lo && mid[k].hi <= hi
    requires i > 0 ==> ms[i - 1].hi <= lo
    requires j < |ms| ==> hi <= ms[j].lo
    requires lo <= hi
    ensures Ordered(ms[..i] + mid + ms[j..]) && AlignedTo(ms[..i] + mid + ms[j..], n)
  {
    var a, b := ms[..i], ms[j..];
    Joined(a, mid, n);
    Joined(a + mid, b, n);
  }

  lemma Joined(a: seq<Seg>, b: seq<Seg>, n: nat)
    requires Ordered(a) && Ordered(b) && n > 0 && AlignedTo(a, n) && AlignedTo(b, n)
    requires a != [] && b != [] ==> a[|a| - 1].hi <= b[0].lo
    ensures Ordered(a + b) && AlignedTo(a + b, n)
  {
    var c := a + b;
    forall i, j | 0 <= i < j < |c| ensures c[i].hi <= c[j].lo {
      if i < |a| <= j {
        assert i < |a| - 1 ==> a[i].hi <= a[|a| - 1].lo;
        assert j > |a| ==> b[0].hi <= b[j - |a|].lo;
      }
    }
  }

  // ----- release -----

  /** First segment that ends after lo. */
  function FirstAfter(ms: seq<Seg>, lo: nat, from: nat): (k: nat)
    requires from <= |ms|
    ensures from <= k <= |ms|
    ensures forall i :: from <= i < k ==> ms[i].hi <= lo
    ensures k < |ms| ==> ms[k].hi > lo
    decreases |ms| - from
  {
    if from < |ms| && ms[from].hi <= lo then FirstAfter(ms, lo, from + 1) else from
  }

  /** Return lo..hi to the list; None when it overlaps a free segment, where the source exits. After
      merging on the left, the index of the right neighbour is stale: it names the segment behind. */
  function FreeSeg(ms: seq<Seg>, lo: nat, hi: nat): Option<seq<Seg>> {
    var k := FirstAfter(ms, lo, 0);
    if k < |ms| && ms[k].lo < hi then None
    else
      var touchL := k > 0 && ms[k - 1].hi == lo;
      var ms1 := if touchL then ms[..k - 1] + ms[k..] else ms;
      var touchR := k < |ms1| && ms1[k].lo == hi;
      var ms2 := if touchR then ms1[..k] + ms1[k + 1..] else ms1;
      var index := if touchL then k - 1 else k;
      var seg := Seg(if touchL then ms[k - 1].lo else lo, if touchR then ms1[k].hi else hi);
      Some(ms2[..index] + [seg] + ms2[index..])
  }

  /** What the release amounts to: the neighbours it merges are replaced by one segment. */
  lemma FreeIsSplice(ms: seq<Seg>, lo: nat, hi: nat)
    requires Ordered(ms) && lo < hi && FreeSeg(ms, lo, hi).Some?
    ensures var k := FirstAfter(ms, lo, 0);
      var ns := FreeSeg(ms, lo, hi).value;
      if k > 0 && ms[k - 1].hi == lo then ns == ms[..k - 1] + [Seg(ms[k - 1].lo, hi)] + ms[k..]
      else if k < |ms| && ms[k].lo == hi then ns == ms[..k] + [Seg(lo, ms[k].hi)] + ms[k + 1..]
      else ns == ms[..k] + [Seg(lo, hi)] + ms[k..]
  {
    var k := FirstAfter(ms, lo, 0);
    if k > 0 && ms[k - 1].hi == lo {
      var ms1 := ms[..k - 1] + ms[k..];
      if k < |ms1| {
        assert ms1[k] == ms[k + 1];
        assert ms[k].hi <= ms[k + 1].lo;
      }
      assert ms1[..k - 1] == ms[..k - 1] && ms1[k - 1..] == ms[k..];
    } else if k < |ms| && ms[k].lo == hi {
      var ms2 := ms[..k] + ms[k + 1..];
      assert ms2[..k] == ms[..k] && ms2[k..] == ms[k + 1..];
    }
  }

  predicate Overlaps(ms: seq<Seg>, lo: nat, hi: nat) {
    exists a :: lo <= a < hi && Covers(ms, a)
  }

  /** The source gives up exactly when part of the released range is free already. */
  lemma FreeFailsIff(ms: seq<Seg>, lo: nat, hi: nat)
    requires Ordered(ms) && lo < hi
    ensures FreeSeg(ms, lo, hi).None? <==> Overlaps(ms, lo, hi)
  {
    var k := FirstAfter(ms, lo, 0);
    if FreeSeg(ms, lo, hi).None? {
      var a := Max(lo, ms[k].lo);
      assert In(ms[k], a);
      assert Covers(ms, a);
    } else {
      forall i | k < i < |ms| ensures hi <= ms[i].lo { assert ms[k].hi <= ms[i].lo; }
      GapUncovered(ms, lo, hi, k);
    }
  }

  lemma GapUncovered(ms: seq<Seg>, lo: nat, hi: nat, k: nat)
    requires k <= |ms| && (forall i :: 0 <= i < k ==> ms[i].hi <= lo) && (forall i :: k <= i < |ms| ==> hi <= ms[i].lo)
    ensures !Overlaps(ms, lo, hi)
  {}

  lemma {:induction false} One(x: Seg, a: int)
    ensures Covers([x], a) <==> In(x, a)
  {
    if In(x, a) { assert In([x][0], a); }
  }

  /** A release adds exactly its range to the free memory and keeps the list ordered and aligned. */
  lemma FreeKeeps(ms: seq<Seg>, lo: nat, hi: nat, n: nat)
    requires Ordered(ms) && lo < hi <= SWITCH_MEM_SIZE && !Overlaps(ms, lo, hi)
    requires n > 0 && AlignedTo(ms, n) && lo % n == 0 && hi % n == 0
    ensures FreeSeg(ms, lo, hi).Some?
    ensures var ns := FreeSeg(ms, lo, hi).value;
      && Ordered(ns) && AlignedTo(ns, n)
      && (forall a :: Covers(ns, a) <==> Covers(ms, a) || lo <= a < hi)
  {
    FreeFailsIff(ms, lo, hi);
    hide FreeSeg, Overlaps, Covers, AlignedTo, Ordered;
    FreeIsSplice(ms, lo, hi);
    var k := FirstAfter(ms, lo, 0);
    AroundGap(ms, lo, hi, k, n);
    if k > 0 && ms[k - 1].hi == lo {
      OneSplice(ms, k - 1, k, Seg(ms[k - 1].lo, hi), lo, hi, n);
    } else if k < |ms| && ms[k].lo == hi {
      OneSplice(ms, k, k + 1, Seg(lo, ms[k].hi), lo, hi, n);
    } else {
      OneSplice(ms, k, k, Seg(lo, hi), lo, hi, n);
    }
  }

  /** Where the released range lies between its neighbours. */
  lemma AroundGap(ms: seq<Seg>, lo: nat, hi: nat, k: nat, n: nat)
    requires Ordered(ms) && lo < hi <= SWITCH_MEM_SIZE && FreeSeg(ms, lo, hi).Some? && k == FirstAfter(ms, lo, 0)
    requires n > 0 && AlignedTo(ms, n)
    ensures k > 0 ==> ms[k - 1].lo < ms[k - 1].hi <= lo && ms[k - 1].lo % n == 0
    ensures k > 1 ==> ms[k - 2].hi <= ms[k - 1].lo
    ensures k < |ms| ==> hi <= ms[k].lo < ms[k].hi <= SWITCH_MEM_SIZE && ms[k].hi % n == 0
    ensures k + 1 < |ms| ==> ms[k].hi <= ms[k + 1].lo
  {}

  /** Replacing segments i..j, at most one of them, by x, which adds exactly lo..hi. */
  lemma OneSplice(ms: seq<Seg>, i: nat, j: nat, x: Seg, lo: nat, hi: nat, n: nat)
    requires Ordered(ms) && n > 0 && AlignedTo(ms, n) && i <= j <= |ms| && j <= i + 1
    requires x.lo < x.hi <= SWITCH_MEM_SIZE && x.lo % n == 0 && x.hi % n == 0
    requires i > 0 ==> ms[i - 1].hi <= x.lo
    requires j < |ms| ==> x.hi <= ms[j].lo
    requires if i == j then x == Seg(lo, hi)
             else (x == Seg(ms[i].lo, hi) && ms[i].hi == lo && ms[i].lo < lo < hi) || (x == Seg(lo, ms[i].hi) && ms[i].lo == hi && lo < hi < ms[i].hi)
    ensures var ns := ms[..i] + [x] + ms[j..];
      && Ordered(ns) && AlignedTo(ns, n)
      && (forall a :: Covers(ns, a) <==> Covers(ms, a) || lo <= a < hi)
  {
    hide Covers;
    SpliceKeeps(ms, i, j, [x], n, x.lo, x.hi);
    hide Ordered, AlignedTo;
    forall a ensures Covers(ms[..i] + [x] + ms[j..], a) <==> Covers(ms, a) || lo <= a < hi {
      SpliceCovers(ms, i, j, [x], a);
      One(x, a);
      if i < j {
        assert ms[i..j] == [ms[i]];
        One(ms[i], a);
      } else {
        assert ms[i..j] == [];
        NothingCovered(a);
      }
    }
  }

  lemma NothingCovered(a: int)
    ensures !Covers([], a)
  {}

  predicate EndsAt(ms: seq<Seg>, a: nat) {
    exists i :: 0 <= i < |ms| && ms[i].hi == a
  }

  predicate StartsAt(ms: seq<Seg>, a: nat) {
    exists i :: 0 <= i < |ms| && ms[i].lo == a
  }

  /** A release into a coalesced list leaves it coalesced unless free memory touches the range on both
      sides; then the right neighbour stays unmerged. */
  lemma CoalescedIff(ms: seq<Seg>, lo: nat, hi: nat)
    requires Ordered(ms) && Coalesced(ms) && lo < hi && FreeSeg(ms, lo, hi).Some?
    ensures Coalesced(FreeSeg(ms, lo, hi).value) <==> !(EndsAt(ms, lo) && StartsAt(ms, hi))
  {
    FreeIsSplice(ms, lo, hi);
    var k := FirstAfter(ms, lo, 0);
    assert k < |ms| ==> ms[k].lo >= hi;
    Neighbours(ms, lo, hi, k);
    hide FreeSeg, FirstAfter, EndsAt, StartsAt;
    if k > 0 && ms[k - 1].hi == lo {
      SpliceCoalesced(ms, k - 1, k, Seg(ms[k - 1].lo, hi));
    } else if k < |ms| && ms[k].lo == hi {
      SpliceCoalesced(ms, k, k + 1, Seg(lo, ms[k].hi));
    } else {
      SpliceCoalesced(ms, k, k, Seg(lo, hi));
    }
  }

  lemma SpliceCoalesced(ms: seq<Seg>, i: nat, j: nat, x: Seg)
    requires Coalesced(ms) && i <= j <= |ms|
    ensures Coalesced(ms[..i] + [x] + ms[j..]) <==>
      (i > 0 ==> ms[i - 1].hi != x.lo) && (j < |ms| ==> x.hi != ms[j].lo)
  {
    var ns := ms[..i] + [x] + ms[j..];
    assert ns[i] == x;
    assert i > 0 ==> ns[i - 1] == ms[i - 1];
    assert j < |ms| ==> ns[i + 1] == ms[j];
    assert forall k :: 0 <= k < |ns| ==> ns[k] == if k < i then ms[k] else if k == i then x else ms[k - i - 1 + j];
  }

  lemma Neighbours(ms: seq<Seg>, lo: nat, hi: nat, k: nat)
    requires Ordered(ms) && lo < hi && k == FirstAfter(ms, lo, 0) && (k < |ms| ==> ms[k].lo >= hi)
    ensures EndsAt(ms, lo) <==> k > 0 && ms[k - 1].hi == lo
    ensures StartsAt(ms, hi) <==> k < |ms| && ms[k].lo == hi
  {
    if EndsAt(ms, lo) {
      var i :| 0 <= i < |ms| && ms[i].hi == lo;
    }
    if StartsAt(ms, hi) {
      var i :| 0 <= i < |ms| && ms[i].lo == hi;
    }
  }
}
