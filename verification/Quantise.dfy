/** How a floating-point collective becomes an integer one (server/frontend/src/py/__init__.py:366-414):
    every rank scales by the same factor and truncates, 32-bit integers are added in the network, and
    the sum is scaled back. Over exact reals: rounding in floating point is not modelled. */
module Quantise {
  import opened NetCommon

  /** 2^31 - 2^7, the largest 32-bit float that fits an int32. */
  const LIMIT: int := 0x7fffff80
  const INT32: int := 0x8000_0000
  /** Largest finite 32-bit float. */
  const FLT_MAX: real := 340282346638528859811704183484516925440.0

  function Abs(x: real): real {
    if x < 0.0 then -x else x
  }

  /** Conversion to an integer drops the fraction. */
  function Trunc(x: real): int {
    if x < 0.0 then -(-x).Floor else x.Floor
  }

  lemma TruncClose(x: real)
    ensures Abs(Trunc(x) as real) <= Abs(x) && Abs(x - Trunc(x) as real) < 1.0
  {}

  /** Largest magnitude in a tensor. */
  function MaxAbs(t: seq<real>): (m: real)
    requires t != []
    ensures m >= 0.0 && forall j :: 0 <= j < |t| ==> Abs(t[j]) <= m
    ensures exists j :: 0 <= j < |t| && Abs(t[j]) == m
  {
    var k := |t| - 1;
    if k == 0 then Abs(t[0])
    else
      var m := MaxAbs(t[..k]);
      assert forall j :: 0 <= j < k ==> t[..k][j] == t[j];
      if Abs(t[k]) > m then Abs(t[k]) else m
  }

  // ----- sums over some of the ranks -----

  /** Sum of the values of those ranks below k that belong to s. */
  function SumOver(xs: seq<real>, s: set<nat>, k: nat): real
    requires k <= |xs|
  {
    if k == 0 then 0.0 else SumOver(xs, s, k - 1) + if k - 1 in s then xs[k - 1] else 0.0
  }

  predicate IsRank(r: nat, n: nat) {
    r < n
  }

  function AllRanks(n: nat): (s: set<nat>)
    ensures forall r: nat :: r in s <==> r < n
  {
    set r: nat | r < n && IsRank(r, n)
  }

  function Sum(xs: seq<real>): real {
    SumOver(xs, AllRanks(|xs|), |xs|)
  }

  lemma {:induction false} SumSplit(xs: seq<real>, a: set<nat>, b: set<nat>, k: nat)
    requires a !! b && k <= |xs|
    ensures SumOver(xs, a + b, k) == SumOver(xs, a, k) + SumOver(xs, b, k)
  {
    if k > 0 { SumSplit(xs, a, b, k - 1); }
  }

  lemma {:induction false} SumSingle(xs: seq<real>, r: nat, k: nat)
    requires k <= |xs|
    ensures SumOver(xs, {r}, k) == if r < k then xs[r] else 0.0
  {
    if k > 0 { SumSingle(xs, r, k - 1); }
  }

  lemma {:induction false} SumWithin(xs: seq<real>, s: set<nat>, t: set<nat>, k: nat)
    requires k <= |xs| && s <= t && forall i :: 0 <= i < |xs| ==> xs[i] >= 0.0
    ensures 0.0 <= SumOver(xs, s, k) <= SumOver(xs, t, k)
  {
    if k > 0 { SumWithin(xs, s, t, k - 1); }
  }

  lemma Distribute(f: real, a: real, b: real)
    ensures f * (a + b) == f * a + f * b
  {}

  /** Scaled by f, a sum of magnitudes bounds the magnitude of the sum of truncations. */
  lemma {:induction false} SumBound(qs: seq<real>, ms: seq<real>, f: real, s: set<nat>, k: nat)
    requires k <= |qs| == |ms| && forall i :: 0 <= i < |qs| ==> Abs(qs[i]) <= f * ms[i]
    ensures Abs(SumOver(qs, s, k)) <= f * SumOver(ms, s, k)
  {
    if k > 0 {
      SumBound(qs, ms, f, s, k - 1);
      if k - 1 in s { Distribute(f, SumOver(ms, s, k - 1), ms[k - 1]); }
    }
  }

  function Times(x: real, f: real): real {
    x * f
  }

  /** How far the integer q is from x scaled by f. */
  function Err(x: real, q: real, f: real): real {
    Abs(Times(x, f) - q)
  }

  lemma ErrAdds(a: real, b: real, x: real, q: real, f: real)
    ensures Err(a + x, b + q, f) <= Err(a, b, f) + Err(x, q, f)
    ensures Err(0.0, 0.0, f) == 0.0
  {
    assert Times(a + x, f) == Times(a, f) + Times(x, f);
  }

  /** Truncation loses less than one per rank. */
  lemma {:induction false} SumError(xs: seq<real>, qs: seq<real>, f: real, s: set<nat>, k: nat)
    requires k <= |qs| == |xs| && forall i :: 0 <= i < |xs| ==> Err(xs[i], qs[i], f) < 1.0
    ensures Err(SumOver(xs, s, k), SumOver(qs, s, k), f) <= Members(s, k) as real
    ensures Members(s, k) > 0 ==> Err(SumOver(xs, s, k), SumOver(qs, s, k), f) < Members(s, k) as real
  {
    hide Err;
    if k == 0 {
      ErrAdds(0.0, 0.0, 0.0, 0.0, f);
    } else {
      SumError(xs, qs, f, s, k - 1);
      var a, b := SumOver(xs, s, k - 1), SumOver(qs, s, k - 1);
      if k - 1 in s {
        ErrAdds(a, b, xs[k - 1], qs[k - 1], f);
      } else {
        assert SumOver(xs, s, k) == a && SumOver(qs, s, k) == b;
      }
    }
  }

  /** How many ranks below k belong to s. */
  function Members(s: set<nat>, k: nat): nat {
    if k == 0 then 0 else Members(s, k - 1) + if k - 1 in s then 1 else 0
  }

  lemma {:induction false} MembersAll(n: nat, k: nat)
    requires k <= n
    ensures Members(AllRanks(n), k) == k
  {
    if k > 0 { MembersAll(n, k - 1); }
  }

  lemma {:induction false} MembersBut(n: nat, r: nat, k: nat)
    requires k <= n
    ensures Members(AllRanks(n) - {r}, k) == if r < k then k - 1 else k
  {
    if k > 0 { MembersBut(n, r, k - 1); }
  }

  // ----- quantisation -----

  datatype Decision = Skip | Fallback | Quantised(factor: real)

  /** `total` is the sum of the ranks' largest magnitudes. */
  function Decide(total: real): Decision
    requires total >= 0.0
  {
    if total == 0.0 then Skip
    else
      var factor := LIMIT as real / total;
      if factor > FLT_MAX then Fallback else Quantised(factor)
  }

  lemma FactorTimes(total: real)
    requires total > 0.0
    ensures LIMIT as real / total > 0.0 && LIMIT as real / total * total == LIMIT as real
  {}

  /** The values of one position over all ranks, with bounds that the ranks announced. */
  predicate Announced(xs: seq<real>, ms: seq<real>) {
    |xs| == |ms| && forall i :: 0 <= i < |xs| ==> Abs(xs[i]) <= ms[i]
  }

  function Scaled(x: real, f: real): int {
    Trunc(Times(x, f))
  }

  function Quantised32(xs: seq<real>, f: real): (qs: seq<int>)
    ensures |qs| == |xs| && forall i :: 0 <= i < |xs| ==> qs[i] == Scaled(xs[i], f)
  {
    seq(|xs|, i requires 0 <= i < |xs| => Scaled(xs[i], f))
  }

  /** The factor that the ranks agree on. */
  predicate IsFactor(f: real, ms: seq<real>) {
    Sum(ms) > 0.0 && f == LIMIT as real / Sum(ms)
  }

  function Reals(qs: seq<int>): (r: seq<real>)
    ensures |r| == |qs| && forall i :: 0 <= i < |qs| ==> r[i] == qs[i] as real
  {
    seq(|qs|, i requires 0 <= i < |qs| => qs[i] as real)
  }

  lemma ScaledBound(x: real, m: real, f: real)
    requires f > 0.0 && Abs(x) <= m
    ensures Abs(Scaled(x, f) as real) <= f * m && Err(x, Scaled(x, f) as real, f) < 1.0
  {
    TruncClose(Times(x, f));
    if x < 0.0 { assert (-x) * f <= m * f; } else { assert x * f <= m * f; }
  }

  /** Every partial sum, over any of the ranks, fits an int32. */
  lemma PartialSumFits(xs: seq<real>, ms: seq<real>, f: real, s: set<nat>)
    requires Announced(xs, ms) && IsFactor(f, ms)
    ensures Abs(SumOver(Reals(Quantised32(xs, f)), s, |xs|)) <= LIMIT as real
  {
    hide SumOver, Scaled;
    FactorTimes(Sum(ms));
    PartialBound(xs, ms, f, s);
  }

  lemma PartialBound(xs: seq<real>, ms: seq<real>, f: real, s: set<nat>)
    requires Announced(xs, ms) && f > 0.0
    ensures Abs(SumOver(Reals(Quantised32(xs, f)), s, |xs|)) <= f * Sum(ms)
  {
    hide SumOver, Scaled;
    var qs, n := Reals(Quantised32(xs, f)), |xs|;
    forall i | 0 <= i < n ensures Abs(qs[i]) <= f * ms[i] { ScaledBound(xs[i], ms[i], f); }
    SumBound(qs, ms, f, s, n);
    SumWithinAll(ms, s, n);
    ScaleLess(f, SumOver(ms, s, n), Sum(ms));
  }

  lemma ScaleLess(f: real, a: real, b: real)
    requires f > 0.0 && a <= b
    ensures f * a <= f * b
  {}

  lemma {:induction false} SumWithinAll(ms: seq<real>, s: set<nat>, k: nat)
    requires k <= |ms| && forall i :: 0 <= i < |ms| ==> ms[i] >= 0.0
    ensures SumOver(ms, s, k) <= SumOver(ms, AllRanks(|ms|), k)
  {
    if k > 0 { SumWithinAll(ms, s, k - 1); }
  }

  // ----- the network's additions -----

  /** The order in which the network adds: any tree over the ranks. */
  datatype Tree = Leaf(rank: nat) | Add(left: Tree, right: Tree)

  function Ranks(t: Tree): set<nat> {
    match t
    case Leaf(r) => {r}
    case Add(a, b) => Ranks(a) + Ranks(b)
  }

  /** No rank is added twice. */
  predicate Once(t: Tree) {
    match t
    case Leaf(_) => true
    case Add(a, b) => Once(a) && Once(b) && Ranks(a) !! Ranks(b)
  }

  /** The switch's 32-bit addition saturates (switch/aggregator.p4:22-27). */
  function Saturate(x: int): int {
    if x < -INT32 then -INT32 else if x >= INT32 then INT32 - 1 else x
  }

  predicate Within(t: Tree, n: nat) {
    match t
    case Leaf(r) => r < n
    case Add(a, b) => Within(a, n) && Within(b, n)
  }

  function Evaluate(t: Tree, qs: seq<int>): int
    requires Within(t, |qs|)
  {
    match t
    case Leaf(r) => Saturate(qs[r])
    case Add(a, b) => Saturate(Evaluate(a, qs) + Evaluate(b, qs))
  }

  /** The sum of the leaves. */
  function Exact(t: Tree, qs: seq<int>): int
    requires Within(t, |qs|)
  {
    match t
    case Leaf(r) => qs[r]
    case Add(a, b) => Exact(a, qs) + Exact(b, qs)
  }

  /** Values of one sign that are too large in sum end at the largest value of that sign. */
  lemma {:induction false} EndsAtBound(t: Tree, qs: seq<int>)
    requires Within(t, |qs|)
    ensures (forall i :: 0 <= i < |qs| ==> qs[i] >= 0) ==> Exact(t, qs) >= 0 && Evaluate(t, qs) == Min(Exact(t, qs), INT32 - 1)
    ensures (forall i :: 0 <= i < |qs| ==> qs[i] <= 0) ==> Exact(t, qs) <= 0 && Evaluate(t, qs) == Max(Exact(t, qs), -INT32)
    decreases t
  {
    match t
    case Leaf(r) =>
    case Add(a, b) =>
      EndsAtBound(a, qs);
      EndsAtBound(b, qs);
  }

  /** No sum over some of the ranks leaves 32 bits. */
  ghost predicate Fits(qs: seq<int>) {
    forall s: set<nat> :: -INT32 as real <= SumOver(Reals(qs), s, |qs|) < INT32 as real
  }

  /** Then the additions give the exact sum in whatever order and grouping. */
  lemma {:induction false} TreeIsExact(t: Tree, qs: seq<int>)
    requires Fits(qs) && Once(t) && Within(t, |qs|)
    ensures Evaluate(t, qs) as real == SumOver(Reals(qs), Ranks(t), |qs|)
    decreases t
  {
    hide SumOver;
    assert -INT32 as real <= SumOver(Reals(qs), Ranks(t), |qs|) < INT32 as real;
    match t
    case Leaf(r) => SumSingle(Reals(qs), r, |qs|);
    case Add(a, b) =>
      TreeIsExact(a, qs);
      TreeIsExact(b, qs);
      SumSplit(Reals(qs), Ranks(a), Ranks(b), |qs|);
  }

  /** In whatever order and grouping the quantised values are added, nothing saturates and the result
      is the exact sum. */
  lemma AnyOrderIsExact(t: Tree, xs: seq<real>, ms: seq<real>, f: real)
    requires Announced(xs, ms) && IsFactor(f, ms)
    requires Once(t) && Within(t, |xs|)
    ensures Evaluate(t, Quantised32(xs, f)) as real == SumOver(Reals(Quantised32(xs, f)), Ranks(t), |xs|)
    ensures -LIMIT <= Evaluate(t, Quantised32(xs, f)) <= LIMIT
  {
    hide SumOver, Scaled, IsFactor, Announced, Evaluate;
    QuantisedFits(xs, ms, f);
    TreeIsExact(t, Quantised32(xs, f));
    PartialSumFits(xs, ms, f, Ranks(t));
  }

  lemma QuantisedFits(xs: seq<real>, ms: seq<real>, f: real)
    requires Announced(xs, ms) && IsFactor(f, ms)
    ensures Fits(Quantised32(xs, f))
  {
    hide SumOver, Scaled, IsFactor, Announced;
    var qs := Quantised32(xs, f);
    forall s: set<nat> ensures -INT32 as real <= SumOver(Reals(qs), s, |qs|) < INT32 as real { PartialSumFits(xs, ms, f, s); }
  }

  /** What quantisation loses at each rank. */
  lemma ErrorsOf(xs: seq<real>, ms: seq<real>, f: real)
    requires Announced(xs, ms) && IsFactor(f, ms)
    ensures f > 0.0 && forall i :: 0 <= i < |xs| ==> Err(xs[i], Reals(Quantised32(xs, f))[i], f) < 1.0
  {
    FactorTimes(Sum(ms));
    hide SumOver, Scaled, Err;
    forall i | 0 <= i < |xs| ensures Err(xs[i], Reals(Quantised32(xs, f))[i], f) < 1.0 { ScaledBound(xs[i], ms[i], f); }
  }

  // ----- accuracy -----

  lemma DivideError(a: real, b: real, f: real, n: nat)
    requires f > 0.0 && Err(a, b, f) < n as real
    ensures Abs(b / f - a) < n as real / f
  {
    var e := b / f - a;
    assert e * f == b - Times(a, f);
    assert n as real / f * f == n as real;
    if e >= 0.0 { DivideLess(e, n as real / f, f); } else { DivideLess(-e, n as real / f, f); }
  }

  lemma DivideLess(a: real, b: real, f: real)
    requires f > 0.0
    ensures a * f <= b * f ==> a <= b
    ensures a * f < b * f ==> a < b
  {
    if a > b { assert (a - b) * f > 0.0; }
  }

  /** What all ranks' truncations lose. */
  lemma SumAccurate(xs: seq<real>, ms: seq<real>, f: real)
    requires Announced(xs, ms) && IsFactor(f, ms) && |xs| > 0
    ensures Abs(SumOver(Reals(Quantised32(xs, f)), AllRanks(|xs|), |xs|) / f - Sum(xs)) < |xs| as real / f
  {
    hide SumOver, Scaled, IsFactor, Announced, Err, Abs;
    var n, qs := |xs|, Reals(Quantised32(xs, f));
    ErrorsOf(xs, ms, f);
    SumError(xs, qs, f, AllRanks(n), n);
    MembersAll(n, n);
    DivideError(Sum(xs), SumOver(qs, AllRanks(n), n), f, n);
  }

  /** The dequantised sum, added in any order, is within n divided by the factor of the true sum. */
  lemma AllReduceAccurate(t: Tree, xs: seq<real>, ms: seq<real>, f: real)
    requires Announced(xs, ms) && IsFactor(f, ms)
    requires Once(t) && Within(t, |xs|) && Ranks(t) == AllRanks(|xs|) && |xs| > 0
    ensures Abs(Evaluate(t, Quantised32(xs, f)) as real / f - Sum(xs)) < |xs| as real / f
  {
    hide SumOver, Scaled, IsFactor, Announced, Evaluate, Err, Abs;
    AnyOrderIsExact(t, xs, ms, f);
    SumAccurate(xs, ms, f);
  }

  /** The root of a reduction adds its own scaled value untruncated, so one rank less contributes. */
  lemma SumOfOthersAccurate(root: nat, xs: seq<real>, ms: seq<real>, f: real)
    requires Announced(xs, ms) && IsFactor(f, ms) && root < |xs| && |xs| > 1
    ensures Abs((SumOver(Reals(Quantised32(xs, f)), AllRanks(|xs|) - {root}, |xs|) + Times(xs[root], f)) / f - Sum(xs)) < (|xs| - 1) as real / f
  {
    hide SumOver, Scaled, IsFactor, Announced, Err, Abs;
    var n, qs, others := |xs|, Reals(Quantised32(xs, f)), AllRanks(|xs|) - {root};
    ErrorsOf(xs, ms, f);
    SumError(xs, qs, f, others, n);
    MembersBut(n, root, n);
    assert others + {root} == AllRanks(n);
    SumSplit(xs, others, {root}, n);
    SumSingle(xs, root, n);
    var a, b := SumOver(xs, others, n), SumOver(qs, others, n);
    ErrAdds(a, b, xs[root], Times(xs[root], f), f);
    ErrNone(xs[root], f);
    DivideError(a + xs[root], b + Times(xs[root], f), f, n - 1);
  }

  lemma ReduceAccurate(t: Tree, root: nat, xs: seq<real>, ms: seq<real>, f: real)
    requires Announced(xs, ms) && IsFactor(f, ms)
    requires root < |xs| && Once(t) && Within(t, |xs|) && Ranks(t) == AllRanks(|xs|) - {root}
    ensures Abs((Evaluate(t, Quantised32(xs, f)) as real + Times(xs[root], f)) / f - Sum(xs)) < (|xs| - 1) as real / f
  {
    hide SumOver, Scaled, IsFactor, Announced, Evaluate, Err, Abs;
    AnyOrderIsExact(t, xs, ms, f);
    NonEmptyTree(t);
    SumOfOthersAccurate(root, xs, ms, f);
  }

  lemma ErrNone(x: real, f: real)
    ensures Err(x, Times(x, f), f) == 0.0
  {}

  lemma NonEmptyTree(t: Tree)
    ensures Ranks(t) != {}
  {}

  /** When every rank announces zero, every rank already holds the sum. */
  lemma {:induction false} SkipIsExact(xs: seq<real>, ms: seq<real>, k: nat)
    requires Announced(xs, ms) && Sum(ms) == 0.0 && k <= |xs|
    ensures SumOver(xs, AllRanks(|xs|), k) == 0.0
    ensures forall i :: 0 <= i < k ==> xs[i] == 0.0
  {
    if k > 0 {
      SkipIsExact(xs, ms, k - 1);
      SumSingle(ms, k - 1, |ms|);
      SumWithin(ms, {k - 1}, AllRanks(|ms|), |ms|);
    }
  }

  // ----- in place -----

  /** Before the network: scale the tensor in place and truncate, unless there is nothing to do or
      the factor is not representable. */
  method Prepare(tensor: array<real>, total: real) returns (d: Decision, q: seq<int>)
    requires total >= 0.0
    modifies tensor
    ensures d == Decide(total)
    ensures d.Quantised? ==> q == Quantised32(old(tensor[..]), d.factor)
    ensures d.Quantised? ==> forall j :: 0 <= j < tensor.Length ==> tensor[j] == Times(old(tensor[j]), d.factor)
    ensures !d.Quantised? ==> q == [] && tensor[..] == old(tensor[..])
  {
    q := [];
    if total == 0.0 { return Skip, q; }
    var factor := LIMIT as real / total;
    if factor > FLT_MAX { return Fallback, q; }
    ghost var was := tensor[..];
    forall j | 0 <= j < tensor.Length { tensor[j] := Times(tensor[j], factor); }
    q := seq(tensor.Length, j requires 0 <= j < tensor.Length reads tensor => Trunc(tensor[j]));
    assert forall j :: 0 <= j < tensor.Length ==> tensor[j] == Times(was[j], factor);
    assert forall j :: 0 <= j < tensor.Length ==> q[j] == Scaled(was[j], factor);
    assert q == Quantised32(was, factor);
    d := Quantised(factor);
  }

  /** After the network: take or add the integer sums, and scale back. */
  method Finish(tensor: array<real>, code: OpCode, isRoot: bool, sums: seq<int>, factor: real)
    requires factor > 0.0 && |sums| == tensor.Length && (code.AllReduce? || code.Reduce?)
    modifies tensor
    ensures code.AllReduce? ==> forall j :: 0 <= j < tensor.Length ==> tensor[j] == sums[j] as real / factor
    ensures code.Reduce? && isRoot ==> forall j :: 0 <= j < tensor.Length ==> tensor[j] == (old(tensor[j]) + sums[j] as real) / factor
    ensures code.Reduce? && !isRoot ==> forall j :: 0 <= j < tensor.Length ==> tensor[j] == old(tensor[j]) / factor
  {
    if code.AllReduce? || isRoot {
      if code.AllReduce? {
        forall j | 0 <= j < tensor.Length { tensor[j] := sums[j] as real; }
      } else {
        forall j | 0 <= j < tensor.Length { tensor[j] := tensor[j] + sums[j] as real; }
      }
    }
    forall j | 0 <= j < tensor.Length { tensor[j] := tensor[j] / factor; }
  }

  // ----- whole tensors -----

  function Column(ts: seq<seq<real>>, j: nat): (xs: seq<real>)
    requires forall i :: 0 <= i < |ts| ==> j < |ts[i]|
    ensures |xs| == |ts| && forall i :: 0 <= i < |ts| ==> xs[i] == ts[i][j]
  {
    seq(|ts|, i requires 0 <= i < |ts| => ts[i][j])
  }

  function Announcements(ts: seq<seq<real>>): (ms: seq<real>)
    requires forall i :: 0 <= i < |ts| ==> ts[i] != []
    ensures |ms| == |ts| && forall i :: 0 <= i < |ts| ==> ms[i] == MaxAbs(ts[i])
  {
    seq(|ts|, i requires 0 <= i < |ts| => MaxAbs(ts[i]))
  }

  lemma TinyTotal(total: real)
    requires total > 0.0 && LIMIT as real / total > FLT_MAX
    ensures total * FLT_MAX < LIMIT as real
  {
    FactorTimes(total);
    var f := LIMIT as real / total;
    assert (f - FLT_MAX) * total > 0.0;
  }

  /** What an all-reduce leaves at position j of every rank, for tensors of equal length: the true
      sum up to n divided by the factor, the true sum exactly when all are zero, and the fallback only
      for tiny magnitudes. The network may add each position in an order of its own. */
  lemma AllReduceTensor(ts: seq<seq<real>>, j: nat, t: Tree)
    requires |ts| > 0 && (forall i :: 0 <= i < |ts| ==> j < |ts[i]|)
    requires Once(t) && Within(t, |ts|) && Ranks(t) == AllRanks(|ts|)
    ensures var xs, total := Column(ts, j), Sum(Announcements(ts));
      && total >= 0.0
      && match Decide(total)
         case Skip => Sum(xs) == 0.0 && (forall i :: 0 <= i < |ts| ==> ts[i][j] == Sum(xs))
         case Fallback => total * FLT_MAX < LIMIT as real
         case Quantised(f) =>
           && -INT32 <= Evaluate(t, Quantised32(xs, f)) < INT32
           && Abs(Evaluate(t, Quantised32(xs, f)) as real / f - Sum(xs)) < |ts| as real / f
  {
    hide SumOver, Scaled, Evaluate, MaxAbs, Abs;
    var xs, ms := Column(ts, j), Announcements(ts);
    SumWithin(ms, {}, AllRanks(|ms|), |ms|);
    SumWithin(ms, AllRanks(|ms|), AllRanks(|ms|), |ms|);
    var total := Sum(ms);
    match Decide(total)
    case Skip => SkipIsExact(xs, ms, |xs|);
    case Fallback => TinyTotal(total);
    case Quantised(f) =>
      AnyOrderIsExact(t, xs, ms, f);
      AllReduceAccurate(t, xs, ms, f);
  }
}
