/** One aggregator of the switch: a version, a bitmap of ranks, and 64 sums
    (switch/ingress.p4:199-204, 275-303, 322-416; switch/aggregator.p4:12-79; switch/forward.p4:54-92). */
module Aggregators {
  import opened NetCommon
  import opened Transport
  import opened Modular
  import Q = Quantise

  const LANES: nat := 64

  /** 64 signed 32-bit integers. */
  type Words = w: seq<int> | |w| == LANES && (forall x :: 0 <= x < LANES ==> -Q.INT32 <= w[x] < Q.INT32) witness seq(LANES, _ => 0)

  datatype Slot = Slot(version: nat, seen: set<nat>, sums: Words)

  /** A packet; one that comes without payload has zeros. */
  datatype Arrival = Arrival(version: nat, rank: nat, words: Words)

  /** The group number and the low 24 bits of the sequence number. */
  function Version(group: nat, psn: nat): nat {
    group % 0x100 * 0x100_0000 + psn % 0x100_0000
  }

  // ----- the steps -----

  /** The bitmap that the packet finds: another version's does not count. */
  function Old(s: Slot, a: Arrival): set<nat> {
    if s.version == a.version then s.seen else {}
  }

  function SatAdd(x: Words, y: Words): (r: Words)
    ensures forall i :: 0 <= i < LANES ==> r[i] == Q.Saturate(x[i] + y[i])
  {
    seq(LANES, i requires 0 <= i < LANES => Q.Saturate(x[i] + y[i]))
  }

  /** The first packet of a version overwrites the sums, another rank's is added, a repeated one only
      reads. */
  function Arrive(s: Slot, a: Arrival): Slot {
    Slot(a.version, Old(s, a) + {a.rank},
         if Old(s, a) == {} then a.words else if a.rank !in Old(s, a) then SatAdd(s.sums, a.words) else s.sums)
  }

  /** All bits are set, or all but the packet's own. */
  function Full(s: Slot, a: Arrival, n: nat): bool {
    var was, all := Old(s, a), Q.AllRanks(n);
    was == all || was == (if a.rank in all then all - {a.rank} else all + {a.rank})
  }

  /** The answer to a packet, for a group of n members, and whether it goes to all of them or only to
      the one that repeats itself. */
  datatype Reply = Dropped | ToAll(sums: Words) | ToOne(sums: Words)

  function Answer(s: Slot, a: Arrival, n: nat): Reply {
    if !Full(s, a, n) then Dropped
    else if a.rank !in Old(s, a) then ToAll(Arrive(s, a).sums)
    else ToOne(Arrive(s, a).sums)
  }

  function After(s: Slot, arrivals: seq<Arrival>): Slot {
    if arrivals == [] then s else Arrive(After(s, arrivals[..|arrivals| - 1]), arrivals[|arrivals| - 1])
  }

  // ----- what an answer contains -----

  /** One addition after the other, in this order. */
  function Chain(order: seq<nat>): (t: Q.Tree)
    requires order != []
  {
    if |order| == 1 then Q.Leaf(order[0]) else Q.Add(Chain(order[..|order| - 1]), Q.Leaf(order[|order| - 1]))
  }

  predicate Distinct(order: seq<nat>) {
    forall i, j :: 0 <= i < j < |order| ==> order[i] != order[j]
  }

  /** Lane x of every member's packet. */
  function Lane(W: seq<Words>, x: nat): (r: seq<int>)
    requires x < LANES
    ensures |r| == |W| && forall k :: 0 <= k < |W| ==> r[k] == W[k][x]
  {
    seq(|W|, k requires 0 <= k < |W| => W[k][x])
  }

  lemma {:induction false} ChainShape(order: seq<nat>, n: nat)
    requires order != [] && Distinct(order) && forall i :: 0 <= i < |order| ==> order[i] < n
    ensures Q.Once(Chain(order)) && Q.Within(Chain(order), n)
    ensures forall r :: r in Q.Ranks(Chain(order)) <==> r in order
  {
    if |order| > 1 {
      var k := |order| - 1;
      ChainShape(order[..k], n);
      assert order == order[..k] + [order[k]];
      assert order[k] !in order[..k];
    }
  }

  /** The packets of version v are those that the n members sent, repeated in any number, in any order,
      and with packets of any other version in between. */
  predicate Sent(arrivals: seq<Arrival>, v: nat, W: seq<Words>) {
    forall i :: 0 <= i < |arrivals| && arrivals[i].version == v ==>
      arrivals[i].rank < |W| && arrivals[i].words == W[arrivals[i].rank]
  }

  /** The slot holds the sum, in this order, of the packets of the members that its bitmap names. */
  ghost predicate Holds(s: Slot, order: seq<nat>, W: seq<Words>) {
    && order != [] && Distinct(order) && (forall i :: 0 <= i < |order| ==> order[i] < |W|)
    && (forall r :: r in s.seen <==> r in order)
    && Q.Within(Chain(order), |W|)
    && (forall x :: 0 <= x < LANES ==> s.sums[x] == Q.Evaluate(Chain(order), Lane(W, x)))
  }

  lemma ArriveHolds(s: Slot, a: Arrival, order: seq<nat>, W: seq<Words>) returns (now: seq<nat>)
    requires a.rank < |W| && a.words == W[a.rank]
    requires Old(s, a) != {} ==> Holds(s, order, W)
    ensures Holds(Arrive(s, a), now, W)
  {
    hide Q.Saturate;
    if Old(s, a) == {} {
      now := [a.rank];
      FirstHolds(a, W);
    } else if a.rank in s.seen {
      now := order;
      assert Arrive(s, a) == s.(seen := s.seen + {a.rank});
    } else {
      now := order + [a.rank];
      NextHolds(s, a, order, W);
    }
  }

  lemma FirstHolds(a: Arrival, W: seq<Words>)
    requires a.rank < |W| && a.words == W[a.rank]
    ensures Holds(Slot(a.version, {} + {a.rank}, a.words), [a.rank], W)
  {}

  lemma NextHolds(s: Slot, a: Arrival, order: seq<nat>, W: seq<Words>)
    requires a.rank < |W| && a.words == W[a.rank] && Holds(s, order, W) && a.rank !in s.seen
    ensures Holds(Slot(a.version, s.seen + {a.rank}, SatAdd(s.sums, a.words)), order + [a.rank], W)
  {
    hide Q.Saturate;
    var now := order + [a.rank];
    ChainShape(now, |W|);
    assert now[..|now| - 1] == order;
    forall x | 0 <= x < LANES ensures SatAdd(s.sums, a.words)[x] == Q.Evaluate(Chain(now), Lane(W, x)) {
      NoSaturation(W[a.rank][x]);
    }
  }

  lemma NoSaturation(x: int)
    ensures -Q.INT32 <= x < Q.INT32 ==> Q.Saturate(x) == x
  {}

  /** After any sequence of packets, the slot holds a sum of the packets of its own version. */
  lemma {:induction false} SlotHolds(s: Slot, arrivals: seq<Arrival>, v: nat, W: seq<Words>) returns (order: seq<nat>)
    requires s.seen == {} && Sent(arrivals, v, W)
    ensures After(s, arrivals).version == v && After(s, arrivals).seen != {} ==> Holds(After(s, arrivals), order, W)
  {
    order := [];
    if arrivals != [] {
      var k := |arrivals| - 1;
      order := SlotHolds(s, arrivals[..k], v, W);
      if arrivals[k].version == v {
        order := ArriveHolds(After(s, arrivals[..k]), arrivals[k], order, W);
      }
    }
  }

  /** The members in some order, each once. */
  ghost predicate IsOrder(order: seq<nat>, n: nat) {
    Distinct(order) && (forall r :: r in order <==> r in Q.AllRanks(n))
  }

  /** The words of the answer are the members' words, added in this order. */
  ghost predicate SumsUp(sums: Words, order: seq<nat>, W: seq<Words>) {
    && order != [] && IsOrder(order, |W|) && Q.Once(Chain(order)) && Q.Within(Chain(order), |W|)
    && Q.Ranks(Chain(order)) == Q.AllRanks(|W|)
    && (forall x :: 0 <= x < LANES ==> sums[x] == Q.Evaluate(Chain(order), Lane(W, x)))
  }

  /** Whatever packets arrived before, a packet is answered exactly when the members whose packets the
      slot has seen since it was last given to another version, this one included, are all of them;
      the answer then is the sum of one packet of each, in the order in which they came. The packet that
      completes the version is answered to all members, a repeated one to its sender. */
  lemma AnswerIsSum(s: Slot, arrivals: seq<Arrival>, a: Arrival, W: seq<Words>) returns (order: seq<nat>)
    requires s.seen == {} && Sent(arrivals + [a], a.version, W)
    ensures var b := After(s, arrivals);
      && (Answer(b, a, |W|) != Dropped <==> Old(b, a) + {a.rank} == Q.AllRanks(|W|))
      && (Answer(b, a, |W|).ToAll? <==> Old(b, a) + {a.rank} == Q.AllRanks(|W|) && a.rank !in Old(b, a))
      && (Answer(b, a, |W|).ToOne? <==> Old(b, a) + {a.rank} == Q.AllRanks(|W|) && a.rank in Old(b, a))
      && (Answer(b, a, |W|) != Dropped ==> SumsUp(Answer(b, a, |W|).sums, order, W))
  {
    var all := arrivals + [a];
    assert all[..|arrivals|] == arrivals && all[|arrivals|] == a;
    order := SlotHolds(s, all, a.version, W);
    var b := After(s, arrivals);
    assert After(s, all) == Arrive(b, a);
    assert a.rank in Q.AllRanks(|W|);
    assert Holds(Arrive(b, a), order, W);
    if Answer(b, a, |W|) != Dropped {
      ChainShape(order, |W|);
      assert Q.Ranks(Chain(order)) == Q.AllRanks(|W|);
    }
  }

  /** Once complete, the answer stays as it is for packets that are sent again. */
  lemma {:induction false} AnswerStays(s: Slot, arrivals: seq<Arrival>, n: nat)
    requires s.seen == Q.AllRanks(n) && forall i :: 0 <= i < |arrivals| ==> arrivals[i].version == s.version && arrivals[i].rank < n
    ensures After(s, arrivals) == s
    ensures forall i :: 0 <= i < |arrivals| ==> Answer(After(s, arrivals[..i]), arrivals[i], n) == ToOne(s.sums)
  {
    hide Answer, Arrive, Q.AllRanks;
    if arrivals != [] {
      var k := |arrivals| - 1;
      AnswerStays(s, arrivals[..k], n);
      RepeatReads(s, arrivals[k], n);
      forall i | 0 <= i < |arrivals| ensures Answer(After(s, arrivals[..i]), arrivals[i], n) == ToOne(s.sums) {
        if i < k { assert arrivals[..k][..i] == arrivals[..i] && arrivals[..k][i] == arrivals[i]; }
      }
    }
  }

  lemma RepeatReads(s: Slot, a: Arrival, n: nat)
    requires s.seen == Q.AllRanks(n) && a.version == s.version && a.rank < n
    ensures Arrive(s, a) == s && Answer(s, a, n) == ToOne(s.sums)
  {
    assert a.rank in s.seen && s.seen + {a.rank} == s.seen;
  }

  /** Two packets have the same version if and only if they are of the same group and their serial
      numbers are a multiple of 2^24 apart. */
  lemma SameVersionIff(g: nat, u: nat, h: nat, v: nat)
    requires g < 0x100 && h < 0x100
    ensures Version(g, Psn(u)) == Version(h, Psn(v)) <==> g == h && (u - v) % 0x100_0000 == 0
  {
    Low24(u);
    Low24(v);
    var a, b := u % 0x100_0000, v % 0x100_0000;
    assert u - v == (u / 0x100_0000 - v / 0x100_0000) * 0x100_0000 + (a - b);
    AddMultiple(u / 0x100_0000 - v / 0x100_0000, a - b, 0x100_0000);
  }

  lemma Low24(u: nat)
    ensures Psn(u) % 0x100_0000 == u % 0x100_0000
  {
    assert u == u / TWO32 * 0x100 * 0x100_0000 + Psn(u);
    AddMultiple(u / TWO32 * 0x100, Psn(u), 0x100_0000);
  }
}
