/** The rate controller of one worker (server/backend/worker.cpp:525-542, 558-658,
    server/backend/common.hpp:19-34, 68-87), over exact reals. */
module CongestionControl {
  import opened NetCommon

  const RING: nat := 1024
  const CWND_MIN: real := 10.0
  const CC_G: real := 1.0 / 256.0
  /** 1024 packets spread over 10000 us of 10 us reactions. */
  const CC_AI: real := 1024.0 / 1000.0
  const RECOVERY: int := 5
  const REACTION_TIME: nat := 10

  datatype Cc = Cc(cwnd: real, target: real, loss: real, adjust: int, achieved: bool,
                   prevDecrease: nat, prevAdjust: nat, acks: nat, prevAcks: nat, ecn: bool, lost: bool)

  function Start(): Cc {
    Cc(CWND_MIN, 1023.0, 0.0, -RECOVERY, false, 0, 0, 0, 0, false, false)
  }

  /** A timeout falls back to the minimum and recovers from there. */
  function Reinit(c: Cc, now: nat): Cc {
    c.(target := c.cwnd, cwnd := CWND_MIN, prevDecrease := now, prevAdjust := now, adjust := -RECOVERY)
  }

  function Clip(c: Cc): Cc {
    if c.cwnd < CWND_MIN then c.(cwnd := CWND_MIN) else c
  }

  function Shrink(x: real, f: real): real {
    x * f
  }

  function Decrease(c: Cc): Cc {
    var loss := (1.0 - CC_G) * c.loss + CC_G;
    Clip(c.(loss := loss, target := c.cwnd, cwnd := Shrink(c.cwnd, 1.0 - loss / 2.0), adjust := -RECOVERY, achieved := false))
  }

  function Increase(c: Cc): Cc {
    var d := c.(loss := (1.0 - CC_G) * c.loss, achieved := false);
    if !c.achieved then Clip(d)
    else
      var target := if c.adjust >= 0 then c.target + CC_AI else c.target;
      Clip(d.(target := target, adjust := c.adjust + 1, cwnd := (target + c.cwnd) / 2.0))
  }

  /** A burst ended with winLen packets in the window. */
  function Achieve(c: Cc, winLen: nat): Cc {
    if winLen >= c.cwnd.Floor then c.(achieved := true) else c
  }

  /** Timestamps are 32-bit counters of microseconds. */
  function Elapsed(now: nat, before: nat): nat {
    (now - before) % TWO32
  }

  /** It is the true time that has passed, across the wrap of the counter. */
  lemma ElapsedExact(before: nat, now: nat)
    requires before <= now < before + TWO32
    ensures Elapsed(now % TWO32, before % TWO32) == now - before
  {
    var q, r := now / TWO32, before / TWO32;
    assert now == q * TWO32 + now % TWO32 && before == r * TWO32 + before % TWO32;
    assert q == r || q == r + 1;
  }

  function React(c: Cc, now: nat): Cc {
    if Elapsed(now, c.prevDecrease) < REACTION_TIME then c
    else if c.acks == c.prevAcks then c
    else if !c.ecn && !c.lost then
      if Elapsed(now, c.prevAdjust) < REACTION_TIME then c
      else Increase(c).(prevAdjust := now, prevAcks := c.acks)
    else
      Decrease(c).(prevDecrease := now, prevAdjust := now, ecn := false, lost := false, prevAcks := c.acks)
  }

  datatype Event =
    | Burst(winLen: nat)
    | Reaction(now: nat)
    | Timeout(now: nat)
    | Acked(n: nat, ecn: bool, lost: bool)

  function Step(c: Cc, e: Event): Cc {
    match e
    case Burst(w) => Achieve(c, w)
    case Reaction(now) => React(c, now)
    case Timeout(now) => Reinit(c, now)
    case Acked(n, ecn, lost) => c.(acks := c.acks + n, ecn := c.ecn || ecn, lost := c.lost || lost)
  }

  function Run(es: seq<Event>): Cc {
    if es == [] then Start() else Step(Run(es[..|es| - 1]), es[|es| - 1])
  }

  /** How far the target can be above the window: it halves with every recovery step. */
  function Gap(adjust: int): real {
    if adjust <= -5 then 1031.0
    else if adjust == -4 then 1031.0 / 2.0
    else if adjust == -3 then 1031.0 / 4.0
    else if adjust == -2 then 1031.0 / 8.0
    else if adjust == -1 then 1031.0 / 16.0
    else 1031.0 / 32.0
  }

  predicate Bounded(c: Cc) {
    && CWND_MIN <= c.cwnd <= c.target
    && c.cwnd < 1041.0 && c.target < 1057.25
    && 0.0 <= c.loss <= 1.0
    && -RECOVERY <= c.adjust
    && (c.adjust < 0 ==> c.target < 1041.0)
    && (c.achieved ==> c.cwnd < 1024.0)
    && c.target - c.cwnd <= Gap(c.adjust)
  }

  lemma IncreaseKeeps(c: Cc)
    requires Bounded(c)
    ensures Bounded(Increase(c))
  {
    if c.achieved && c.adjust >= 0 {
      assert Increase(c).cwnd == c.cwnd + (c.target - c.cwnd + CC_AI) / 2.0;
    }
  }

  lemma DecreaseKeeps(c: Cc)
    requires Bounded(c)
    ensures Bounded(Decrease(c)) && Decrease(c).cwnd >= c.cwnd / 2.0
  {
    var loss := (1.0 - CC_G) * c.loss + CC_G;
    hide Shrink;
    ShrinkBounds(c.cwnd, 1.0 - loss / 2.0);
  }

  lemma ShrinkBounds(x: real, f: real)
    requires x >= 0.0 && 0.5 <= f <= 1.0
    ensures x / 2.0 <= Shrink(x, f) <= x
  {
    assert x * (f - 0.5) >= 0.0;
    assert x * (1.0 - f) >= 0.0;
  }

  lemma ReactKeeps(c: Cc, now: nat)
    requires Bounded(c)
    ensures Bounded(React(c, now))
  {
    IncreaseKeeps(c);
    DecreaseKeeps(c);
    hide Increase, Decrease;
  }

  /** Without any explicit cap the window and its target stay bounded on every run, provided no
      window is longer than the ring allows. */
  lemma {:induction false} AlwaysBounded(es: seq<Event>)
    requires forall k :: 0 <= k < |es| && es[k].Burst? ==> es[k].winLen < RING
    ensures Bounded(Run(es))
  {
    if es != [] {
      var n := |es| - 1;
      AlwaysBounded(es[..n]);
      var c, e := Run(es[..n]), es[n];
      match e
      case Reaction(now) => ReactKeeps(c, now);
      case _ =>
    }
  }

  /** k rounds of a busy sender without congestion: an acknowledgement, a burst that just fills the
      window, and a reaction 10 us after the previous one. */
  function Rounds(k: nat): seq<Event> {
    if k == 0 then []
    else
      Rounds(k - 1)
      + [Acked(1, false, false)] + [Burst(Max(0, Run(Rounds(k - 1)).cwnd.Floor))] + [Reaction(10 * k)]
  }

  function Busy(k: nat, cwnd: real, target: real): Cc {
    Cc(cwnd, target, 0.0, k - RECOVERY, false, 0, 10 * k, k, k, false, false)
  }

  /** No burst leaves more than H packets in the window. */
  predicate WindowAtMost(es: seq<Event>, H: nat) {
    forall k :: 0 <= k < |es| && es[k].Burst? ==> es[k].winLen <= H
  }

  lemma BusyRound(k: nat, cwnd: real, target: real)
    requires k < 100 && CWND_MIN <= cwnd < 1024.0 && cwnd <= target
    ensures var t := if k >= 5 then target + CC_AI else target;
            Step(Step(Step(Busy(k, cwnd, target), Acked(1, false, false)), Burst(Max(0, cwnd.Floor))), Reaction(10 * (k + 1)))
            == Busy(k + 1, (t + cwnd) / 2.0, t)
  {
    var t := if k >= 5 then target + CC_AI else target;
    var c := Busy(k, cwnd, target).(acks := k + 1, achieved := true);
    assert Step(Step(Busy(k, cwnd, target), Acked(1, false, false)), Burst(Max(0, cwnd.Floor))) == c;
    assert Increase(c) == c.(loss := 0.0, achieved := false, target := t, adjust := k + 1 - RECOVERY, cwnd := (t + cwnd) / 2.0);
  }

  lemma Round(k: nat, cwnd: real, target: real)
    requires k < 100 && CWND_MIN <= cwnd < 1022.0 && cwnd <= target
    requires Run(Rounds(k)) == Busy(k, cwnd, target) && WindowAtMost(Rounds(k), 1021)
    ensures var t := if k >= 5 then target + CC_AI else target;
            Run(Rounds(k + 1)) == Busy(k + 1, (t + cwnd) / 2.0, t)
    ensures WindowAtMost(Rounds(k + 1), 1021)
  {
    var es := Rounds(k);
    var a, b, r := Acked(1, false, false), Burst(Max(0, cwnd.Floor)), Reaction(10 * (k + 1));
    assert Rounds(k + 1) == es + [a] + [b] + [r] by { BusyCwnd(k, cwnd, target); }
    hide Rounds, Step, Busy;
    RunSnoc(es, a);
    RunSnoc(es + [a], b);
    RunSnoc(es + [a] + [b], r);
    BusyRound(k, cwnd, target);
  }

  lemma RunSnoc(es: seq<Event>, e: Event)
    ensures Run(es + [e]) == Step(Run(es), e)
  {
    assert (es + [e])[..|es|] == es;
  }

  /** Nine uncongested rounds, none with more than 1021 packets in the window, take cwnd past 1024. */
  lemma NineRounds()
    ensures WindowAtMost(Rounds(9), 1021) && Run(Rounds(9)).cwnd > 1024.0
  {
    hide Rounds, Run, Busy;
    assert Run(Rounds(0)) == Busy(0, 10.0, 1023.0) && WindowAtMost(Rounds(0), 1021) by { RunNothing(); }
    Round(0, 10.0, 1023.0);
    Round(1, 516.5, 1023.0);
    Round(2, 769.75, 1023.0);
    Round(3, 896.375, 1023.0);
    Round(4, 959.6875, 1023.0);
    Round(5, 991.34375, 1023.0);
    var c6 := (1024.024 + 991.34375) / 2.0;
    Round(6, c6, 1024.024);
    var c7 := (1025.048 + c6) / 2.0;
    Round(7, c7, 1025.048);
    var c8 := (1026.072 + c7) / 2.0;
    Round(8, c8, 1026.072);
    assert Run(Rounds(9)) == Busy(9, (1027.096 + c8) / 2.0, 1027.096);
    assert (1027.096 + c8) / 2.0 > 1024.0;
    BusyCwnd(9, (1027.096 + c8) / 2.0, 1027.096);
  }

  // ----- how long a window it takes -----

  /** Recovery began at half the target or above, after a congestion, or at the minimum, after a
      timeout; since then the gap to the target has halved with each step. */
  predicate Recovering(target: real, gap: real, adjust: int)
    requires -RECOVERY <= adjust < 0
  {
    var scale := if adjust == -5 then 1.0 else if adjust == -4 then 2.0 else if adjust == -3 then 4.0 else if adjust == -2 then 8.0 else 16.0;
    target < 1024.0 && (gap * scale <= target / 2.0 || gap * scale == target - CWND_MIN)
  }

  /** After a recovery from a congestion: the gap is small. */
  predicate Near(target: real, gap: real, adjust: int)
    requires adjust >= 0
  {
    if adjust == 0 then gap <= 16.0 && target < 1024.0
    else if adjust == 1 then gap <= 8.512 && target < 1025.024
    else if adjust == 2 then gap <= 4.768 && target < 1026.048
    else gap <= 2.941
  }

  /** After a recovery from a timeout, or from the start: the gap is larger, and the window lower. */
  predicate Far(target: real, gap: real, adjust: int)
    requires adjust >= 0
  {
    if adjust == 0 then gap <= 31.6875 && target - gap < 992.3125
    else if adjust == 1 then gap <= 16.356 && target - gap < 1008.669
    else if adjust == 2 then gap <= 8.69 && target - gap < 1017.359
    else if adjust == 3 then gap <= 4.857 && target - gap < 1022.216
    else gap <= 2.941
  }

  predicate Low(c: Cc) {
    && CWND_MIN <= c.cwnd <= c.target && c.cwnd < 1024.0
    && 0.0 <= c.loss <= 1.0 && -RECOVERY <= c.adjust
    && (c.achieved ==> c.cwnd < 1021.0)
    && if c.adjust < 0 then Recovering(c.target, c.target - c.cwnd, c.adjust)
       else Near(c.target, c.target - c.cwnd, c.adjust) || Far(c.target, c.target - c.cwnd, c.adjust)
  }

  lemma IncreaseLow(c: Cc)
    requires Low(c)
    ensures Low(Increase(c))
  {
    if c.achieved {
      if c.adjust >= 0 {
        assert Increase(c).cwnd == c.cwnd + (c.target - c.cwnd + CC_AI) / 2.0;
      } else {
        assert Increase(c).target - Increase(c).cwnd == (c.target - c.cwnd) / 2.0;
      }
    }
  }

  lemma DecreaseLow(c: Cc)
    requires Low(c)
    ensures Low(Decrease(c))
  {
    var loss := (1.0 - CC_G) * c.loss + CC_G;
    hide Shrink, Near, Far;
    ShrinkBounds(c.cwnd, 1.0 - loss / 2.0);
  }

  lemma ReactLow(c: Cc, now: nat)
    requires Low(c)
    ensures Low(React(c, now))
  {
    IncreaseLow(c);
    DecreaseLow(c);
    hide Increase, Decrease, Near, Far, Recovering;
  }

  lemma {:induction false} AlwaysLow(es: seq<Event>)
    requires WindowAtMost(es, 1020)
    ensures Low(Run(es))
  {
    hide Near, Far;
    if es != [] {
      var n := |es| - 1;
      AlwaysLow(es[..n]);
      var c, e := Run(es[..n]), es[n];
      match e
      case Reaction(now) => ReactLow(c, now);
      case _ =>
    }
  }

  /** The source remarks that cwnd stays below the ring size. Over every run whose bursts leave at most
      H packets in the window it does, if and only if H is below 1021. */
  lemma BelowRingIff(H: nat)
    ensures (forall es :: WindowAtMost(es, H) ==> Run(es).cwnd < 1024.0) <==> H < 1021
  {
    if H < 1021 {
      forall es | WindowAtMost(es, H) ensures Run(es).cwnd < 1024.0 {
        assert WindowAtMost(es, 1020);
        AlwaysLow(es);
      }
    } else {
      NineRounds();
      assert WindowAtMost(Rounds(9), H);
    }
  }

  lemma RunNothing()
    ensures Run(Rounds(0)) == Busy(0, 10.0, 1023.0) && WindowAtMost(Rounds(0), 1021)
  {}

  lemma BusyCwnd(k: nat, cwnd: real, target: real)
    ensures Busy(k, cwnd, target).cwnd == cwnd
  {}

  // ----- what a reaction does to the rate -----

  function MaxR(a: real, b: real): real {
    if a <= b then b else a
  }

  /** A reaction takes place when one is due: 10 us after the last decrease, with something acknowledged
      since the last reaction, and if there is no congestion 10 us after the last reaction of any kind. */
  lemma ReactsIff(c: Cc, now: nat)
    ensures React(c, now) != c <==>
      && Elapsed(now, c.prevDecrease) >= REACTION_TIME && c.acks != c.prevAcks
      && (c.ecn || c.lost || Elapsed(now, c.prevAdjust) >= REACTION_TIME)
    ensures React(c, now) != c ==> React(c, now).prevAdjust == now && React(c, now).prevAcks == c.acks == React(c, now).acks
    ensures React(c, now) != c && (c.ecn || c.lost) ==> React(c, now).prevDecrease == now
    ensures React(c, now) != c && !c.ecn && !c.lost ==> React(c, now).prevDecrease == c.prevDecrease
    ensures React(c, now) != c ==> !React(c, now).ecn && !React(c, now).lost && !React(c, now).achieved
  {
    hide Shrink;
  }

  predicate Sensible(c: Cc) {
    c.cwnd >= CWND_MIN && 0.0 <= c.loss <= 1.0
  }

  predicate DueToCongestion(c: Cc, now: nat) {
    Elapsed(now, c.prevDecrease) >= REACTION_TIME && c.acks != c.prevAcks && (c.ecn || c.lost)
  }

  /** A reaction to congestion brings the estimate of the loss a 256th nearer to one, and lowers the
      window by half of that estimate, which is strictly: by a 512th at least. The rate before is where
      the recovery will aim at. */
  lemma CongestedReaction(c: Cc, now: nat)
    requires Sensible(c) && DueToCongestion(c, now)
    ensures var d := React(c, now);
      && Sensible(d) && 1.0 - d.loss == (1.0 - CC_G) * (1.0 - c.loss)
      && d.cwnd == MaxR(CWND_MIN, Shrink(c.cwnd, 1.0 - d.loss / 2.0))
      && (c.cwnd > CWND_MIN ==> d.cwnd < c.cwnd)
      && d.cwnd <= MaxR(CWND_MIN, Shrink(c.cwnd, 511.0 / 512.0))
      && d.target == c.cwnd && d.adjust == -RECOVERY && d.prevDecrease == now && d.acks == d.prevAcks == c.acks
  {
    var loss := (1.0 - CC_G) * c.loss + CC_G;
    ShrinkLess(c.cwnd, 1.0 - loss / 2.0, 511.0 / 512.0);
    ShrinkLess(c.cwnd, 511.0 / 512.0, 1.0);
    assert Shrink(c.cwnd, 511.0 / 512.0) < Shrink(c.cwnd, 1.0) == c.cwnd;
    hide Shrink;
  }

  lemma ShrinkLess(x: real, f: real, g: real)
    requires x > 0.0
    ensures f <= g ==> Shrink(x, f) <= Shrink(x, g)
    ensures f < g ==> Shrink(x, f) < Shrink(x, g)
  {
    assert x * (g - f) == x * g - x * f;
  }

  /** A reaction without congestion lowers the estimate of the loss by a 256th. If the window was used, it
      goes half of the way to its target, which after the recovery has moved up by a constant. */
  lemma QuietReaction(c: Cc, now: nat)
    requires Sensible(c) && c.cwnd <= c.target && !c.ecn && !c.lost && React(c, now) != c
    ensures var d := React(c, now);
      && Sensible(d) && d.loss == (1.0 - CC_G) * c.loss
      && (!c.achieved ==> d.cwnd == c.cwnd && d.target == c.target && d.adjust == c.adjust)
      && (c.achieved ==>
            && d.target == c.target + (if c.adjust < 0 then 0.0 else CC_AI)
            && d.target - d.cwnd == (d.target - c.cwnd) / 2.0
            && d.adjust == c.adjust + 1)
  {
    hide Shrink;
  }

  /** A timeout falls to the minimum, aims at the rate before, and lets nothing react for 10 us. */
  lemma TimeoutReaction(c: Cc, now: nat, later: nat)
    ensures var d := Reinit(c, now);
      && d.cwnd == CWND_MIN && d.target == c.cwnd && d.adjust == -RECOVERY && d.loss == c.loss
      && (Elapsed(later, now) < REACTION_TIME ==> React(d, later) == d)
  {}

  // ----- congestion that persists -----

  function RunFrom(c: Cc, es: seq<Event>): Cc {
    if es == [] then c else Step(RunFrom(c, es[..|es| - 1]), es[|es| - 1])
  }

  /** Acknowledgements with a congestion mark, and a reaction at each of these times. */
  function Marked(ts: seq<nat>): seq<Event> {
    if ts == [] then [] else Marked(ts[..|ts| - 1]) + [Acked(1, true, false)] + [Reaction(ts[|ts| - 1])]
  }

  /** Each time is 10 us or more after the one before. */
  predicate Spaced(prev: nat, ts: seq<nat>) {
    forall i :: 0 <= i < |ts| ==> Elapsed(ts[i], Previous(prev, ts, i)) >= REACTION_TIME
  }

  function Previous(prev: nat, ts: seq<nat>, i: nat): nat
    requires i <= |ts|
  {
    if i == 0 then prev else ts[i - 1]
  }

  lemma SpacedBefore(prev: nat, ts: seq<nat>)
    requires ts != [] && Spaced(prev, ts)
    ensures Spaced(prev, ts[..|ts| - 1]) && Elapsed(ts[|ts| - 1], Previous(prev, ts, |ts| - 1)) >= REACTION_TIME
  {
    var was := ts[..|ts| - 1];
    forall i | 0 <= i < |was| ensures Elapsed(was[i], Previous(prev, was, i)) >= REACTION_TIME {
      assert Previous(prev, was, i) == Previous(prev, ts, i) && was[i] == ts[i];
    }
  }

  function Pow(x: real, k: nat): real {
    if k == 0 then 1.0 else Shrink(Pow(x, k - 1), x)
  }

  /** The estimate of the loss after k reactions to congestion. */
  function LossAfter(loss: real, k: nat): real {
    1.0 - Shrink(Pow(1.0 - CC_G, k), 1.0 - loss)
  }

  /** What is left of the window: the product of the halved losses. */
  function Kept(loss: real, k: nat): real {
    if k == 0 then 1.0 else Shrink(Kept(loss, k - 1), 1.0 - LossAfter(loss, k) / 2.0)
  }

  lemma {:induction false} RunFromSnoc(c: Cc, es: seq<Event>, e: Event)
    ensures RunFrom(c, es + [e]) == Step(RunFrom(c, es), e)
  {
    assert (es + [e])[..|es|] == es;
  }

  /** Under congestion that persists the estimate of the loss approaches one by a factor of 255/256 each
      time, and the window is what the product of the halved losses leaves of it, or the minimum. */
  lemma {:induction false} Persistent(c: Cc, ts: seq<nat>)
    requires Sensible(c) && c.acks >= c.prevAcks && Spaced(c.prevDecrease, ts)
    ensures var d := RunFrom(c, Marked(ts));
      && Sensible(d) && d.loss == LossAfter(c.loss, |ts|) && d.acks >= d.prevAcks
      && d.cwnd == MaxR(CWND_MIN, Shrink(c.cwnd, Kept(c.loss, |ts|)))
      && d.prevDecrease == if ts == [] then c.prevDecrease else ts[|ts| - 1]
  {
    var k := |ts|;
    if k == 0 {
      assert Shrink(c.cwnd, 1.0) == c.cwnd && Shrink(1.0, 1.0 - c.loss) == 1.0 - c.loss;
    } else {
      var was, now := ts[..k - 1], ts[k - 1];
      SpacedBefore(c.prevDecrease, ts);
      Persistent(c, was);
      var b := RunFrom(c, Marked(was));
      RunFromSnoc(c, Marked(was), Acked(1, true, false));
      RunFromSnoc(c, Marked(was) + [Acked(1, true, false)], Reaction(now));
      hide RunFrom, Marked, React;
      var m := Step(b, Acked(1, true, false));
      assert Elapsed(now, b.prevDecrease) >= REACTION_TIME;
      CongestedReaction(m, now);
      LossStep(c.loss, k);
      KeptStep(c, k, b.cwnd);
    }
  }

  lemma LossStep(loss: real, k: nat)
    requires k > 0
    ensures 1.0 - LossAfter(loss, k) == (1.0 - CC_G) * (1.0 - LossAfter(loss, k - 1))
  {
    var p := Pow(1.0 - CC_G, k - 1);
    assert (p * (1.0 - CC_G)) * (1.0 - loss) == (1.0 - CC_G) * (p * (1.0 - loss));
  }

  lemma {:induction false} LossRange(loss: real, k: nat)
    requires 0.0 <= loss <= 1.0
    ensures 0.0 <= LossAfter(loss, k) <= 1.0 && (k > 0 ==> LossAfter(loss, k) >= CC_G)
  {
    if k > 0 {
      LossRange(loss, k - 1);
      LossStep(loss, k);
      hide LossAfter;
    } else {
      assert Shrink(1.0, 1.0 - loss) == 1.0 - loss;
    }
  }

  /** Stopping at the minimum on the way makes no difference. */
  lemma KeptStep(c: Cc, k: nat, cwnd: real)
    requires Sensible(c) && k > 0 && cwnd == MaxR(CWND_MIN, Shrink(c.cwnd, Kept(c.loss, k - 1)))
    ensures var f := 1.0 - LossAfter(c.loss, k) / 2.0;
      MaxR(CWND_MIN, Shrink(cwnd, f)) == MaxR(CWND_MIN, Shrink(c.cwnd, Kept(c.loss, k)))
  {
    LossRange(c.loss, k);
    hide LossAfter;
    var f, q := 1.0 - LossAfter(c.loss, k) / 2.0, Kept(c.loss, k - 1);
    assert Shrink(c.cwnd, Shrink(q, f)) == Shrink(Shrink(c.cwnd, q), f);
    ShrinkLess(CWND_MIN, f, 1.0);
    if Shrink(c.cwnd, q) < CWND_MIN { ShrinkFewer(Shrink(c.cwnd, q), CWND_MIN, f); }
  }

  lemma ShrinkFewer(x: real, y: real, f: real)
    requires x <= y && 0.0 <= f
    ensures Shrink(x, f) <= Shrink(y, f)
  {
    assert (y - x) * f >= 0.0;
  }

  lemma {:induction false} KeptBound(loss: real, k: nat)
    requires 0.0 <= loss <= 1.0
    ensures 0.0 <= Kept(loss, k) <= Pow(511.0 / 512.0, k)
  {
    if k > 0 {
      KeptBound(loss, k - 1);
      LossRange(loss, k);
      hide LossAfter;
      var f := 1.0 - LossAfter(loss, k) / 2.0;
      ShrinkFewer(0.0, Kept(loss, k - 1), f);
      ShrinkFewer(Kept(loss, k - 1), Pow(511.0 / 512.0, k - 1), f);
      if Pow(511.0 / 512.0, k - 1) > 0.0 { ShrinkLess(Pow(511.0 / 512.0, k - 1), f, 511.0 / 512.0); }
    }
  }

  lemma {:induction false} PowAdd(x: real, a: nat, b: nat)
    ensures Pow(x, a + b) == Shrink(Pow(x, a), Pow(x, b))
  {
    if b > 0 {
      PowAdd(x, a, b - 1);
      assert Shrink(Shrink(Pow(x, a), Pow(x, b - 1)), x) == Shrink(Pow(x, a), Shrink(Pow(x, b - 1), x));
    }
  }

  /** 511/512 to the power k, k at most 512, is at most 1 / (1 + k / 512). */
  lemma {:induction false} PowSmall(k: nat)
    ensures Pow(511.0 / 512.0, k) > 0.0 && Shrink(Pow(511.0 / 512.0, k), 1.0 + k as real / 512.0) <= 1.0
  {
    if k > 0 {
      PowSmall(k - 1);
      var p, x := Pow(511.0 / 512.0, k - 1), (k - 1) as real / 512.0;
      assert k as real / 512.0 == x + 1.0 / 512.0;
      SmallStep(p, x);
    }
  }

  lemma SmallStep(p: real, x: real)
    requires p > 0.0 && x >= 0.0 && p * (1.0 + x) <= 1.0
    ensures p * (511.0 / 512.0) > 0.0 && p * (511.0 / 512.0) * (1.0 + (x + 1.0 / 512.0)) <= 1.0
  {
    var f := (511.0 / 512.0) * (1.0 + (x + 1.0 / 512.0));
    assert f <= 1.0 + x;
    assert p * (1.0 + x - f) >= 0.0;
    assert p * (511.0 / 512.0) * (1.0 + (x + 1.0 / 512.0)) == p * f;
  }

  lemma HalfIn512()
    ensures 0.0 < Pow(511.0 / 512.0, 512) <= 0.5
  {
    hide Pow;
    PowSmall(512);
  }

  lemma {:induction false} Halves(k: nat)
    ensures 0.0 < Pow(511.0 / 512.0, 512 * k) && Pow(511.0 / 512.0, 512 * k) * Twos(k) <= 1.0
  {
    hide Pow, Shrink;
    if k > 0 {
      Halves(k - 1);
      PowAdd(511.0 / 512.0, 512 * (k - 1), 512);
      HalfIn512();
      var p, h, z := Pow(511.0 / 512.0, 512 * (k - 1)), Pow(511.0 / 512.0, 512), Twos(k - 1);
      assert 512 * (k - 1) + 512 == 512 * k;
      HalfStep(p, h, z);
    } else {
      PowZero(511.0 / 512.0);
    }
  }

  lemma PowZero(x: real)
    ensures Pow(x, 0) == 1.0
  {}

  function Twos(k: nat): (r: real)
    ensures r >= 1.0
  {
    if k == 0 then 1.0 else 2.0 * Twos(k - 1)
  }

  lemma HalfStep(p: real, h: real, z: real)
    requires 0.0 < p && 0.0 < h <= 0.5 && z >= 1.0 && p * z <= 1.0
    ensures 0.0 < Shrink(p, h) && Shrink(p, h) * (2.0 * z) <= 1.0
  {
    assert p * h > 0.0 && p * z > 0.0;
    assert (p * h) * (2.0 * z) == (p * z) * (2.0 * h);
    ShrinkLess(p * z, 2.0 * h, 1.0);
  }

  lemma {:induction false} PowFalls(a: nat, b: nat)
    requires a <= b
    ensures Pow(511.0 / 512.0, b) <= Pow(511.0 / 512.0, a)
    decreases b
  {
    if a < b {
      PowFalls(a, b - 1);
      PowSmall(b - 1);
      ShrinkLess(Pow(511.0 / 512.0, b - 1), 511.0 / 512.0, 1.0);
    }
  }

  /** Whatever happened before, congestion that persists for 3584 reactions brings the window down to
      its minimum. */
  lemma ReachesMinimum(es: seq<Event>, ts: seq<nat>)
    requires forall k :: 0 <= k < |es| && es[k].Burst? ==> es[k].winLen < RING
    requires |ts| >= 3584 && Spaced(Run(es).prevDecrease, ts)
    ensures RunFrom(Run(es), Marked(ts)).cwnd == CWND_MIN
  {
    hide RunFrom, Marked, Spaced, Kept, Run, Pow, LossAfter;
    AlwaysBounded(es);
    AcksGrow(es);
    var c := Run(es);
    Persistent(c, ts);
    KeptBound(c.loss, |ts|);
    PowFalls(3584, |ts|);
    Halves(7);
    assert Twos(7) == 128.0;
    var p, q := Pow(511.0 / 512.0, 3584), Kept(c.loss, |ts|);
    assert p <= 1.0 / 128.0;
    assert Shrink(c.cwnd, q) <= CWND_MIN by { ShrinkLess(c.cwnd, q, 1.0 / 128.0); assert Shrink(c.cwnd, 1.0 / 128.0) == c.cwnd / 128.0; }
  }

  lemma {:induction false} AcksGrow(es: seq<Event>)
    ensures Run(es).acks >= Run(es).prevAcks
  {
    if es != [] {
      AcksGrow(es[..|es| - 1]);
      AcksStep(Run(es[..|es| - 1]), es[|es| - 1]);
      hide Step;
    }
  }

  lemma AcksStep(c: Cc, e: Event)
    requires c.acks >= c.prevAcks
    ensures Step(c, e).acks >= Step(c, e).prevAcks
  {
    hide Shrink;
  }

  /** The controller of one worker thread. */
  class Controller {
    var cwnd: real
    var targetCwnd: real
    var lossRatio: real
    var prevDecreaseTs: nat
    var prevAdjustTs: nat
    var adjustCnt: int
    var cwndAchieved: bool
    var ackCnt: nat
    var prevAckCntCc: nat
    var congestionSeen: bool
    var pktLossFlag: bool

    ghost function Val(): Cc
      reads this
    {
      Cc(cwnd, targetCwnd, lossRatio, adjustCnt, cwndAchieved, prevDecreaseTs, prevAdjustTs,
         ackCnt, prevAckCntCc, congestionSeen, pktLossFlag)
    }

    constructor ()
      ensures Val() == Start()
    {
      targetCwnd := 1023.0;
      cwnd := CWND_MIN;
      lossRatio := 0.0;
      prevDecreaseTs, prevAdjustTs := 0, 0;
      adjustCnt := -RECOVERY;
      cwndAchieved := false;
      ackCnt, prevAckCntCc := 0, 0;
      congestionSeen, pktLossFlag := false, false;
    }

    /** mark_acked's counter, and what the receive path notes for the next reaction. */
    method Note(acked: nat, ecn: bool, lost: bool)
      modifies this`ackCnt, this`congestionSeen, this`pktLossFlag
      ensures Val() == Step(old(Val()), Acked(acked, ecn, lost))
      ensures Bounded(old(Val())) ==> Bounded(Val())
    {
      ackCnt := ackCnt + acked;
      congestionSeen := congestionSeen || ecn;
      pktLossFlag := pktLossFlag || lost;
    }

    method ReinitAt(now: nat)
      modifies this
      ensures Val() == Reinit(old(Val()), now)
      ensures Bounded(old(Val())) ==> Bounded(Val())
    {
      targetCwnd := cwnd;
      cwnd := CWND_MIN;
      prevDecreaseTs := now;
      prevAdjustTs := now;
      adjustCnt := -RECOVERY;
    }

    method BurstEnded(winLen: nat)
      modifies this`cwndAchieved
      ensures Val() == Achieve(old(Val()), winLen)
      ensures Bounded(old(Val())) && winLen < RING ==> Bounded(Val())
    {
      if winLen >= cwnd.Floor { cwndAchieved := true; }
    }

    method AdjustRate(congestion: bool)
      modifies this
      ensures Val() == if congestion then Decrease(old(Val())) else Increase(old(Val()))
    {
      hide Shrink;
      if congestion {
        lossRatio := (1.0 - CC_G) * lossRatio + CC_G;
        targetCwnd := cwnd;
        cwnd := Shrink(cwnd, 1.0 - lossRatio / 2.0);
        adjustCnt := -RECOVERY;
      } else {
        lossRatio := (1.0 - CC_G) * lossRatio;
        if cwndAchieved {
          if adjustCnt >= 0 {
            targetCwnd := targetCwnd + CC_AI;
          }
          adjustCnt := adjustCnt + 1;
          cwnd := (targetCwnd + cwnd) / 2.0;
        }
      }
      cwndAchieved := false;
      if cwnd < CWND_MIN { cwnd := CWND_MIN; }
    }

    method CongestionControl(now: nat)
      modifies this
      ensures Val() == React(old(Val()), now)
      ensures Bounded(old(Val())) ==> Bounded(Val())
    {
      ghost var before := Val();
      if Bounded(before) { ReactKeeps(before, now); }
      hide Bounded, Decrease, Increase;
      if Elapsed(now, prevDecreaseTs) < REACTION_TIME { return; }
      if ackCnt == prevAckCntCc { return; }
      if !congestionSeen && !pktLossFlag {
        if Elapsed(now, prevAdjustTs) < REACTION_TIME { return; }
        AdjustRate(false);
        prevAdjustTs := now;
      } else {
        AdjustRate(true);
        prevDecreaseTs := now;
        prevAdjustTs := now;
        congestionSeen := false;
        pktLossFlag := false;
      }
      prevAckCntCc := ackCnt;
    }
  }
}
