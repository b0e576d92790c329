/** Batched transmission and reception (server/backend/process_buffer.hpp). */
module ProcessBuffers {
  import opened NetCommon

  /** The network card. It may accept any part of a burst, nothing included, but not nothing
      forever: `patience` bounds how many more times in a row it refuses. */
  class Nic<T(0)> {
    ghost var accepted: seq<T>
    ghost var delivered: seq<T>
    /** How many packets the last burst offered. */
    ghost var offered: nat
    var patience: nat

    constructor ()
      ensures accepted == [] && delivered == []
    {
      accepted, delivered, offered := [], [], 0;
      patience := *;
    }

    method TxBurst(bufs: array<T>, from: nat, n: nat) returns (k: nat)
      requires from + n <= bufs.Length
      modifies this
      ensures k <= n
      ensures accepted == old(accepted) + bufs[from..from + k]
      ensures delivered == old(delivered)
      ensures n > 0 && k == 0 ==> patience < old(patience)
      ensures offered == n
    {
      k :| 0 <= k <= n && (k == 0 ==> n == 0 || patience > 0);
      if k == 0 && n > 0 {
        patience := patience - 1;
      } else {
        patience := *;
      }
      accepted := accepted + bufs[from..from + k];
      offered := n;
    }

    method RxBurst(bufs: array<T>) returns (k: nat)
      modifies this, bufs
      ensures k <= bufs.Length
      ensures delivered == old(delivered) + bufs[..k]
      ensures accepted == old(accepted) && patience == old(patience) && offered == old(offered)
    {
      k :| 0 <= k <= bufs.Length;
      var i := 0;
      while i < k
        invariant 0 <= i <= k
        modifies bufs
      {
        bufs[i] := *;
        i := i + 1;
      }
      delivered := delivered + bufs[..k];
    }
  }

  lemma SplitAgain<T>(a: seq<T>, b: seq<T>, k: nat)
    requires k <= |b|
    ensures a + b[..k] + b[k..] == a + b
  {
    assert b == b[..k] + b[k..];
  }

  lemma Onward<T>(a: seq<T>, b: seq<T>, i: nat, j: nat)
    requires i <= j <= |b|
    ensures a + b[..i] + b[i..j] == a + b[..j]
  {
    assert b[..j] == b[..i] + b[i..j];
  }

  class ProcessBuffer<T(0)> {
    const nic: Nic<T>
    const txBufs: array<T>
    const rxBufs: array<T>
    var txNb: nat
    var rxNb: nat
    var rxIter: nat
    var flushTimer: nat
    /** Packets handed out by Receive, in order. */
    ghost var received: seq<T>

    ghost predicate Valid()
      reads this, nic, txBufs, rxBufs
    {
      && txBufs != rxBufs
      && txBufs.Length > 0
      && txNb <= txBufs.Length
      && rxIter <= rxNb <= rxBufs.Length
      && nic.delivered == received + rxBufs[rxIter..rxNb]
    }

    /** Everything passed to Send so far, in order. */
    ghost function Stream(): seq<T>
      requires txNb <= txBufs.Length
      reads this, nic, txBufs
    {
      nic.accepted + txBufs[..txNb]
    }

    constructor (nic: Nic<T>, rxSize: nat, txSize: nat)
      requires txSize > 0 && nic.accepted == [] && nic.delivered == []
      ensures Valid() && this.nic == nic && fresh(txBufs) && fresh(rxBufs)
      ensures txBufs.Length == txSize && rxBufs.Length == rxSize
      ensures Stream() == [] && received == []
    {
      this.nic := nic;
      txBufs := new T[txSize];
      rxBufs := new T[rxSize];
      txNb, rxNb, rxIter, flushTimer := 0, 0, 0, 0;
      received := [];
    }

    /** Move txBufs[k..k + n] to the front. */
    method ShiftDown(k: nat, n: nat)
      requires 0 < k && k + n <= txBufs.Length
      modifies txBufs
      ensures txBufs[..n] == old(txBufs[k..k + n])
    {
      var i := 0;
      while i < n
        invariant 0 <= i <= n
        invariant forall j :: 0 <= j < i ==> txBufs[j] == old(txBufs[j + k])
        invariant forall j :: i + k <= j < n + k ==> txBufs[j] == old(txBufs[j])
        modifies txBufs
      {
        txBufs[i] := txBufs[i + k];
        i := i + 1;
      }
      assert forall j :: 0 <= j < n ==> txBufs[..n][j] == old(txBufs[k..k + n])[j];
    }

    method FlushOnce()
      requires Valid()
      modifies this`txNb, this`flushTimer, nic, txBufs
      ensures Valid() && Stream() == old(Stream())
      ensures txNb <= old(txNb) && old(nic.accepted) <= nic.accepted
      ensures old(txNb) > 0 ==> txNb < old(txNb) || nic.patience < old(nic.patience)
      ensures flushTimer == 0 && nic.offered == old(txNb)
      ensures nic.delivered == old(nic.delivered)
    {
      ghost var all, before := txBufs[..txNb], nic.accepted;
      var k := nic.TxBurst(txBufs, 0, txNb);
      assert txBufs[0..k] == all[..k] && txBufs[k..txNb] == all[k..];
      txNb := txNb - k;
      if txNb != 0 && k != 0 {
        ShiftDown(k, txNb);
      }
      flushTimer := 0;
      assert txBufs[..txNb] == all[k..];
      SplitAgain(before, all, k);
    }

    /** Transmit everything that is buffered. */
    method Flush()
      requires Valid()
      modifies this`txNb, this`flushTimer, nic
      ensures Valid() && Stream() == old(Stream())
      ensures txNb == 0 && nic.accepted == old(Stream()) && flushTimer == 0
      ensures nic.delivered == old(nic.delivered)
    {
      var complete := nic.TxBurst(txBufs, 0, txNb);
      while complete < txNb
        invariant complete <= txNb == old(txNb)
        invariant nic.accepted == old(nic.accepted) + txBufs[..complete]
        invariant nic.delivered == old(nic.delivered)
        modifies nic
        decreases txNb - complete, nic.patience
      {
        var k := nic.TxBurst(txBufs, complete, txNb - complete);
        Onward(old(nic.accepted), txBufs[..], complete, complete + k);
        complete := complete + k;
      }
      txNb := 0;
      flushTimer := 0;
    }

    /** Whatever part of each burst the card accepts, the accepted packets followed by the buffered
        ones are exactly the packets sent, in order. Packets go to the card in bursts: nothing is offered
        before the buffer is full, and then something is. */
    method Send(p: T)
      requires Valid()
      modifies this`txNb, this`flushTimer, nic, txBufs
      ensures Valid() && Stream() == old(Stream()) + [p]
      ensures nic.delivered == old(nic.delivered)
      ensures old(txNb) + 1 < txBufs.Length ==> txNb == old(txNb) + 1 && nic.accepted == old(nic.accepted)
      ensures old(txNb) + 1 == txBufs.Length ==>
        nic.offered == txBufs.Length && (txNb < txBufs.Length || nic.patience < old(nic.patience))
      ensures old(txNb) == txBufs.Length ==> |nic.accepted| > |old(nic.accepted)|
    {
      while txNb == txBufs.Length
        invariant Valid() && Stream() == old(Stream())
        invariant nic.delivered == old(nic.delivered)
        invariant old(nic.accepted) <= nic.accepted && txNb <= old(txNb)
        invariant old(txNb) < txBufs.Length ==> txNb == old(txNb) && nic.accepted == old(nic.accepted) && nic.patience == old(nic.patience)
        modifies this`txNb, this`flushTimer, nic, txBufs
        decreases txNb, nic.patience
      {
        FlushOnce();
      }
      txBufs[txNb] := p;
      txNb := txNb + 1;
      assert txBufs[..txNb] == txBufs[..txNb - 1] + [p];
      if txNb == txBufs.Length { FlushOnce(); }
    }

    /** The next packet, or none if the card has none: packets come out in the order of delivery. When the
        timer has run out, what is buffered is offered to the card. */
    method Receive() returns (r: Option<T>)
      requires Valid()
      modifies this, nic, txBufs, rxBufs
      ensures Valid() && Stream() == old(Stream())
      ensures received == old(received) + (if r.Some? then [r.value] else [])
      ensures received <= nic.delivered
      ensures r.None? ==> received == nic.delivered
      ensures flushTimer == if old(flushTimer) < txBufs.Length * 2 then old(flushTimer) + 1 else 0
      ensures old(flushTimer) < txBufs.Length * 2 ==> txNb == old(txNb) && nic.accepted == old(nic.accepted) && nic.patience == old(nic.patience)
      ensures old(flushTimer) >= txBufs.Length * 2 && old(txNb) > 0 ==>
        nic.offered == old(txNb) && (txNb < old(txNb) || nic.patience < old(nic.patience))
      ensures txNb <= old(txNb)
    {
      if flushTimer < txBufs.Length * 2 {
        flushTimer := flushTimer + 1;
      } else {
        FlushOnce();
      }
      if rxIter == rxNb {
        rxIter := 0;
        rxNb := nic.RxBurst(rxBufs);
        if rxNb == 0 { return None; }
      }
      r := Some(rxBufs[rxIter]);
      rxIter := rxIter + 1;
      received := received + [r.value];
      assert nic.delivered == received + rxBufs[rxIter..rxNb];
    }

    /** A worker that has nothing more to send polls for packets. That alone gets everything that it has
        sent to the card, however little of it the buffer holds. */
    method Poll()
      requires Valid()
      modifies this, nic, txBufs, rxBufs
      ensures Valid() && txNb == 0 && nic.accepted == old(Stream())
    {
      while txNb > 0
        invariant Valid() && Stream() == old(Stream())
        decreases txNb, nic.patience, txBufs.Length * 2 - flushTimer
      {
        var r := Receive();
      }
    }
  }
}
