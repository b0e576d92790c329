/** Byte order on the wire (server/backend/worker.cpp:47-78, 346-352, 458-466). */
module Encoding {
  import opened NetCommon

  /** Every four-byte word reversed. Trailing bytes that fill no word are not copied by the
      source; reduction buffers have none, so they never occur here. */
  function SwapWords(bs: seq<Byte>): (r: seq<Byte>)
    requires |bs| % 4 == 0
    ensures |r| == |bs|
  {
    seq(|bs|, i requires 0 <= i < |bs| => bs[4 * (i / 4) + 3 - i % 4])
  }

  /** What a chunk looks like in a packet, and (being its own inverse) what a packet's bytes
      look like in memory. */
  function Wire(code: OpCode, bs: seq<Byte>): (r: seq<Byte>)
    requires Reducing(code) ==> |bs| % 4 == 0
    ensures |r| == |bs|
  {
    if Reducing(code) then SwapWords(bs) else bs
  }

  function Zeros(n: nat): (r: seq<Byte>)
    ensures |r| == n
  {
    seq(n, _ => 0)
  }

  function Padded(bs: seq<Byte>): (r: seq<Byte>)
    requires |bs| <= PAYLOAD_SIZE
    ensures |r| == PAYLOAD_SIZE
    ensures r[..|bs|] == bs
  {
    bs + Zeros(PAYLOAD_SIZE - |bs|)
  }

  /** A chunk survives the trip: what the sender encodes and pads, the receiver's copy of the
      same length decodes. */
  lemma WireRoundTrip(code: OpCode, bs: seq<Byte>)
    requires Reducing(code) ==> |bs| % 4 == 0
    requires |bs| <= PAYLOAD_SIZE
    ensures Wire(code, Padded(Wire(code, bs))[..|bs|]) == bs
  {
    if Reducing(code) {
      var sw := SwapWords(bs);
      forall i | 0 <= i < |bs| ensures SwapWords(sw)[i] == bs[i] {
        var j := 4 * (i / 4) + 3 - i % 4;
        assert 0 <= j < |bs| && j / 4 == i / 4 && j % 4 == 3 - i % 4;
        assert sw[j] == bs[4 * (j / 4) + 3 - j % 4];
      }
    }
  }
}
