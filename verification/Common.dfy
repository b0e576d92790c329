/** The vocabulary that the daemon and the backend share (server/common/common.hpp,
    server/backend/header.hpp): operations, groups and the two direction predicates. */
module NetCommon {

  newtype Byte = x: int | 0 <= x < 256

  const QUEUE_SIZE: nat := 1024
  /** Number of values of a 32-bit unsigned integer. */
  const TWO32: nat := 0x1_0000_0000
  /** Bytes of payload in one packet: 64 words of four bytes. */
  const PAYLOAD_SIZE: nat := 256

  type Payload = p: seq<Byte> | |p| == PAYLOAD_SIZE witness seq(PAYLOAD_SIZE, _ => 0)

  datatype Option<+T> = None | Some(value: T)

  datatype OpCode = AllReduce | Reduce | Broadcast | ReduceScatter | AllGather

  datatype Group = Group(id: nat, size: nat, rank: nat, aggAddr: nat, aggLen: nat, switchIp: nat)

  /** `slot` is the operation's place in the operation ring, which is what a pointer to it
      denotes; `buffer` is where its bytes start in the shared copy buffer. */
  datatype Op = Op(slot: nat, code: OpCode, root: nat, size: nat, buffer: nat, group: Group)

  /** One worker's share of an operation. */
  datatype SubOp = SubOp(op: Op, data: nat, size: nat, aggAddr: nat, aggLen: nat)

  predicate NeedTx(op: Op) {
    || op.code.AllReduce?
    || (op.code.Reduce? && op.root != op.group.rank)
    || (op.code.Broadcast? && op.root == op.group.rank)
  }

  predicate NeedRx(op: Op) {
    || op.code.AllReduce?
    || (op.code.Reduce? && op.root == op.group.rank)
    || (op.code.Broadcast? && op.root != op.group.rank)
  }

  /** The switch adds 32-bit words, so these two travel in network byte order. */
  predicate Reducing(code: OpCode) {
    code.AllReduce? || code.Reduce?
  }

  function Min(a: int, b: int): int {
    if a <= b then a else b
  }

  function Max(a: int, b: int): int {
    if a <= b then b else a
  }
}
