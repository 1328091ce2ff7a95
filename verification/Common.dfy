/** Sizes, codes and records shared by the manager-side modules. */
module Common {
  const TWO32: int := 0x1_0000_0000
  const TWO64: int := 0x1_0000_0000_0000_0000

  const HDR_SIZE: nat := 16          // packed header of a manager message
  const NET_TX_SIZE: nat := 12       // packed header of a network packet
  const MAX_NET_PKT_SIZE: nat := 1024
  const MAX_MSG_SIZE: nat := MAX_NET_PKT_SIZE + HDR_SIZE + NET_TX_SIZE

  type octet = x: int | 0 <= x < 256

  datatype Option<+T> = None | Some(value: T)

  datatype Status =
    | Ok
    | StopConnector
    | ErrSize
    | ErrOverflow
    | ErrAsync
    | ErrState
    | ErrProtocol
    | ErrNotFound
    | ErrSerialization
    | ErrNotConnect
    | ErrDisconnect
    | ErrOffline

  /** A packet for the manager. `number` is the low half of its 64-bit sequence number. */
  datatype Packet = Packet(number: nat, kind: nat, payload: seq<octet>)

  function Max(a: int, b: int): int {
    if a < b then b else a
  }

  function Min(a: int, b: int): int {
    if a < b then a else b
  }

  /** A line that has lost the block [lo, hi) of what it carried. What is left keeps its
      order. */
  function Cut<T>(line: seq<T>, lo: nat, hi: nat): (left: seq<T>)
    requires lo <= hi <= |line|
    ensures |left| == |line| - (hi - lo)
    ensures forall i :: 0 <= i < |left| ==> left[i] == line[CutIndex(i, lo, hi)]
  {
    line[..lo] + line[hi..]
  }

  /** Where the i-th element left was before the loss. */
  function CutIndex(i: nat, lo: nat, hi: nat): nat
    requires lo <= hi
  {
    if i < lo then i else i + (hi - lo)
  }
}
