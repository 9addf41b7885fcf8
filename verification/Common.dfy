/** Machine types, C arithmetic and the constants of peer.h shared by every component. */
module Common {

  datatype Option<+T> = None | Some(value: T)

  type byte = bv8

  const TWO_TO_31 := 0x8000_0000
  const TWO_TO_32 := 0x1_0000_0000
  const TWO_TO_64 := 0x1_0000_0000_0000_0000

  /** An unsigned 32-bit header field (`u_int`). */
  type u32 = x: nat | x < TWO_TO_32

  /** Bytes carried by one DATA packet. */
  const PACKET_SIZE: nat := 512

  /** Packets in one chunk; also the number of slots of a sender's buffer. */
  const BUFFER_LEN: nat := 1024

  /** Bytes in one chunk. */
  const CHUNK_SIZE: nat := 524288

  const MAX_PEERS: nat := 1024
  const MAX_UPLOAD: nat := 4

  /** The value an `int` takes when a wider integer is stored in it. */
  function ToInt32(x: int): (r: int)
    ensures -TWO_TO_31 <= r < TWO_TO_31
    ensures (x - r) % TWO_TO_32 == 0
    ensures -TWO_TO_31 <= x < TWO_TO_31 ==> r == x
  {
    (x + TWO_TO_31) % TWO_TO_32 - TWO_TO_31
  }

  /** C's division, which truncates towards zero. */
  function TruncDiv(a: int, b: int): int
    requires b > 0
  {
    if a >= 0 then a / b else -((-a) / b)
  }

  /** A clock: the n-th reading an object takes of `my_get_time`. */
  type Clock = nat -> nat

  /** Readings of the system clock never go back. */
  ghost predicate Steady(clk: Clock) {
    forall i, j :: i <= j ==> clk(i) <= clk(j)
  }
}
