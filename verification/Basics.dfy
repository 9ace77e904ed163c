/** Types shared by the models. */
module Basics {

  datatype Option<+T> = None | Some(value: T)

  /** An unsigned byte, the source's `u_char`. */
  type Octet = x: int | 0 <= x < 256

  /** One past the largest 32-bit number. */
  const U32 := 0x1_0000_0000

  function Max(a: int, b: int): int { if a < b then b else a }

  function One(b: bool): nat { if b then 1 else 0 }

  /** At most `max` bytes from the front. */
  function Cut(bs: seq<Octet>, max: nat): (r: seq<Octet>)
    ensures |r| == (if |bs| < max then |bs| else max) && r <= bs
  {
    if |bs| <= max then bs else bs[..max]
  }

  function Zeros(n: nat): (z: seq<Octet>)
    ensures |z| == n && forall i :: 0 <= i < n ==> z[i] == 0
  {
    seq(n, _ => 0)
  }
}
