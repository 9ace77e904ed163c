/** The Internet checksum: `in_cksum` of libfree/in_cksum.c and of ping/bsdping.c. */
module InCksum {
  import opened Basics

  /** A 16-bit word as the machine reads it from memory. */
  function Load16(little: bool, b0: Octet, b1: Octet): (w: nat)
    ensures w <= 0xffff
  {
    if little then b0 as int + 256 * (b1 as int) else 256 * (b0 as int) + b1 as int
  }

  /** A 16-bit word as the machine leaves it in memory. */
  function Store16(little: bool, w: nat): (b: seq<Octet>)
    requires w <= 0xffff
  {
    if little then [w % 256, w / 256] else [w / 256, w % 256]
  }

  /** The exact sum of the words; an odd last byte is the first byte of a word. */
  function Sum(little: bool, data: seq<Octet>): (s: nat)
  {
    if data == [] then 0
    else if |data| == 1 then Load16(little, data[0], 0)
    else Load16(little, data[0], data[1]) + Sum(little, data[2..])
  }

  /** The one's complement addition of section 1 of RFC 1071: an end-around carry. */
  function OnesAdd(a: nat, b: nat): (s: nat)
    requires a <= 0xffff && b <= 0xffff
    ensures s <= 0xffff
  {
    if a + b > 0xffff then a + b - 0xffff else a + b
  }

  function OnesSum(little: bool, data: seq<Octet>): (s: nat)
    ensures s <= 0xffff
  {
    if data == [] then 0
    else if |data| == 1 then Load16(little, data[0], 0)
    else OnesAdd(Load16(little, data[0], data[1]), OnesSum(little, data[2..]))
  }

  /** What the two folds and the truncation leave of a 32-bit accumulator. */
  function Folded(sum: nat): (s: nat)
    requires sum < U32
    ensures s <= 0xffff
  {
    var s1 := sum / 0x10000 + sum % 0x10000;
    (s1 + s1 / 0x10000) % 0x10000
  }

  /** The checksum as the code computes it, with its accumulator modulo 2^32. */
  function Cksum(little: bool, data: seq<Octet>): (c: nat)
    ensures c <= 0xffff
  {
    0xffff - Folded(Sum(little, data) % U32)
  }

  /** Unsigned 32-bit addition. */
  function Add32(sum: nat, w: nat): (s: nat)
    ensures s < U32
  {
    (sum + w) % U32
  }

  lemma {:induction false} Add32Step(sum: nat, w: nat, rest: nat)
    ensures Add32(Add32(sum, w), rest) == Add32(sum, w + rest)
  {
  }

  lemma {:induction false} SumWord(little: bool, addr: seq<Octet>, w: nat)
    requires w + 2 <= |addr|
    ensures Sum(little, addr[w..]) == Load16(little, addr[w], addr[w + 1]) + Sum(little, addr[w + 2..])
  {
  }

  lemma {:induction false} SumEnd(little: bool, addr: seq<Octet>, w: nat)
    requires |addr| - 1 <= w <= |addr|
    ensures Sum(little, addr[w..]) == if w == |addr| then 0 else Load16(little, addr[w], 0)
  {
  }

  /** The accumulating loop of libfree/in_cksum.c. */
  method InCksum(addr: seq<Octet>, little: bool) returns (answer: nat)
    ensures answer == Cksum(little, addr)
  {
    hide Load16, Add32, Sum, Folded, Canon;
    var nleft, sum, w := |addr|, 0, 0;
    assert addr[w..] == addr;
    while nleft > 1
      invariant 0 <= nleft && w + nleft == |addr| && 0 <= sum < U32
      invariant Add32(sum, Sum(little, addr[w..])) == Add32(0, Sum(little, addr))
    {
      SumWord(little, addr, w);
      Add32Step(sum, Load16(little, addr[w], addr[w + 1]), Sum(little, addr[w + 2..]));
      sum := Add32(sum, Load16(little, addr[w], addr[w + 1]));
      w, nleft := w + 2, nleft - 2;
    }
    SumEnd(little, addr, w);
    if nleft == 1 {
      Add32Step(sum, Load16(little, addr[w], 0), 0);
      sum := Add32(sum, Load16(little, addr[w], 0));
    }
    Add32Zero(sum);
    Add32Zero(Sum(little, addr));
    FoldedIsCanon(sum);
    answer := Fold(sum);
  }

  lemma {:induction false} Add32Zero(x: nat)
    ensures Add32(x, 0) == Add32(0, x) == x % U32
  {
  }

  method Fold(sum: nat) returns (answer: nat)
    requires sum < U32
    ensures answer == 0xffff - Canon(sum)
  {
    FoldedIsCanon(sum);
    var s := sum / 0x10000 + sum % 0x10000;
    s := s + s / 0x10000;
    answer := 0xffff - s % 0x10000;
  }

  // ---- two folds give the one's complement sum

  /** The representative of `n` modulo 65535 that a one's complement sum yields: only an
      all-zero buffer gives zero. */
  function Canon(n: nat): (c: nat)
    ensures c <= 0xffff
  {
    if n == 0 then 0 else (n - 1) % 0xffff + 1
  }

  lemma {:induction false} CanonAdd(a: nat, n: nat)
    requires a <= 0xffff
    ensures OnesAdd(a, Canon(n)) == Canon(a + n)
  {
  }

  lemma {:induction false} OnesSumIsCanon(little: bool, data: seq<Octet>)
    ensures OnesSum(little, data) == Canon(Sum(little, data))
  {
    if |data| >= 2 {
      OnesSumIsCanon(little, data[2..]);
      CanonAdd(Load16(little, data[0], data[1]), Sum(little, data[2..]));
    }
  }

  lemma {:induction false} FoldedIsCanon(n: nat)
    requires n < U32
    ensures Folded(n) == Canon(n)
  {
    var h, l := n / 0x10000, n % 0x10000;
    assert n == h * 0xffff + (h + l);
    assert n > 0 ==> (n - 1) % 0xffff == (h + l - 1) % 0xffff;
  }

  lemma {:induction false} SumBound(little: bool, data: seq<Octet>)
    ensures Sum(little, data) <= (|data| + 1) / 2 * 0xffff
  {
    if |data| >= 2 {
      SumBound(little, data[2..]);
    }
  }

  /** Adding 2^32 is adding one modulo 65535. */
  lemma {:induction false} CanonWraps(t: nat, k: nat)
    requires 1 <= k < 0xffff
    ensures Canon(t) != Canon(t + k * U32)
  {
  }

  /** The checksum is the complement of the one's complement sum exactly when the exact sum
      fits the 32-bit accumulator; `len` is a C int, so the buffer is shorter than 2^31. */
  lemma {:induction false} ChecksumExactly(little: bool, data: seq<Octet>)
    requires |data| < 0x8000_0000
    ensures Cksum(little, data) == 0xffff - OnesSum(little, data) <==> Sum(little, data) < U32
  {
    hide Sum, OnesSum, Folded, Canon;
    var s := Sum(little, data);
    OnesSumIsCanon(little, data);
    FoldedIsCanon(s % U32);
    SumBound(little, data);
    if s >= U32 {
      CanonWraps(s % U32, s / U32);
    }
  }

  /** No buffer of at most 65537 words, counting a last odd byte as one, wraps. */
  lemma {:induction false} NoWrap(little: bool, data: seq<Octet>)
    requires (|data| + 1) / 2 <= 65537
    ensures Sum(little, data) < U32
    ensures Cksum(little, data) == 0xffff - OnesSum(little, data)
  {
    SumBound(little, data);
    ChecksumExactly(little, data);
  }

  // ---- byte order

  function Swap(w: nat): (s: nat)
    requires w <= 0xffff
    ensures s <= 0xffff
  {
    w % 256 * 256 + w / 256
  }

  lemma {:induction false} SwapBytes(hi: nat, lo: nat)
    requires hi < 256 && lo < 256
    ensures Swap(256 * hi + lo) == 256 * lo + hi
  {
  }

  lemma {:induction false} SwapAddBytes(a1: nat, a0: nat, b1: nat, b0: nat)
    requires a1 < 256 && a0 < 256 && b1 < 256 && b0 < 256
    ensures Swap(OnesAdd(256 * a1 + a0, 256 * b1 + b0)) == OnesAdd(256 * a0 + a1, 256 * b0 + b1)
  {
    hide Swap;
    // the bytes of the sum: the carry out of one byte enters the other, both ways round
    var e := if 256 * (a1 + b1) + (a0 + b0) > 0xffff then 1 else 0;
    var c := if a0 + b0 + e >= 256 then 1 else 0;
    SwapBytes(a1 + b1 + c - 256 * e, a0 + b0 + e - 256 * c);
  }

  lemma {:induction false} SwapAdd(a: nat, b: nat)
    requires a <= 0xffff && b <= 0xffff
    ensures Swap(OnesAdd(a, b)) == OnesAdd(Swap(a), Swap(b))
  {
    SwapAddBytes(a / 256, a % 256, b / 256, b % 256);
  }

  lemma {:induction false} SwapLoad(b0: Octet, b1: Octet)
    ensures Load16(false, b0, b1) == Swap(Load16(true, b0, b1))
  {
  }

  /** Section 2 of RFC 1071: swapping the bytes of every word swaps those of the sum. */
  lemma {:induction false} OnesSumSwaps(data: seq<Octet>)
    ensures OnesSum(false, data) == Swap(OnesSum(true, data))
  {
    hide Swap, Load16, OnesAdd;
    if |data| >= 2 {
      OnesSumSwaps(data[2..]);
      SwapLoad(data[0], data[1]);
      SwapAdd(Load16(true, data[0], data[1]), OnesSum(true, data[2..]));
    } else if |data| == 1 {
      SwapLoad(data[0], 0);
    } else {
      SwapBytes(0, 0);
    }
  }

  lemma {:induction false} StoredAlike(le: nat, be: nat)
    requires le <= 0xffff && be <= 0xffff
    ensures Store16(true, le) == Store16(false, be) <==> be == Swap(le)
  {
  }

  lemma {:induction false} SwapComplement(w: nat)
    requires w <= 0xffff
    ensures Swap(0xffff - w) == 0xffff - Swap(w)
  {
  }

  /** The checksum's bytes in memory do not depend on the machine's byte order. */
  lemma {:induction false} ByteOrderIndependent(data: seq<Octet>)
    requires Sum(true, data) < U32 && Sum(false, data) < U32
    ensures Store16(true, Cksum(true, data)) == Store16(false, Cksum(false, data))
  {
    hide Swap, Sum, OnesSum, Folded, Canon, Store16;
    FoldedIsCanon(Sum(true, data));
    FoldedIsCanon(Sum(false, data));
    OnesSumIsCanon(true, data);
    OnesSumIsCanon(false, data);
    OnesSumSwaps(data);
    SwapComplement(OnesSum(true, data));
    StoredAlike(Cksum(true, data), Cksum(false, data));
  }

  lemma {:induction false} CanonResidue(m: nat) returns (q: nat)
    ensures m == Canon(m) + q * 0xffff && (Canon(m) == 0 <==> m == 0)
  {
    q := if m == 0 then 0 else (m - 1) / 0xffff;
  }

  lemma {:induction false} ModShift(x: int, k: int)
    ensures (x + k * 0xffff) % 0xffff == x % 0xffff
  {
  }

  lemma {:induction false} SwapResidue(a: nat, b: nat)
    requires a <= 0xffff && b <= 0xffff
    ensures b == Swap(a) <==> (256 * a - b) % 0xffff == 0 && (a == 0 <==> b == 0)
  {
    var d: int := Swap(a) - b;
    assert 256 * a - b == d + a / 256 * 0xffff && (Swap(a) == 0 <==> a == 0);
    ModShift(d, a / 256);
    assert d % 0xffff == 0 <==> d == 0 || d == 0xffff || d == -0xffff;
  }

  lemma {:induction false} SwapCanon(m: nat, n: nat)
    ensures Canon(n) == Swap(Canon(m)) <==> (256 * m - n) % 0xffff == 0 && (m == 0 <==> n == 0)
  {
    var p := CanonResidue(m);
    var q := CanonResidue(n);
    SwapResidue(Canon(m), Canon(n));
    hide Canon, Swap;
    var d: int := 256 * Canon(m) - Canon(n);
    ModShift(d, 256 * (p as int) - q);
  }

  /** How often the accumulator wrapped. */
  function Wraps(little: bool, data: seq<Octet>): nat { Sum(little, data) / U32 }

  lemma {:induction false} CarryResidue(se: nat, be: nat)
    requires (256 * se - be) % 0xffff == 0
    ensures (256 * (se % U32) - be % U32) % 0xffff == 0 <==> (256 * (se / U32) - be / U32) % 0xffff == 0
  {
  }

  /** In full: the stored bytes agree exactly when the carries lost in the two orders
      correspond and the wrapped accumulators are zero together. */
  lemma {:induction false} ByteOrderExactly(data: seq<Octet>)
    ensures Store16(true, Cksum(true, data)) == Store16(false, Cksum(false, data))
       <==> && (256 * Wraps(true, data) - Wraps(false, data)) % 0xffff == 0
            && (Sum(true, data) % U32 == 0 <==> Sum(false, data) % U32 == 0)
  {
    hide Swap, Sum, OnesSum, Folded, Canon, Store16;
    var le, be := Sum(true, data), Sum(false, data);
    OnesSumIsCanon(true, data);
    OnesSumIsCanon(false, data);
    OnesSumSwaps(data);
    SwapCanon(le, be);
    CarryResidue(le, be);
    FoldedIsCanon(le % U32);
    FoldedIsCanon(be % U32);
    SwapCanon(le % U32, be % U32);
    SwapComplement(Folded(le % U32));
    SwapComplement(Cksum(true, data));
    StoredAlike(Cksum(true, data), Cksum(false, data));
  }

  lemma {:induction false} SumOfOnes(little: bool, n: nat)
    ensures Sum(little, seq(2 * n, _ => 255)) == n * 0xffff
  {
    if n > 0 {
      SumOfOnes(little, n - 1);
      var d := seq<Octet>(2 * n, _ => 255);
      assert d[2..] == seq<Octet>(2 * (n - 1), _ => 255);
    }
  }

  /** One word past the bound: 65538 words of 0xffff give another checksum than their one's
      complement sum, and other bytes in the two orders. */
  lemma {:induction false} WrapChangesChecksum()
    ensures var data := seq<Octet>(131076, _ => 255);
            && Cksum(true, data) != 0xffff - OnesSum(true, data)
            && Store16(true, Cksum(true, data)) != Store16(false, Cksum(false, data))
  {
    var data := seq<Octet>(131076, _ => 255);
    SumOfOnes(true, 65538);
    SumOfOnes(false, 65538);
    assert data == seq<Octet>(2 * 65538, _ => 255);
    ChecksumExactly(true, data);
    ByteOrderExactly(data);
  }

  // ---- a stored checksum verifies

  lemma {:induction false} SumPatch(little: bool, data: seq<Octet>, at: nat, c: nat)
    requires at % 2 == 0 && at + 2 <= |data| && data[at] == data[at + 1] == 0 && c <= 0xffff
    ensures Sum(little, data[..at] + Store16(little, c) + data[at + 2..]) == Sum(little, data) + c
    decreases at
  {
    var patched := data[..at] + Store16(little, c) + data[at + 2..];
    if at == 0 {
      assert patched[2..] == data[2..];
    } else {
      SumPatch(little, data[2..], at - 2, c);
      assert patched[2..] == data[2..][..at - 2] + Store16(little, c) + data[2..][at..];
    }
  }

  /** As in send_v4 and pinger: the checksum is written into a word that was zero, and then
      the checksum of the whole message is zero, even where the accumulator wrapped: adding the
      complement never carries out of it. */
  lemma {:induction false} StoredChecksumVerifies(little: bool, data: seq<Octet>, at: nat)
    requires at % 2 == 0 && at + 2 <= |data| && data[at] == data[at + 1] == 0
    ensures var c := Cksum(little, data);
            Cksum(little, data[..at] + Store16(little, c) + data[at + 2..]) == 0
  {
    hide Sum, Folded, Canon, Store16;
    var s, c := Sum(little, data), Cksum(little, data);
    SumPatch(little, data, at, c);
    FoldedIsCanon(s % U32);
    CanonComplement(s % U32);
    assert (s + c) % U32 == s % U32 + c;
    FoldedIsCanon(s % U32 + c);
  }

  lemma {:induction false} CanonComplement(n: nat)
    ensures Canon(n + (0xffff - Canon(n))) == 0xffff
    ensures n < U32 ==> n + (0xffff - Canon(n)) < U32
  {
    var q := if n == 0 then 0 else (n - 1) / 0xffff;
    assert n + (0xffff - Canon(n)) == if n == 0 then 0xffff else (q + 1) * 0xffff;
  }

  // ---- bsdping

  const MAXPACKET := 65536 - 60 - 8

  /** The signed accumulator of ping/bsdping.c never overflows on what pinger passes, at most
      eight bytes of header and MAXPACKET of data, and gives the same answer. */
  method BsdInCksum(addr: seq<Octet>, little: bool) returns (answer: nat)
    requires |addr| <= MAXPACKET + 8
    ensures answer == Cksum(little, addr)
  {
    hide Load16, Sum, Folded, Canon;
    var nleft, sum: int, w := |addr|, 0, 0;
    assert addr[w..] == addr;
    SumBound(little, addr);
    while nleft > 1
      invariant 0 <= nleft && w + nleft == |addr| && 0 <= sum
      invariant sum + Sum(little, addr[w..]) == Sum(little, addr)
    {
      SumWord(little, addr, w);
      sum := sum + Load16(little, addr[w], addr[w + 1]);
      assert sum <= 0x7fff_ffff;
      w, nleft := w + 2, nleft - 2;
    }
    SumEnd(little, addr, w);
    if nleft == 1 {
      sum := sum + Load16(little, addr[w], 0);
      assert sum <= 0x7fff_ffff;
    }
    FoldedIsCanon(sum);
    answer := Fold(sum);
  }
}
