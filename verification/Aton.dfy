/** `inet_aton` of libfree/inet_aton.c: the older, laxer dotted-decimal parser. */
module Aton {
  import opened Basics
  import opened Numerals
  import opened Pton4

  /** One past the largest `u_long`: the accumulator wraps there. */
  predicate IsUlong(m: nat) { m == 0x1_0000_0000 || m == 0x1_0000_0000_0000_0000 }

  /** What the accumulator holds after the digits of `s`. */
  function Wrapped(s: string, m: nat): (v: nat)
    requires AllDec(s) && IsUlong(m)
  {
    DecValue(s) % m
  }

  predicate IsPiece(s: string, m: nat)
    requires IsUlong(m)
  {
    AllDec(s) && Wrapped(s, m) <= 255
  }

  predicate AllPieces(parts: seq<string>, m: nat)
    requires IsUlong(m)
  {
    forall i :: 0 <= i < |parts| ==> IsPiece(parts[i], m)
  }

  /** At most four pieces of digits, possibly empty, each at most 255 after wrapping. */
  predicate Accepts(s: string, m: nat)
    requires IsUlong(m)
  {
    |Split(s)| <= 4 && AllPieces(Split(s), m)
  }

  function PieceValues(parts: seq<string>, m: nat): (v: seq<Octet>)
    requires IsUlong(m) && AllPieces(parts, m)
    ensures |v| == |parts|
    ensures forall i :: 0 <= i < |parts| ==> AllDec(parts[i]) && v[i] == Wrapped(parts[i], m)
  {
    if parts == [] then []
    else
      var n := |parts| - 1;
      assert IsPiece(parts[n], m);
      PieceValues(parts[..n], m) + [Wrapped(parts[n], m)]
  }

  /** The address in network order: missing pieces on the right count as zero. */
  function Address(s: string, m: nat): (a: seq<Octet>)
    requires IsUlong(m) && Accepts(s, m)
    ensures |a| == 4
  {
    var v := PieceValues(Split(s), m);
    v + Zeros(4 - |v|)
  }

  function BigEndian(b: seq<Octet>): (v: nat)
  {
    if b == [] then 0 else 256 * BigEndian(b[..|b| - 1]) + b[|b| - 1] as int
  }

  /** The low `k` bytes of `v`, most significant first: htonl, seen as memory. */
  function NetworkBytes(v: nat, k: nat): (b: seq<Octet>)
    ensures |b| == k
  {
    if k == 0 then [] else NetworkBytes(v / 256, k - 1) + [v % 256]
  }

  lemma {:induction false} BigEndianBytes(b: seq<Octet>)
    ensures NetworkBytes(BigEndian(b), |b|) == b
  {
    if b != [] {
      BigEndianBytes(b[..|b| - 1]);
    }
  }

  lemma {:induction false} ShiftByte(b: seq<Octet>)
    ensures BigEndian(b + [0]) == 256 * BigEndian(b)
  {
  }

  /** Normalizing by a shift puts the zeros on the right. */
  lemma {:induction false} Normalized(v: seq<Octet>)
    requires 1 <= |v| <= 4
    ensures var k := 4 - |v|;
            var shift := if k == 0 then 1 else if k == 1 then 0x100 else if k == 2 then 0x1_0000 else 0x100_0000;
            NetworkBytes(BigEndian(v) * shift, 4) == v + Zeros(k)
  {
    hide BigEndian, NetworkBytes;
    ShiftByte(v);
    ShiftByte(v + [0]);
    ShiftByte(v + [0] + [0]);
    var k := 4 - |v|;
    var w := if k == 0 then v else if k == 1 then v + [0] else if k == 2 then v + [0] + [0] else v + [0] + [0] + [0];
    assert w == v + Zeros(k);
    BigEndianBytes(w);
  }

  /** The loop's view of the text read so far: `parts` are its pieces. */
  ghost predicate Holds(parts: seq<string>, m: nat, dots: nat, acc: nat, addr: nat)
    requires IsUlong(m)
  {
    && |parts| == dots + 1 <= 4
    && AllPieces(parts[..dots], m)
    && AllDec(parts[dots]) && acc == Wrapped(parts[dots], m)
    && addr == BigEndian(PieceValues(parts[..dots], m))
  }

  lemma {:induction false} HoldsDigit(parts: seq<string>, m: nat, dots: nat, acc: nat, addr: nat, c: char)
    requires IsUlong(m) && Holds(parts, m, dots, acc, addr) && IsDec(c)
    ensures Holds(parts[dots := parts[dots] + [c]], m, dots, (acc * 10 + DecDigit(c)) % m, addr)
  {
    AppendDigit(parts[dots], c);
    assert parts[dots := parts[dots] + [c]][..dots] == parts[..dots];
    WrapOnce(DecValue(parts[dots]), DecDigit(c), m);
  }

  lemma {:induction false} WrapOnce(v: nat, d: nat, m: nat)
    requires IsUlong(m)
    ensures (v % m * 10 + d) % m == (10 * v + d) % m
  {
  }

  lemma {:induction false} HoldsPush(parts: seq<string>, m: nat, dots: nat, acc: nat, addr: nat)
    requires IsUlong(m) && Holds(parts, m, dots, acc, addr) && acc <= 255
    ensures AllPieces(parts, m)
    ensures addr * 256 + acc == BigEndian(PieceValues(parts, m))
  {
  }

  /** A finished piece that is too large, a stray character, or a fifth piece: rejected. */
  lemma {:induction false} RejectedPiece(s: string, k: nat, m: nat)
    requires IsUlong(m) && k <= |s|
    requires var a := Split(s[..k]);
             !AllDec(a[|a| - 1]) || ((k == |s| || s[k] == '.') && Wrapped(a[|a| - 1], m) > 255)
    ensures !Accepts(s, m)
  {
    SplitExtends(s, k);
    var a, b := Split(s[..k]), Split(s);
    var i := |a| - 1;
    if k == |s| {
      assert s[..k] == s;
    } else if s[k] == '.' {
      SplitExtends(s, k + 1);
      SplitChar(s, k);
      var a' := Split(s[..k + 1]);
      assert a'[..|a'| - 1][i] == b[..|a'| - 1][i] == a[i];
    }
    if !AllDec(a[i]) {
      var j :| 0 <= j < |a[i]| && !IsDec(a[i][j]);
      assert b[i][j] == a[i][j];
    }
  }

  lemma {:induction false} RejectedDots(s: string, k: nat, m: nat)
    requires IsUlong(m) && k <= |s| && |Split(s[..k])| > 4
    ensures !Accepts(s, m)
  {
    SplitExtends(s, k);
  }

  lemma {:induction false} HoldsDot(parts: seq<string>, m: nat, dots: nat, acc: nat, addr: nat)
    requires IsUlong(m) && Holds(parts, m, dots, acc, addr) && acc <= 255 && dots < 3
    ensures Holds(parts + [""], m, dots + 1, 0, addr * 256 + acc)
  {
  }

  lemma {:induction false} RejectedStray(s: string, k: nat, m: nat)
    requires IsUlong(m) && k < |s| && !IsDec(s[k]) && s[k] != '.'
    ensures !Accepts(s, m)
  {
    SplitChar(s, k);
    var parts := Split(s[..k]);
    var piece := parts[|parts| - 1];
    assert (piece + [s[k]])[|piece|] == s[k];
    RejectedPiece(s, k + 1, m);
  }

  /** The do-while loop over the characters and the terminating NUL. */
  method InetAton(cp: string, m: nat) returns (r: Option<seq<Octet>>)
    requires IsUlong(m)
    ensures r == if Accepts(cp, m) then Some(Address(cp, m)) else None
  {
    var dots: nat, acc: nat, addr: nat, p := 0, 0, 0, 0;
    assert cp[..0] == "";
    assert Holds(Split(cp[..p]), m, dots, acc, addr);
    hide Split, PieceValues, BigEndian, NetworkBytes, DecValue, Accepts;
    while p < |cp|
      invariant 0 <= p <= |cp|
      invariant Holds(Split(cp[..p]), m, dots, acc, addr)
    {
      var cc := cp[p];
      SplitChar(cp, p);
      if IsDec(cc) {
        HoldsDigit(Split(cp[..p]), m, dots, acc, addr, cc);
        acc := (acc * 10 + DecDigit(cc)) % m;
      } else if cc == '.' {
        if dots + 1 > 3 {
          RejectedDots(cp, p + 1, m);
          return None;
        }
        if acc > 255 {
          RejectedPiece(cp, p, m);
          return None;
        }
        HoldsDot(Split(cp[..p]), m, dots, acc, addr);
        dots, addr, acc := dots + 1, addr * 256 + acc, 0;
      } else {
        RejectedStray(cp, p, m);
        return None;
      }
      p := p + 1;
    }
    assert cp[..p] == cp;
    r := Finish(cp, m, dots, acc, addr);
  }

  /** The NUL ends the last piece; then the address is normalized. */
  method Finish(cp: string, m: nat, dots: nat, acc: nat, start: nat) returns (r: Option<seq<Octet>>)
    requires IsUlong(m) && Holds(Split(cp), m, dots, acc, start)
    ensures r == if Accepts(cp, m) then Some(Address(cp, m)) else None
  {
    hide Split, BigEndian, NetworkBytes, PieceValues, DecValue;
    if acc > 255 {
      assert cp[..|cp|] == cp;
      RejectedPiece(cp, |cp|, m);
      return None;
    }
    HoldsPush(Split(cp), m, dots, acc, start);
    assert Accepts(cp, m);
    var addr := start * 256 + acc;
    Normalized(PieceValues(Split(cp), m));
    if dots < 3 {
      addr := addr * if dots == 2 then 0x100 else if dots == 1 then 0x1_0000 else 0x100_0000;
    }
    return Some(NetworkBytes(addr, 4));
  }

  /** On every dotted quad that inet_pton4 accepts, inet_aton yields the same four bytes. */
  lemma {:induction false} AgreesWithPton4(s: string, m: nat)
    requires IsUlong(m) && IsDottedQuad(s)
    ensures Accepts(s, m) && Address(s, m) == QuadBytes(s)
  {
    var parts := Split(s);
    forall i | 0 <= i < 4 ensures IsPiece(parts[i], m) && Wrapped(parts[i], m) == DecValue(parts[i]) {
      assert IsOctetText(parts[i]);
    }
  }

  /** The converse fails exactly on short texts, empty pieces and wrapped numerals. */
  lemma {:induction false} StricterThanAton(s: string, m: nat)
    requires IsUlong(m) && Accepts(s, m)
    ensures var parts := Split(s);
            IsDottedQuad(s) <==> |parts| == 4 && forall i :: 0 <= i < 4 ==> parts[i] != "" && DecValue(parts[i]) < m
  {
  }

  /** A single number is an address to inet_aton, and none to inet_pton4. */
  lemma {:induction false} ShortForm(m: nat)
    requires IsUlong(m)
    ensures Accepts("1", m) && Address("1", m) == [1, 0, 0, 0] && !IsDottedQuad("1")
  {
    assert "1"[..0] == "" && Split("1") == [""][0 := "" + ['1']];
    assert Split("1")[0] == "1";
    assert DecValue("1") == 10 * DecValue("") + 1;
    var v := PieceValues(Split("1"), m);
    assert v == [1] && [1] + Zeros(3) == [1, 0, 0, 0];
  }
}
