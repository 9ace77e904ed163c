/** `inet_pton6` of libfree/inet_pton.c: IPv6 text to sixteen bytes. */
module Pton6 {
  import opened Basics
  import opened Numerals
  import opened Pton4

  const IN6ADDRSZ := 16

  /** A 16-bit group in network order. */
  function WordBytes(v: nat): (w: seq<Octet>)
    requires v <= 0xffff
  {
    [v / 256, v % 256]
  }

  /** The bytes written, and the offset at which "::" was seen. */
  datatype Scanned = Scanned(out: seq<Octet>, colon: Option<nat>)

  /** What the scanning loop leaves, given the bytes written so far, the characters of the
      current token and the rest of the text. `val` is the token's value and `saw_xdigit`
      says that it is not empty. */
  function Scan(out: seq<Octet>, colon: Option<nat>, token: string, rest: string): (r: Option<Scanned>)
    requires AllHex(token) && HexValue(token) <= 0xffff
    decreases |rest|
  {
    var room := |out| + 2 <= IN6ADDRSZ;
    if rest == "" then
      if token == "" then Some(Scanned(out, colon))
      else if room then Some(Scanned(out + WordBytes(HexValue(token)), colon))
      else None
    else
      var ch := rest[0];
      if IsHex(ch) then
        if HexValue(token + [ch]) > 0xffff then None else Scan(out, colon, token + [ch], rest[1..])
      else if ch == ':' then
        if token == "" then
          if colon.Some? then None else Scan(out, Some(|out|), "", rest[1..])
        else if room then Scan(out + WordBytes(HexValue(token)), colon, "", rest[1..])
        else None
      else if ch == '.' && |out| + 4 <= IN6ADDRSZ && IsDottedQuad(token + rest) then
        Some(Scanned(out + QuadBytes(token + rest), colon))
      else None
  }

  lemma {:induction false} ScanBounds(out: seq<Octet>, colon: Option<nat>, token: string, rest: string)
    requires AllHex(token) && HexValue(token) <= 0xffff
    requires |out| <= 16 && (colon.Some? ==> colon.value <= |out|)
    ensures var r := Scan(out, colon, token, rest);
            r.Some? ==> |r.value.out| <= 16 && (r.value.colon.Some? ==> r.value.colon.value <= |r.value.out|)
    decreases |rest|
  {
    if rest != "" {
      var ch := rest[0];
      if IsHex(ch) && HexValue(token + [ch]) <= 0xffff {
        ScanBounds(out, colon, token + [ch], rest[1..]);
      } else if ch == ':' && token == "" {
        ScanBounds(out, Some(|out|), "", rest[1..]);
      } else if ch == ':' && |out| + 2 <= 16 {
        ScanBounds(out + WordBytes(HexValue(token)), colon, "", rest[1..]);
      }
    }
  }

  /** What the shift loop makes of the bytes written. The bytes after the "::" move to the
      end; in an already full address source and target coincide and they are wiped. */
  function Expand(out: seq<Octet>, c: nat): (r: seq<Octet>)
    requires c <= |out| <= 16
    ensures |r| == 16
  {
    if |out| < 16 then out[..c] + Zeros(16 - |out|) + out[c..] else out[..c] + Zeros(16 - c)
  }

  function Finish(r: Option<Scanned>): (a: Option<seq<Octet>>)
    requires r.Some? ==> |r.value.out| <= 16
    requires r.Some? && r.value.colon.Some? ==> r.value.colon.value <= |r.value.out|
    ensures a.Some? ==> |a.value| == 16
  {
    if r.None? then None
    else if r.value.colon.Some? then Some(Expand(r.value.out, r.value.colon.value))
    else if |r.value.out| == 16 then Some(r.value.out)
    else None
  }

  /** A leading colon must be doubled, and its first half is skipped. */
  function SkipLeadingColon(src: string): (r: Option<string>)
  {
    if src == "" || src[0] != ':' then Some(src)
    else if |src| >= 2 && src[1] == ':' then Some(src[1..])
    else None
  }

  /** The address a text denotes to this parser, if it accepts the text. */
  function Parse(src: string): (a: Option<seq<Octet>>)
    ensures a.Some? ==> |a.value| == 16
  {
    var s := SkipLeadingColon(src);
    if s.None? then None
    else
      ScanBounds([], None, "", s.value);
      Finish(Scan([], None, "", s.value))
  }

  /** The source comment says that "::" in a full address is ignored. The bytes before it are
      kept, but the address survives only when everything after the "::" was zero. */
  lemma {:induction false} FullAddressColon(out: seq<Octet>, c: nat)
    requires |out| == 16 && c <= 16
    ensures Expand(out, c) == out <==> forall i :: c <= i < 16 ==> out[i] == 0
  {
  }

  /** The in-place shift, from the last byte down. */
  method Shift(tmp: array<Octet>, tp: nat, colonp: nat)
    requires tmp.Length == 16 && colonp <= tp <= 16
    requires forall i :: tp <= i < 16 ==> tmp[i] == 0
    modifies tmp
    ensures tmp[..] == Expand(old(tmp[..tp]), colonp)
  {
    var n, i := tp - colonp, 1;
    while i <= n
      invariant 1 <= i <= n + 1
      invariant forall k :: 0 <= k < colonp + n + 1 - i ==> tmp[k] == old(tmp[k])
      invariant forall k :: colonp + n + 1 - i <= k < 16 ==>
                  tmp[k] == if 17 - i <= k && tp < 16 then old(tmp[k - (16 - tp)]) else 0
    {
      tmp[16 - i] := tmp[colonp + n - i];
      tmp[colonp + n - i] := 0;
      i := i + 1;
    }
  }

  method PutWord(tmp: array<Octet>, tp: nat, val: nat)
    requires tmp.Length == 16 && tp + 2 <= 16 && val <= 0xffff
    modifies tmp
    ensures tmp[..tp + 2] == old(tmp[..tp]) + WordBytes(val)
    ensures forall i :: tp + 2 <= i < 16 ==> tmp[i] == old(tmp[i])
  {
    tmp[tp], tmp[tp + 1] := val / 256, val % 256;
  }

  /** Pushing a token's value, or recording the "::", is what the next Scan step does. */
  lemma {:induction false} ScanSteps(out: seq<Octet>, colon: Option<nat>, src: string, curtok: nat, p: nat)
    requires curtok <= p < |src| && AllHex(src[curtok..p]) && HexValue(src[curtok..p]) <= 0xffff
    ensures var token, ch := src[curtok..p], src[p];
            var now := Scan(out, colon, token, src[p..]);
            if IsHex(ch) then
              && AllHex(src[curtok..p + 1])
              && HexValue(src[curtok..p + 1]) == 16 * HexValue(token) + HexDigit(ch)
              && (if HexValue(src[curtok..p + 1]) > 0xffff then now == None
                  else now == Scan(out, colon, src[curtok..p + 1], src[p + 1..]))
            else if ch == ':' && curtok == p then
              now == if colon.Some? then None else Scan(out, Some(|out|), "", src[p + 1..])
            else if ch == ':' then
              now == if |out| + 2 > 16 then None
                     else Scan(out + WordBytes(HexValue(token)), colon, "", src[p + 1..])
            else
              now == if ch == '.' && |out| + 4 <= 16 && IsDottedQuad(src[curtok..])
                     then Some(Scanned(out + QuadBytes(src[curtok..]), colon)) else None
  {
    var token, rest := src[curtok..p], src[p..];
    assert rest[1..] == src[p + 1..];
    assert token + rest == src[curtok..];
    assert src[curtok..p + 1] == token + [src[p]];
    assert (token + [src[p]])[..|token|] == token;
  }

  /** The character loop, from `src[start]` on, and the final pending group. */
  method ScanLoop(src: string, start: nat, tmp: array<Octet>)
    returns (ok: bool, tp: nat, colonp: Option<nat>)
    requires tmp.Length == 16 && start <= |src|
    requires forall i :: 0 <= i < 16 ==> tmp[i] == 0
    modifies tmp
    ensures ok ==> tp <= 16 && (forall i :: tp <= i < 16 ==> tmp[i] == 0)
    ensures Scan([], None, "", src[start..]) == if ok then Some(Scanned(tmp[..tp], colonp)) else None
  {
    ghost var goal := Scan([], None, "", src[start..]);
    ok := false;
    var p := start;
    tp, colonp := 0, None;
    var curtok, sawXdigit, val := p, false, 0;
    while p < |src|
      invariant 0 <= curtok <= p <= |src| && 0 <= tp <= 16
      invariant forall i :: tp <= i < 16 ==> tmp[i] == 0
      invariant AllHex(src[curtok..p]) && val == HexValue(src[curtok..p]) <= 0xffff
      invariant sawXdigit <==> curtok < p
      invariant goal == Scan(tmp[..tp], colonp, src[curtok..p], src[p..])
    {
      ScanSteps(tmp[..tp], colonp, src, curtok, p);
      var ch := src[p];
      p := p + 1;
      if IsHex(ch) {
        val := val * 16 + HexDigit(ch);
        if val > 0xffff {
          return;
        }
        sawXdigit := true;
      } else if ch == ':' {
        curtok := p;
        if !sawXdigit {
          if colonp.Some? {
            return;
          }
          colonp := Some(tp);
        } else {
          if tp + 2 > 16 {
            return;
          }
          PutWord(tmp, tp, val);
          tp := tp + 2;
          sawXdigit, val := false, 0;
        }
      } else {
        if ch != '.' || tp + 4 > 16 {
          return;
        }
        ghost var out := tmp[..tp];
        var rc := InetPton4(src[curtok..], tmp, tp);
        if rc <= 0 {
          return;
        }
        assert tmp[..tp + 4] == out + QuadBytes(src[curtok..]);
        ok, tp := true, tp + 4;  // the NUL was seen by inet_pton4
        return;
      }
    }
    assert src[p..] == "";
    if sawXdigit {
      if tp + 2 > 16 {
        return;
      }
      PutWord(tmp, tp, val);
      tp := tp + 2;
    }
    ok := true;
  }

  /** `dst` is written only on success. */
  method InetPton6(src: string, dst: array<Octet>) returns (rc: int)
    requires dst.Length == 16
    modifies dst
    ensures rc == if Parse(src).Some? then 1 else 0
    ensures dst[..] == if Parse(src).Some? then Parse(src).value else old(dst[..])
  {
    var tmp := new Octet[16](_ => 0);
    var p := 0;
    if p < |src| && src[p] == ':' {
      p := p + 1;
      if p == |src| || src[p] != ':' {
        return 0;
      }
    }
    assert SkipLeadingColon(src) == Some(src[p..]);
    ScanBounds([], None, "", src[p..]);
    var ok, tp, colonp := ScanLoop(src, p, tmp);
    if !ok {
      return 0;
    }
    if colonp.Some? {
      Shift(tmp, tp, colonp.value);
      tp := 16;
    }
    if tp != 16 {
      return 0;
    }
    forall i | 0 <= i < 16 { dst[i] := tmp[i]; }
    assert dst[..] == tmp[..];
    return 1;
  }
}
