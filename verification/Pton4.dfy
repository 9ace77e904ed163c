/** `inet_pton4` of libfree/inet_pton.c: strict dotted-quad text to four bytes. */
module Pton4 {
  import opened Basics
  import opened Numerals

  /** The pieces of `s` between dots; always at least one piece. */
  function Split(s: string): (parts: seq<string>)
    ensures |parts| >= 1
  {
    if s == "" then [""]
    else
      var parts := Split(s[..|s| - 1]);
      var c := s[|s| - 1];
      var last := |parts| - 1;
      if c == '.' then parts + [""] else parts[last := parts[last] + [c]]
  }

  function JoinDots(parts: seq<string>): string
    requires parts != []
  {
    if |parts| == 1 then parts[0] else JoinDots(parts[..|parts| - 1]) + "." + parts[|parts| - 1]
  }

  /** Splitting is undone by joining, and leaves no dots in the pieces: there is only one way. */
  lemma {:induction false} SplitMeans(s: string)
    ensures JoinDots(Split(s)) == s && forall i :: 0 <= i < |Split(s)| ==> '.' !in Split(s)[i]
  {
    if s != "" {
      var parts, all, c := Split(s[..|s| - 1]), Split(s), s[|s| - 1];
      var last := |parts| - 1;
      SplitMeans(s[..|s| - 1]);
      assert s == s[..|s| - 1] + [c];
      if c == '.' {
        assert all[..|all| - 1] == parts && JoinDots(parts) + "." + "" == JoinDots(parts) + ".";
      } else if last > 0 {
        assert all[..last] == parts[..last];
        assert JoinDots(parts[..last]) + "." + (parts[last] + [c]) == (JoinDots(parts[..last]) + "." + parts[last]) + [c];
      }
    }
  }

  predicate IsOctetText(s: string)
  {
    s != "" && AllDec(s) && DecValue(s) <= 255
  }

  /** Four nonempty decimal numbers, each at most 255, separated by dots. */
  predicate IsDottedQuad(s: string)
  {
    var parts := Split(s);
    |parts| == 4 && forall i :: 0 <= i < 4 ==> IsOctetText(parts[i])
  }

  function QuadBytes(s: string): (bytes: seq<Octet>)
    requires IsDottedQuad(s)
    ensures |bytes| == 4
  {
    var parts := Split(s);
    [DecValue(parts[0]), DecValue(parts[1]), DecValue(parts[2]), DecValue(parts[3])]
  }

  /** Reading on only appends pieces and extends the last one. */
  lemma {:induction false} SplitExtends(s: string, k: nat)
    requires k <= |s|
    ensures var a, b := Split(s[..k]), Split(s);
            |a| <= |b| && a[..|a| - 1] == b[..|a| - 1] && a[|a| - 1] <= b[|a| - 1]
  {
    if k == |s| {
      assert s[..k] == s;
    } else {
      var init := s[..|s| - 1];
      SplitExtends(init, k);
      assert init[..k] == s[..k];
    }
  }

  /** A piece that is already too large, or holds a stray character, stays bad. */
  lemma {:induction false} BadPieceStaysBad(s: string, k: nat)
    requires k <= |s|
    requires var a := Split(s[..k]);
             var bad := a[|a| - 1];
             !AllDec(bad) || DecValue(bad) > 255
    ensures !IsDottedQuad(s)
  {
    SplitExtends(s, k);
    var a, b := Split(s[..k]), Split(s);
    var piece := b[|a| - 1];
    var bad := a[|a| - 1];
    assert bad == piece[..|bad|];
    if IsOctetText(piece) {
      DecPrefix(piece, |bad|);
    }
  }

  /** Two dots with nothing between them, a leading dot, or a fifth piece. */
  lemma {:induction false} DotStaysBad(s: string, k: nat)
    requires k < |s| && s[k] == '.'
    requires var a := Split(s[..k]); a[|a| - 1] == "" || |a| >= 4
    ensures !IsDottedQuad(s)
  {
    SplitExtends(s, k + 1);
    assert s[..k + 1][..k] == s[..k];
    var a, a', b := Split(s[..k]), Split(s[..k + 1]), Split(s);
    assert a' == a + [""];
    assert a'[..|a'| - 1][|a| - 1] == b[..|a'| - 1][|a| - 1];
  }

  /** The pieces read so far, as the loop's variables hold them. */
  ghost predicate Tracks(parts: seq<string>, sawDigit: bool, octets: int, tmp: seq<Octet>, tp: nat)
  {
    && |tmp| == 4 && tp == |parts| - 1 < 4
    && (forall i :: 0 <= i < |parts| ==> AllDec(parts[i]) && tmp[i] == DecValue(parts[i]))
    && (forall i :: 0 <= i < tp ==> parts[i] != "")
    && (sawDigit <==> parts[tp] != "")
    && octets == if sawDigit then tp + 1 else tp
  }

  lemma {:induction false} AppendDigit(s: string, c: char)
    requires AllDec(s) && IsDec(c)
    ensures AllDec(s + [c]) && DecValue(s + [c]) == 10 * DecValue(s) + DecDigit(c)
  {
  }

  lemma {:induction false} SplitChar(src: string, p: nat)
    requires p < |src|
    ensures var parts := Split(src[..p]);
            Split(src[..p + 1]) == if src[p] == '.' then parts + [""]
                                   else parts[|parts| - 1 := parts[|parts| - 1] + [src[p]]]
  {
    assert src[..p + 1][..p] == src[..p];
  }

  lemma {:induction false} PiecesDigit(parts: seq<string>, c: char, sawDigit: bool, octets: int, tmp: seq<Octet>, tp: nat)
    requires Tracks(parts, sawDigit, octets, tmp, tp) && IsDec(c)
    ensures var v, piece := tmp[tp] * 10 + DecDigit(c), parts[tp] + [c];
            && AllDec(piece) && v == DecValue(piece)
            && (v <= 255 ==> Tracks(parts[tp := piece], true, tp + 1, tmp[tp := v], tp))
  {
  }

  lemma {:induction false} TracksDigit(src: string, p: nat, sawDigit: bool, octets: int, tmp: seq<Octet>, tp: nat)
    requires p < |src| && IsDec(src[p])
    requires Tracks(Split(src[..p]), sawDigit, octets, tmp, tp)
    ensures var v := tmp[tp] * 10 + DecDigit(src[p]);
            && (v > 255 ==> !IsDottedQuad(src))
            && (v <= 255 ==> Tracks(Split(src[..p + 1]), true, tp + 1, tmp[tp := v], tp))
  {
    hide IsDottedQuad, AllDec, DecValue, Split, DecDigit;
    PiecesDigit(Split(src[..p]), src[p], sawDigit, octets, tmp, tp);
    SplitChar(src, p);
    if tmp[tp] * 10 + DecDigit(src[p]) > 255 {
      BadPieceStaysBad(src, p + 1);
    }
  }

  lemma {:induction false} TracksDot(src: string, p: nat, sawDigit: bool, octets: int, tmp: seq<Octet>, tp: nat)
    requires p < |src| && src[p] == '.'
    requires Tracks(Split(src[..p]), sawDigit, octets, tmp, tp)
    ensures !sawDigit || octets == 4 ==> !IsDottedQuad(src)
    ensures sawDigit && octets != 4 ==> Tracks(Split(src[..p + 1]), false, octets, tmp[tp + 1 := 0], tp + 1)
  {
    if !sawDigit || octets == 4 {
      DotStaysBad(src, p);
    } else {
      SplitChar(src, p);
    }
  }

  lemma {:induction false} TracksStray(src: string, p: nat)
    requires p < |src| && !IsDec(src[p]) && src[p] != '.'
    ensures !IsDottedQuad(src)
  {
    assert src[..p + 1][..p] == src[..p];
    var parts := Split(src[..p]);
    var piece := parts[|parts| - 1];
    assert (piece + [src[p]])[|piece|] == src[p];
    BadPieceStaysBad(src, p + 1);
  }

  /** The source's loop; `src` is the text before the terminating NUL and the four bytes
      go to `dst[at..]`, which is untouched unless the text is accepted. */
  method InetPton4(src: string, dst: array<Octet>, at: nat) returns (rc: int)
    requires at + 4 <= dst.Length
    modifies dst
    ensures rc == if IsDottedQuad(src) then 1 else 0
    ensures dst[..] == if IsDottedQuad(src) then old(dst[..at]) + QuadBytes(src) + old(dst[at + 4..])
                       else old(dst[..])
  {
    var tmp := new Octet[4](_ => 0);
    var tp, sawDigit, octets, p := 0, false, 0, 0;
    while p < |src|
      invariant p <= |src|
      invariant 0 <= tp < 4
      invariant Tracks(Split(src[..p]), sawDigit, octets, tmp[..], tp)
      invariant dst[..] == old(dst[..])
    {
      var ch := src[p];
      if IsDec(ch) {
        TracksDigit(src, p, sawDigit, octets, tmp[..], tp);
        var newValue := tmp[tp] * 10 + DecDigit(ch);
        if newValue > 255 {
          return 0;
        }
        tmp[tp] := newValue;
        if !sawDigit {
          octets := octets + 1;
          assert octets <= 4;  // the source's "> 4" test here never fires
          sawDigit := true;
        }
      } else if ch == '.' && sawDigit {
        TracksDot(src, p, sawDigit, octets, tmp[..], tp);
        if octets == 4 {
          return 0;
        }
        tp := tp + 1;
        tmp[tp] := 0;
        sawDigit := false;
      } else {
        if ch == '.' {
          TracksDot(src, p, sawDigit, octets, tmp[..], tp);
        } else {
          TracksStray(src, p);
        }
        return 0;
      }
      p := p + 1;
    }
    assert src[..p] == src;
    if octets < 4 {
      return 0;
    }
    forall i | 0 <= i < 4 { dst[at + i] := tmp[i]; }
    return 1;
  }
}
