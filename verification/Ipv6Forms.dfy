/** The text forms of section 2.2 of RFC 4291, and what inet_pton6 makes of them. */
module Ipv6Forms {
  import opened Basics
  import opened Numerals
  import opened Pton4
  import opened Pton6

  /** One colon-separated piece: a hexadecimal group, in either case and with any number of
      leading zeros, or a dotted quad standing for the last four bytes. */
  datatype Item = Group(hex: string) | Quad(quad: string) {

    predicate Valid()
    {
      match this
      case Group(h) => h != "" && AllHex(h) && HexValue(h) <= 0xffff
      case Quad(q) => IsDottedQuad(q)
    }

    function Text(): string
    {
      match this
      case Group(h) => h
      case Quad(q) => q
    }

    function Bytes(): seq<Octet>
      requires Valid()
    {
      match this
      case Group(h) => WordBytes(HexValue(h))
      case Quad(q) => QuadBytes(q)
    }
  }

  predicate ValidItems(items: seq<Item>) { forall i :: 0 <= i < |items| ==> items[i].Valid() }

  predicate AllGroups(items: seq<Item>) { forall i :: 0 <= i < |items| ==> items[i].Group? }

  /** Valid items, with a dotted quad at most in the last place. */
  predicate ValidTail(items: seq<Item>)
  {
    ValidItems(items) && (items != [] ==> AllGroups(items[..|items| - 1]))
  }

  function Join(items: seq<Item>): string
  {
    if items == [] then ""
    else if |items| == 1 then items[0].Text()
    else items[0].Text() + ":" + Join(items[1..])
  }

  function BytesOf(items: seq<Item>): seq<Octet>
    requires ValidItems(items)
  {
    if items == [] then [] else items[0].Bytes() + BytesOf(items[1..])
  }

  /** Scanning a run of hexadecimal digits collects them in the token. */
  lemma {:induction false} ScanHex(out: seq<Octet>, colon: Option<nat>, token: string, h: string, rest: string)
    requires AllHex(token) && AllHex(h) && HexValue(token + h) <= 0xffff
    ensures HexValue(token) <= 0xffff
    ensures Scan(out, colon, token, h + rest) == Scan(out, colon, token + h, rest)
    decreases |h|
  {
    HexPrefix(token + h, |token|);
    assert (token + h)[..|token|] == token;
    if h == "" {
      assert token + h == token && h + rest == rest;
    } else {
      HexPrefix(token + h, |token| + 1);
      assert (token + h)[..|token| + 1] == token + [h[0]];
      assert token + h == (token + [h[0]]) + h[1..];
      assert (h + rest)[1..] == h[1..] + rest;
      ScanHex(out, colon, token + [h[0]], h[1..], rest);
    }
  }

  /** A group and the colon after it. */
  lemma {:induction false} ScanGroupColon(out: seq<Octet>, colon: Option<nat>, h: string, rest: string)
    requires Group(h).Valid() && |out| + 2 <= 16
    ensures Scan(out, colon, "", h + ":" + rest) == Scan(out + WordBytes(HexValue(h)), colon, "", rest)
  {
    assert "" + h == h;
    assert h + ":" + rest == h + (":" + rest);
    ScanHex(out, colon, "", h, ":" + rest);
    assert (":" + rest)[1..] == rest;
  }

  lemma {:induction false} FirstDot(s: string)
    ensures var parts := Split(s);
            && parts[0] <= s
            && (|parts| == 1 ==> parts[0] == s)
            && (|parts| >= 2 ==> |parts[0]| < |s| && s[|parts[0]|] == '.')
  {
    if s != "" {
      FirstDot(s[..|s| - 1]);
    }
  }

  /** The first octet of a quad is read as a group, then handed over at the dot. */
  lemma {:induction false} ScanQuad(out: seq<Octet>, colon: Option<nat>, q: string)
    requires IsDottedQuad(q) && |out| + 4 <= 16
    ensures Scan(out, colon, "", q) == Some(Scanned(out + QuadBytes(q), colon))
  {
    var first := Split(q)[0];
    FirstDot(q);
    DecReadAsHex(first);
    assert IsOctetText(first);
    assert "" + first == first;
    var rest := q[|first|..];
    assert q == first + rest;
    ScanHex(out, colon, "", first, rest);
    assert first + rest == q;
  }

  lemma {:induction false} ScanLast(out: seq<Octet>, colon: Option<nat>, item: Item)
    requires item.Valid() && |out| + |item.Bytes()| <= 16
    ensures Scan(out, colon, "", item.Text()) == Some(Scanned(out + item.Bytes(), colon))
  {
    match item
    case Group(h) =>
      assert "" + h == h && h + "" == h;
      ScanHex(out, colon, "", h, "");
    case Quad(q) =>
      ScanQuad(out, colon, q);
  }

  lemma {:induction false} BytesOfCons(out: seq<Octet>, items: seq<Item>)
    requires items != [] && ValidItems(items)
    ensures ValidItems(items[1..])
    ensures out + BytesOf(items) == (out + items[0].Bytes()) + BytesOf(items[1..])
    ensures |BytesOf(items)| == |items[0].Bytes()| + |BytesOf(items[1..])|
  {
  }

  lemma {:induction false} ValidTailCons(items: seq<Item>)
    requires |items| >= 2 && ValidTail(items)
    ensures items[0].Group? && ValidTail(items[1..])
  {
    assert items[0] == items[..|items| - 1][0];
    assert items[1..][..|items| - 2] == items[..|items| - 1][1..];
  }

  lemma {:induction false} ScanEnd(out: seq<Octet>, colon: Option<nat>)
    ensures Scan(out, colon, "", "") == Some(Scanned(out, colon))
  {
  }

  /** A whole list of items, up to the end of the text. */
  lemma {:induction false} ScanItems(out: seq<Octet>, colon: Option<nat>, items: seq<Item>)
    requires ValidTail(items) && |out| + |BytesOf(items)| <= 16
    ensures Scan(out, colon, "", Join(items)) == Some(Scanned(out + BytesOf(items), colon))
    decreases |items|
  {
    hide Scan;
    if items == [] {
      ScanEnd(out, colon);
      assert out + BytesOf(items) == out;
    } else {
      BytesOfCons(out, items);
      if |items| == 1 {
        ScanLast(out, colon, items[0]);
        assert out + items[0].Bytes() + [] == out + items[0].Bytes();
      } else {
        ValidTailCons(items);
        ScanGroupColon(out, colon, items[0].hex, Join(items[1..]));
        ScanItems(out + items[0].Bytes(), colon, items[1..]);
      }
    }
  }

  lemma {:induction false} ScanColon(out: seq<Octet>, rest: string)
    ensures Scan(out, None, "", ":" + rest) == Scan(out, Some(|out|), "", rest)
  {
  }

  lemma {:induction false} JoinGap(pre: seq<Item>, rest: string)
    requires pre != [] && AllGroups(pre)
    ensures Join(pre) + "::" + rest
         == pre[0].hex + ":" + if |pre| == 1 then ":" + rest else Join(pre[1..]) + "::" + rest
  {
  }

  /** Groups in front of a "::". */
  lemma {:induction false} ScanToGap(out: seq<Octet>, pre: seq<Item>, rest: string)
    requires pre != [] && ValidItems(pre) && AllGroups(pre) && |out| + |BytesOf(pre)| <= 16
    ensures Scan(out, None, "", Join(pre) + "::" + rest)
         == Scan(out + BytesOf(pre), Some(|out| + |BytesOf(pre)|), "", rest)
    decreases |pre|
  {
    hide Scan, Join, HexValue;
    BytesOfCons(out, pre);
    JoinGap(pre, rest);
    var out' := out + pre[0].Bytes();
    if |pre| == 1 {
      ScanGroupColon(out, None, pre[0].hex, ":" + rest);
      ScanColon(out', rest);
      assert out' + [] == out';
    } else {
      ScanGroupColon(out, None, pre[0].hex, Join(pre[1..]) + "::" + rest);
      ScanToGap(out', pre[1..], rest);
    }
  }

  lemma {:induction false} JoinStart(items: seq<Item>)
    requires items != [] && ValidItems(items)
    ensures Join(items) != "" && Join(items)[0] != ':'
  {
    match items[0]
    case Group(h) => assert Join(items)[0] == h[0];
    case Quad(q) =>
      FirstDot(q);
      assert IsOctetText(Split(q)[0]);
      assert Join(items)[0] == q[0] == Split(q)[0][0];
  }

  /** Sixteen bytes written out in full. */
  lemma {:induction false} ParseFull(items: seq<Item>)
    requires ValidTail(items) && |BytesOf(items)| == 16
    ensures Parse(Join(items)) == Some(BytesOf(items))
  {
    hide Scan;
    JoinStart(items);
    ScanItems([], None, items);
    assert [] + BytesOf(items) == BytesOf(items);
  }

  lemma {:induction false} LeadingGap(rest: string)
    ensures SkipLeadingColon("" + "::" + rest) == Some(":" + rest)
  {
    assert ("" + "::" + rest)[1..] == ":" + rest;
  }

  lemma {:induction false} NoLeadingGap(first: string, rest: string)
    requires first != "" && first[0] != ':'
    ensures SkipLeadingColon(first + rest) == Some(first + rest)
  {
  }

  /** What is scanned in front of the items after a "::". */
  lemma {:induction false} ScanGapText(pre: seq<Item>, rest: string)
    requires ValidItems(pre) && AllGroups(pre) && |BytesOf(pre)| <= 16
    ensures var s := SkipLeadingColon(Join(pre) + "::" + rest);
            s.Some? && Scan([], None, "", s.value) == Scan(BytesOf(pre), Some(|BytesOf(pre)|), "", rest)
  {
    hide Scan;
    if pre == [] {
      LeadingGap(rest);
      ScanColon([], rest);
    } else {
      JoinStart(pre);
      assert Join(pre) + "::" + rest == Join(pre) + ("::" + rest);
      NoLeadingGap(Join(pre), "::" + rest);
      ScanToGap([], pre, rest);
      assert [] + BytesOf(pre) == BytesOf(pre);
    }
  }

  /** A text with a "::", at the front, in the middle or at the end. */
  lemma {:induction false} ParseGap(pre: seq<Item>, post: seq<Item>)
    requires ValidItems(pre) && AllGroups(pre) && ValidTail(post)
    requires |BytesOf(pre)| + |BytesOf(post)| <= 16
    ensures Parse(Join(pre) + "::" + Join(post))
         == Some(Expand(BytesOf(pre) + BytesOf(post), |BytesOf(pre)|))
  {
    hide Scan;
    ScanGapText(pre, Join(post));
    ScanItems(BytesOf(pre), Some(|BytesOf(pre)|), post);
  }

  lemma {:induction false} ExpandGap(a: seq<Octet>, b: seq<Octet>)
    requires |a| + |b| < 16
    ensures Expand(a + b, |a|) == a + Zeros(16 - |a| - |b|) + b
  {
  }

  /** With room for at least one group, the "::" stands for exactly the missing zeros. */
  lemma {:induction false} ParseCompressed(pre: seq<Item>, post: seq<Item>)
    requires ValidItems(pre) && AllGroups(pre) && ValidTail(post)
    requires |BytesOf(pre)| + |BytesOf(post)| < 16
    ensures Parse(Join(pre) + "::" + Join(post))
         == Some(BytesOf(pre) + Zeros(16 - |BytesOf(pre)| - |BytesOf(post)|) + BytesOf(post))
  {
    hide Parse;
    ParseGap(pre, post);
    ExpandGap(BytesOf(pre), BytesOf(post));
  }

  /** The source's comment "`::` in a full address is silently ignored" is false in general:
      eight groups around a "::" parse to the address they spell exactly when every byte
      after the "::" is zero. */
  lemma {:induction false} FullAddressGap(pre: seq<Item>, post: seq<Item>)
    requires ValidItems(pre) && AllGroups(pre) && ValidTail(post)
    requires |BytesOf(pre)| + |BytesOf(post)| == 16
    ensures Parse(Join(pre) + "::" + Join(post)) == Some(BytesOf(pre) + BytesOf(post))
       <==> forall i :: 0 <= i < |BytesOf(post)| ==> BytesOf(post)[i] == 0
  {
    hide Parse;
    ParseGap(pre, post);
    FullAddressSplit(BytesOf(pre), BytesOf(post));
  }

  lemma {:induction false} FullAddressSplit(a: seq<Octet>, b: seq<Octet>)
    requires |a| + |b| == 16
    ensures Expand(a + b, |a|) == a + b <==> forall i :: 0 <= i < |b| ==> b[i] == 0
  {
  }
}
