/** The exact language of inet_pton6: which texts it accepts, and what they mean to it. */
module Ipv6Language {
  import opened Basics
  import opened Numerals
  import opened Pton4
  import opened Pton6
  import opened Ipv6Forms

  /** A text taken apart: groups and a "::", if there is one, then items of which the last may be a
      dotted quad, then perhaps a single colon, which only a group can have after it. */
  datatype Spelling = Spelling(pre: seq<Item>, gap: bool, post: seq<Item>, colon: bool) {

    predicate WellFormed()
    {
      && ValidItems(pre) && AllGroups(pre) && ValidTail(post)
      && (!gap ==> pre == []) && (colon ==> post != [] && AllGroups(post))
    }

    function Size(): nat
      requires WellFormed()
    {
      |BytesOf(pre)| + |BytesOf(post)|
    }

    predicate Valid() { WellFormed() && if gap then Size() <= 16 else Size() == 16 }

    function End(): string { Join(post) + if colon then ":" else "" }

    function Text(): string { if gap then Join(pre) + "::" + End() else End() }

    function Address(): seq<Octet>
      requires Valid()
    {
      if gap then Expand(BytesOf(pre) + BytesOf(post), |BytesOf(pre)|) else BytesOf(post)
    }
  }

  // ---- every spelling is accepted

  lemma {:induction false} ScanItemsColon(out: seq<Octet>, c: Option<nat>, items: seq<Item>)
    requires items != [] && ValidItems(items) && AllGroups(items) && |out| + |BytesOf(items)| <= 16
    ensures Scan(out, c, "", Join(items) + ":") == Some(Scanned(out + BytesOf(items), c))
    decreases |items|
  {
    hide Scan, HexValue;
    BytesOfCons(out, items);
    var out' := out + items[0].Bytes();
    if |items| == 1 {
      assert Join(items) + ":" == items[0].hex + ":" + "";
      ScanGroupColon(out, c, items[0].hex, "");
      ScanEnd(out', c);
      assert out' + [] == out';
    } else {
      assert Join(items) + ":" == items[0].hex + ":" + (Join(items[1..]) + ":");
      ScanGroupColon(out, c, items[0].hex, Join(items[1..]) + ":");
      ScanItemsColon(out', c, items[1..]);
    }
  }

  lemma {:induction false} ScanItemsEnd(out: seq<Octet>, c: Option<nat>, t: Spelling)
    requires t.WellFormed() && |out| + |BytesOf(t.post)| <= 16
    ensures Scan(out, c, "", t.End()) == Some(Scanned(out + BytesOf(t.post), c))
  {
    hide Scan, Join, BytesOf;
    if t.colon {
      ScanItemsColon(out, c, t.post);
    } else {
      ScanItems(out, c, t.post);
      assert Join(t.post) + "" == Join(t.post);
    }
  }

  lemma {:induction false} SpellingParses(t: Spelling)
    requires t.Valid()
    ensures Parse(t.Text()) == Some(t.Address())
  {
    hide Scan, Join;
    if t.gap {
      ScanGapText(t.pre, t.End());
      ScanItemsEnd(BytesOf(t.pre), Some(|BytesOf(t.pre)|), t);
    } else {
      JoinStart(t.post);
      NoLeadingGap(Join(t.post), if t.colon then ":" else "");
      ScanItemsEnd([], None, t);
      assert [] + BytesOf(t.post) == BytesOf(t.post);
    }
  }

  // ---- every accepted text is a spelling

  /** Groups with a colon after each. */
  function Colons(pre: seq<Item>): string
  {
    if pre == [] then "" else pre[0].Text() + ":" + Colons(pre[1..])
  }

  /** What the scan sees of a spelling: of a leading "::" only the second colon is left. */
  function Scanning(t: Spelling): string { if t.gap then Colons(t.pre) + ":" + t.End() else t.End() }

  ghost predicate Explains(t: Spelling, out: seq<Octet>, c: Option<nat>, text: string, r: Scanned)
  {
    && t.WellFormed() && (t.gap ==> c.None?) && Scanning(t) == text
    && |out| + t.Size() <= 16
    && r == Scanned(out + BytesOf(t.pre) + BytesOf(t.post), if t.gap then Some(|out| + |BytesOf(t.pre)|) else c)
  }

  lemma {:induction false} TailCons(g: Item, items: seq<Item>)
    requires g.Valid() && g.Group? && ValidTail(items)
    ensures ValidTail([g] + items) && BytesOf([g] + items) == g.Bytes() + BytesOf(items)
    ensures items != [] ==> Join([g] + items) == g.Text() + ":" + Join(items)
    ensures AllGroups(items) ==> AllGroups([g] + items)
  {
    var all := [g] + items;
    assert all[1..] == items;
    if items != [] {
      assert all[..|all| - 1] == [g] + items[..|items| - 1];
    }
  }

  lemma {:induction false} GroupsCons(g: Item, pre: seq<Item>)
    requires g.Valid() && g.Group? && ValidItems(pre) && AllGroups(pre)
    ensures ValidItems([g] + pre) && AllGroups([g] + pre)
    ensures BytesOf([g] + pre) == g.Bytes() + BytesOf(pre) && Colons([g] + pre) == g.Text() + ":" + Colons(pre)
  {
    assert ([g] + pre)[1..] == pre;
  }

  /** A group and a colon in front of what is left, when a "::" is still to come. */
  lemma {:induction false} PrependToGap(t: Spelling, out: seq<Octet>, c: Option<nat>, h: string, text: string, r: Scanned)
    returns (t': Spelling)
    requires Group(h).Valid() && |out| + 2 <= 16 && t.gap
    requires Explains(t, out + WordBytes(HexValue(h)), c, text, r)
    ensures Explains(t', out, c, h + ":" + text, r)
  {
    hide Join, BytesOf, Colons, HexValue, ValidItems, AllGroups, ValidTail;
    var g := Group(h);
    GroupsCons(g, t.pre);
    t' := t.(pre := [g] + t.pre);
    assert out + g.Bytes() + BytesOf(t.pre) == out + (g.Bytes() + BytesOf(t.pre));
    assert h + ":" + (Colons(t.pre) + ":" + t.End()) == (h + ":" + Colons(t.pre)) + ":" + t.End();
  }

  /** The same when there is none. */
  lemma {:induction false} PrependToItems(t: Spelling, out: seq<Octet>, c: Option<nat>, h: string, text: string, r: Scanned)
    returns (t': Spelling)
    requires Group(h).Valid() && |out| + 2 <= 16 && !t.gap
    requires Explains(t, out + WordBytes(HexValue(h)), c, text, r)
    ensures Explains(t', out, c, h + ":" + text, r)
  {
    var g := Group(h);
    NoItems(g);
    hide Join, BytesOf, Colons, HexValue, ValidItems, AllGroups;
    TailCons(g, t.post);
    t' := Spelling([], false, [g] + t.post, t.post == [] || t.colon);
    var b := BytesOf(t.post);
    assert out + g.Bytes() + [] + b == out + [] + (g.Bytes() + b);
    if t.post == [] {
      assert [g] + t.post == [g] && h + ":" + ("" + "") == h + ":";
    } else {
      assert h + ":" + t.End() == (h + ":" + Join(t.post)) + if t.colon then ":" else "";
    }
  }

  lemma {:induction false} NoItems(g: Item)
    ensures BytesOf([]) == [] && Join([]) == "" && Join([g]) == g.Text()
    ensures ValidItems([]) && AllGroups([]) && (g.Group? ==> AllGroups([g]))
  {
  }

  lemma {:induction false} SecondColon(t: Spelling, out: seq<Octet>, text: string, r: Scanned) returns (t': Spelling)
    requires Explains(t, out, Some(|out|), text, r)
    ensures Explains(t', out, None, ":" + text, r)
  {
    t' := Spelling([], true, t.post, t.colon);
    assert "" + ":" + t.End() == ":" + t.End();
  }

  lemma {:induction false} LastItem(out: seq<Octet>, c: Option<nat>, item: Item) returns (t: Spelling)
    requires item.Valid() && |out| + |item.Bytes()| <= 16
    ensures Explains(t, out, c, item.Text(), Scanned(out + item.Bytes(), c))
  {
    t := Spelling([], false, [item], false);
    assert BytesOf([item]) == item.Bytes() + [] == item.Bytes();
    assert out + [] + item.Bytes() == out + item.Bytes();
    assert item.Text() + "" == item.Text();
  }

  lemma {:induction false} TakeApart(out: seq<Octet>, c: Option<nat>, token: string, rest: string) returns (t: Spelling)
    requires AllHex(token) && HexValue(token) <= 0xffff && |out| <= 16
    requires Scan(out, c, token, rest).Some?
    ensures Explains(t, out, c, token + rest, Scan(out, c, token, rest).value)
    decreases |rest|
  {
    hide Explains, IsDottedQuad, QuadBytes, HexDigit;
    if rest == "" {
      assert token + rest == token;
      if token == "" {
        t := NothingLeft(out, c);
      } else {
        t := LastItem(out, c, Group(token));
      }
    } else {
      var ch := rest[0];
      assert rest == [ch] + rest[1..];
      if IsHex(ch) {
        t := TakeApart(out, c, token + [ch], rest[1..]);
        assert (token + [ch]) + rest[1..] == token + rest;
      } else if ch == ':' {
        if token == "" {
          t := TakeApart(out, Some(|out|), "", rest[1..]);
          assert "" + rest[1..] == rest[1..] && token + rest == ":" + rest[1..];
          t := SecondColon(t, out, rest[1..], Scan(out, c, token, rest).value);
        } else {
          var out' := out + WordBytes(HexValue(token));
          t := TakeApart(out', c, "", rest[1..]);
          assert "" + rest[1..] == rest[1..] && token + rest == token + ":" + rest[1..];
          var r := Scan(out, c, token, rest).value;
          if t.gap {
            t := PrependToGap(t, out, c, token, rest[1..], r);
          } else {
            t := PrependToItems(t, out, c, token, rest[1..], r);
          }
        }
      } else {
        t := LastItem(out, c, Quad(token + rest));
      }
    }
  }

  lemma {:induction false} NothingLeft(out: seq<Octet>, c: Option<nat>) returns (t: Spelling)
    ensures |out| <= 16 ==> Explains(t, out, c, "", Scanned(out, c))
  {
    t := Spelling([], false, [], false);
    assert out + [] + [] == out;
  }

  lemma {:induction false} ColonsAreJoined(pre: seq<Item>)
    requires pre != []
    ensures Colons(pre) + ":" == Join(pre) + "::"
    decreases |pre|
  {
    if |pre| == 1 {
      assert Colons(pre[1..]) == "";
    } else {
      ColonsAreJoined(pre[1..]);
      assert Colons(pre) + ":" == pre[0].Text() + ":" + (Colons(pre[1..]) + ":");
    }
  }

  /** Only a spelling with nothing in front of its "::" is scanned from a colon on. */
  lemma {:induction false} FirstColon(t: Spelling)
    requires t.WellFormed()
    ensures Scanning(t) == "" <==> !t.gap && t.post == []
    ensures Scanning(t) != "" ==> (Scanning(t)[0] == ':' <==> t.gap && t.pre == [])
  {
    if t.gap {
      if t.pre != [] {
        assert Scanning(t)[0] == t.pre[0].hex[0];
      }
    } else if t.post != [] {
      JoinStart(t.post);
    }
  }

  lemma {:induction false} ParsesOnlySpellings(src: string) returns (t: Spelling)
    requires Parse(src).Some?
    ensures t.Valid() && t.Text() == src && Parse(src) == Some(t.Address())
  {
    hide Scan, Join, Colons, BytesOf, Expand;
    var s := SkipLeadingColon(src).value;
    t := TakeApart([], None, "", s);
    Starts(t, s);
    FirstColon(t);
    if t.gap {
      if t.pre == [] {
        NoGroups();
        LeadingColons(t.End(), src);
      } else {
        ColonsAreJoined(t.pre);
      }
    }
  }

  /** What the scan of a whole text says about it. */
  lemma {:induction false} Starts(t: Spelling, s: string)
    requires Scan([], None, "", s).Some? && Explains(t, [], None, "" + s, Scan([], None, "", s).value)
    ensures t.WellFormed() && Scanning(t) == s && t.Size() <= 16
    ensures var r := Scan([], None, "", s).value;
            if t.gap then r == Scanned(BytesOf(t.pre) + BytesOf(t.post), Some(|BytesOf(t.pre)|))
            else r == Scanned(BytesOf(t.post), None) && |BytesOf(t.pre)| == 0
  {
    hide Scan, Join, Colons, HexValue;
    assert "" + s == s && [] + BytesOf(t.pre) + BytesOf(t.post) == BytesOf(t.pre) + BytesOf(t.post);
    if !t.gap {
      assert [] + BytesOf(t.post) == BytesOf(t.post);
    }
  }

  lemma {:induction false} LeadingColons(end: string, src: string)
    requires SkipLeadingColon(src) == Some("" + ":" + end)
    ensures src == "" + "::" + end
  {
    assert ("" + ":" + end)[0] == ':';
    assert src == [src[0]] + src[1..];
  }

  lemma {:induction false} NoGroups()
    ensures Colons([]) == "" && Join([]) == ""
  {
  }

  /** inet_pton6 accepts exactly the spellings, each as the address it stands for. */
  lemma {:induction false} AcceptsExactly(src: string, a: seq<Octet>)
    ensures Parse(src) == Some(a) <==> exists t: Spelling :: t.Valid() && t.Text() == src && t.Address() == a
  {
    hide Parse, Spelling.Valid, Spelling.Text, Spelling.Address;
    if Parse(src) == Some(a) {
      var t := ParsesOnlySpellings(src);
    }
    forall t: Spelling | t.Valid() && t.Text() == src && t.Address() == a
      ensures Parse(src) == Some(a)
    {
      SpellingParses(t);
    }
  }

  lemma {:induction false} GroupBytes(items: seq<Item>)
    requires ValidItems(items) && AllGroups(items)
    ensures |BytesOf(items)| == 2 * |items|
    decreases |items|
  {
    if items != [] {
      GroupBytes(items[1..]);
    }
  }

  const ONE := Group("1")

  lemma {:induction false} OneIsOne()
    ensures ONE.Valid() && BytesOf([ONE]) == [0, 1] && Join([ONE]) == "1"
  {
    assert "1"[..0] == "";
    assert HexValue("1") == 16 * HexValue("") + 1;
    assert [0, 1] + BytesOf([]) == [0, 1];
  }

  /** Seven groups "1" before the "::" and one after it: the last one is lost. */
  lemma {:induction false} FullAddressLosesTail()
    ensures var pre := seq(7, _ => ONE);
            ValidItems(pre) && Parse(Join(pre) + "::" + "1") == Some(BytesOf(pre) + [0, 0])
  {
    hide Parse, Join, HexValue;
    var pre, post := seq(7, _ => ONE), [ONE];
    OneIsOne();
    GroupBytes(pre);
    ParseGap(pre, post);
    hide BytesOf;
    var a := BytesOf(pre);
    assert (a + [0, 1])[..14] == a && Zeros(2) == [0, 0];
  }
}
