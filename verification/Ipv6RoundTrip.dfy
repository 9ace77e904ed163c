/** inet_ntop6 prints the canonical text of every address, and inet_pton6 reads it back. */
module Ipv6RoundTrip {
  import opened Basics
  import opened Numerals
  import opened Pton4
  import opened Pton6
  import opened Ntop
  import opened Ipv6Forms

  // ---- dotted quads

  lemma {:induction false} SplitNoDot(s: string, t: string)
    requires '.' !in t
    ensures var parts := Split(s);
            Split(s + t) == parts[..|parts| - 1] + [parts[|parts| - 1] + t]
    decreases |t|
  {
    if t == "" {
      assert s + t == s;
      assert Split(s)[|Split(s)| - 1] + t == Split(s)[|Split(s)| - 1];
    } else {
      var init, c := t[..|t| - 1], t[|t| - 1];
      assert (s + t)[..|s + t| - 1] == s + init;
      SplitNoDot(s, init);
      assert c in t;
      var p := Split(s)[|Split(s)| - 1];
      assert p + t == (p + init) + [c];
    }
  }

  lemma {:induction false} SplitDot(s: string, t: string)
    requires '.' !in t
    ensures Split(s + "." + t) == Split(s) + [t]
  {
    assert (s + ".")[..|s|] == s;
    SplitNoDot(s + ".", t);
    assert "" + t == t;
  }

  lemma {:induction false} DecHasNoDot(n: nat)
    ensures '.' !in Dec(n)
  {
  }

  lemma {:induction false} SplitFour(a: string, b: string, c: string, d: string)
    requires '.' !in a && '.' !in b && '.' !in c && '.' !in d
    ensures Split(a + "." + b + "." + c + "." + d) == [a, b, c, d]
  {
    SplitNoDot("", a);
    assert "" + a == a;
    SplitDot(a, b);
    SplitDot(a + "." + b, c);
    SplitDot(a + "." + b + "." + c, d);
  }

  /** inet_pton4 undoes inet_ntop4. */
  lemma {:induction false} QuadRoundTrip(b: seq<Octet>)
    requires |b| == 4
    ensures IsDottedQuad(QuadText(b)) && QuadBytes(QuadText(b)) == b
  {
    DecHasNoDot(b[0]);
    DecHasNoDot(b[1]);
    DecHasNoDot(b[2]);
    DecHasNoDot(b[3]);
    SplitFour(Dec(b[0]), Dec(b[1]), Dec(b[2]), Dec(b[3]));
  }

  // ---- the printed groups

  /** Words `lo` to `hi` in lower-case hexadecimal without leading zeros. */
  function HexItems(w: seq<nat>, lo: nat, hi: nat): (items: seq<Item>)
    requires lo <= hi <= |w|
    ensures |items| == hi - lo
    decreases hi - lo
  {
    if lo == hi then [] else [Group(Hex(w[lo]))] + HexItems(w, lo + 1, hi)
  }

  lemma {:induction false} HexGroup(n: nat)
    requires n <= 0xffff
    ensures Group(Hex(n)).Valid() && Group(Hex(n)).Bytes() == WordBytes(n)
  {
  }

  lemma {:induction false} HexItemsValid(w: seq<nat>, lo: nat, hi: nat)
    requires lo <= hi <= |w| && AllWords(w)
    ensures AllGroups(HexItems(w, lo, hi)) && ValidItems(HexItems(w, lo, hi))
    decreases hi - lo
  {
    hide Hex;
    if lo < hi {
      HexItemsValid(w, lo + 1, hi);
      HexGroup(w[lo]);
      assert HexItems(w, lo, hi) == [Group(Hex(w[lo]))] + HexItems(w, lo + 1, hi);
    }
  }

  lemma {:induction false} JoinSnoc(items: seq<Item>, last: Item)
    ensures Join(items + [last]) == if items == [] then last.Text() else Join(items) + ":" + last.Text()
    decreases |items|
  {
    if |items| > 1 {
      assert (items + [last])[1..] == items[1..] + [last];
      JoinSnoc(items[1..], last);
      var h, j, l := items[0].Text(), Join(items[1..]), last.Text();
      assert h + ":" + (j + ":" + l) == (h + ":" + j) + ":" + l;
    }
  }

  lemma {:induction false} HexItemsSnoc(w: seq<nat>, lo: nat, hi: nat)
    requires lo <= hi < |w|
    ensures HexItems(w, lo, hi + 1) == HexItems(w, lo, hi) + [Group(Hex(w[hi]))]
    decreases hi - lo
  {
    hide Hex;
    if lo < hi {
      HexItemsSnoc(w, lo + 1, hi);
    }
  }

  /** Words `lo` to `hi` as text, in the order the loop appends them. */
  function HexText(w: seq<nat>, lo: nat, hi: nat): string
    requires lo <= hi <= |w|
  {
    if lo == hi then ""
    else if lo == hi - 1 then Hex(w[lo])
    else HexText(w, lo, hi - 1) + ":" + Hex(w[hi - 1])
  }

  lemma {:induction false} JoinSnocGroup(items: seq<Item>, all: seq<Item>, h: string, t: string)
    requires all == items + [Group(h)] && t == Join(items)
    ensures Join(all) == if items == [] then h else t + ":" + h
  {
    JoinSnoc(items, Group(h));
  }

  lemma {:induction false} HexTextIsJoin(w: seq<nat>, lo: nat, hi: nat)
    requires lo <= hi <= |w|
    ensures HexText(w, lo, hi) == Join(HexItems(w, lo, hi))
    decreases hi
  {
    hide Hex;
    if lo < hi {
      HexTextIsJoin(w, lo, hi - 1);
      HexItemsSnoc(w, lo, hi - 1);
      JoinSnocGroup(HexItems(w, lo, hi - 1), HexItems(w, lo, hi), Hex(w[hi - 1]), HexText(w, lo, hi - 1));
    }
  }

  lemma {:induction false} PrintedBefore(w: seq<nat>, run: Option<Run>, n: nat)
    requires n <= |w| && (run.Some? ==> n <= run.value.base)
    ensures Printed(w, run, n) == HexText(w, 0, n)
  {
    hide Hex;
    if n > 0 {
      PrintedBefore(w, run, n - 1);
    }
  }

  lemma {:induction false} AppendAfterGap(pre: string, mid: string, last: string)
    ensures (pre + "::" + mid) + ":" + last == pre + "::" + (mid + ":" + last)
    ensures (pre + ":") + ":" + last == pre + "::" + last
  {
  }

  lemma {:induction false} AfterGap(t: string, pre: string, mid: string, last: string, first: bool)
    requires t == if first then pre + ":" else pre + "::" + mid
    ensures t + ":" + last == pre + "::" + if first then last else mid + ":" + last
  {
  }

  lemma {:induction false} PrintedAfter(w: seq<nat>, run: Run, n: nat)
    requires run.len >= 1 && run.base + run.len < n <= |w|
    ensures Printed(w, Some(run), n)
         == HexText(w, 0, run.base) + "::" + HexText(w, run.base + run.len, n)
  {
    hide Hex;
    var e := run.base + run.len;
    if n - 1 == e {
      PrintedInRun(w, run, e);
      PrintedBefore(w, Some(run), run.base);
    } else {
      PrintedAfter(w, run, n - 1);
    }
    AfterGap(Printed(w, Some(run), n - 1), HexText(w, 0, run.base), HexText(w, e, n - 1), Hex(w[n - 1]), n - 1 == e);
  }

  // ---- the canonical form

  /** The groups before the "::" and the items after it; without one, all is in `pre`. */
  datatype Form = Form(pre: seq<Item>, gap: bool, post: seq<Item>) {
    function Text(): string
    {
      if gap then Join(pre) + "::" + Join(post) else Join(pre)
    }
  }

  /** Section 2.2 of RFC 4291 with the rules of section 4.2 of RFC 5952: the leftmost longest
      run of at least two zero words is replaced, the rest is printed in full, and
      IPv4-compatible and IPv4-mapped addresses end in a dotted quad. */
  function CanonicalOf(src: seq<Octet>, w: seq<nat>, run: Option<Run>): (f: Form)
    requires |src| == 16 && |w| == 8 && (run.Some? ==> run.value.base + run.value.len <= 8)
  {
    if run.None? then Form(HexItems(w, 0, 8), false, [])
    else
      var e := run.value.base + run.value.len;
      var post := if EmbedsIPv4(w, run) then HexItems(w, e, 6) + [Quad(QuadText(src[12..]))]
                  else HexItems(w, e, 8);
      Form(HexItems(w, 0, run.value.base), true, post)
  }

  lemma {:induction false} PresentationIsCanonical(src: seq<Octet>, w: seq<nat>, run: Option<Run>)
    requires |src| == 16 && |w| == 8
    requires run.Some? ==> run.value.len >= 1 && run.value.base + run.value.len <= 8
    ensures PresentationOf(src, w, run) == CanonicalOf(src, w, run).Text()
  {
    if run.None? {
      PrintedBefore(w, run, 8);
      HexTextIsJoin(w, 0, 8);
    } else if EmbedsIPv4(w, run) {
      EmbeddedText(w, run.value, QuadText(src[12..]));
    } else {
      GapText(w, run.value);
    }
  }

  lemma {:induction false} GapText(w: seq<nat>, run: Run)
    requires |w| == 8 && run.len >= 1 && run.base + run.len <= 8
    ensures Printed(w, Some(run), 8) + (if run.base + run.len == 8 then ":" else "")
         == Join(HexItems(w, 0, run.base)) + "::" + Join(HexItems(w, run.base + run.len, 8))
  {
    HexTextIsJoin(w, 0, run.base);
    HexTextIsJoin(w, run.base + run.len, 8);
    if run.base + run.len == 8 {
      PrintedInRun(w, run, 8);
      PrintedBefore(w, Some(run), run.base);
      AppendAfterGap(HexText(w, 0, run.base), "", "");
    } else {
      PrintedAfter(w, run, 8);
    }
  }

  lemma {:induction false} EmbeddedText(w: seq<nat>, run: Run, q: string)
    requires |w| == 8 && run.base == 0 && 5 <= run.len <= 6
    ensures Printed(w, Some(run), 6) + ":" + q
         == Join(HexItems(w, 0, 0)) + "::" + Join(HexItems(w, run.len, 6) + [Quad(q)])
  {
    HexTextIsJoin(w, 0, 0);
    HexTextIsJoin(w, run.len, 6);
    JoinSnoc(HexItems(w, run.len, 6), Quad(q));
    AppendAfterGap(HexText(w, 0, 0), HexText(w, run.len, 6), q);
    if run.len == 6 {
      PrintedInRun(w, run, 6);
      PrintedBefore(w, Some(run), 0);
    } else {
      PrintedAfter(w, run, 6);
    }
  }

  lemma {:induction false} BytesOfAppend(a: seq<Item>, b: seq<Item>)
    requires ValidItems(a) && ValidItems(b)
    ensures ValidItems(a + b) && BytesOf(a + b) == BytesOf(a) + BytesOf(b)
    decreases |a|
  {
    if a == [] {
      assert a + b == b;
    } else {
      assert (a + b)[1..] == a[1..] + b;
      BytesOfAppend(a[1..], b);
    }
  }

  /** `w` holds the words of `src`; said without naming how they are packed. */
  ghost predicate Packs(w: seq<nat>, src: seq<Octet>)
  {
    |src| == 16 && |w| == 8 && AllWords(w) && forall i :: 0 <= i < 8 ==> WordBytes(w[i]) == src[2 * i..2 * i + 2]
  }

  lemma {:induction false} WordsPack(src: seq<Octet>)
    requires |src| == 16
    ensures Packs(Words(src), src)
  {
    forall i | 0 <= i < 8 ensures WordBytes(Words(src)[i]) == src[2 * i..2 * i + 2] {
      WordOfBytes(src[2 * i], src[2 * i + 1]);
    }
  }

  lemma {:induction false} WordOfBytes(hi: Octet, lo: Octet)
    ensures WordBytes(Word(hi, lo)) == [hi, lo]
  {
  }

  lemma {:induction false} ConsBytes(first: Item, rest: seq<Item>, a: seq<Octet>, b: seq<Octet>)
    requires first.Valid() && first.Bytes() == a
    requires ValidItems(rest) && BytesOf(rest) == b
    ensures ValidItems([first] + rest) && BytesOf([first] + rest) == a + b
  {
  }

  lemma {:induction false} SliceCons(src: seq<Octet>, i: nat, j: nat, k: nat)
    requires i <= j <= k <= |src|
    ensures src[i..j] + src[j..k] == src[i..k]
  {
  }

  lemma {:induction false} HexItemsBytes(w: seq<nat>, src: seq<Octet>, lo: nat, hi: nat)
    requires Packs(w, src) && lo <= hi <= 8
    ensures AllGroups(HexItems(w, lo, hi)) && ValidItems(HexItems(w, lo, hi))
    ensures BytesOf(HexItems(w, lo, hi)) == src[2 * lo..2 * hi]
    decreases hi - lo
  {
    hide Hex;
    HexItemsValid(w, lo, hi);
    if lo < hi {
      HexItemsBytes(w, src, lo + 1, hi);
      HexGroup(w[lo]);
      ConsBytes(Group(Hex(w[lo])), HexItems(w, lo + 1, hi), src[2 * lo..2 * lo + 2], src[2 * (lo + 1)..2 * hi]);
      SliceCons(src, 2 * lo, 2 * lo + 2, 2 * hi);
    }
  }

  lemma {:induction false} QuadItem(b: seq<Octet>)
    requires |b| == 4
    ensures var q := Quad(QuadText(b)); ValidItems([q]) && BytesOf([q]) == b
  {
    QuadRoundTrip(b);
    var q := Quad(QuadText(b));
    assert BytesOf([q]) == q.Bytes() + BytesOf([q][1..]);
  }

  /** A list of groups that ends in a dotted quad. */
  lemma {:induction false} QuadTailBytes(w: seq<nat>, src: seq<Octet>, e: nat)
    requires Packs(w, src) && e <= 6
    ensures var post := HexItems(w, e, 6) + [Quad(QuadText(src[12..]))];
            ValidTail(post) && BytesOf(post) == src[2 * e..]
  {
    hide HexItems, BytesOf, QuadText;
    var groups := HexItems(w, e, 6);
    HexItemsBytes(w, src, e, 6);
    QuadItem(src[12..]);
    AppendTail(groups, Quad(QuadText(src[12..])));
    SliceCons(src, 2 * e, 12, 16);
    assert src[12..16] == src[12..] && src[2 * e..16] == src[2 * e..];
  }

  lemma {:induction false} AppendTail(groups: seq<Item>, last: Item)
    requires ValidItems(groups) && AllGroups(groups) && ValidItems([last])
    ensures ValidTail(groups + [last]) && BytesOf(groups + [last]) == BytesOf(groups) + BytesOf([last])
  {
    BytesOfAppend(groups, [last]);
    assert (groups + [last])[..|groups|] == groups;
  }

  lemma {:induction false} RunBytes(w: seq<nat>, src: seq<Octet>, b: nat, l: nat)
    requires Packs(w, src) && ZeroRun(w, b, l)
    ensures src == src[2 * 0..2 * b] + Zeros(2 * l) + src[2 * (b + l)..]
  {
    forall k | b <= k < b + l ensures src[2 * k] == 0 && src[2 * k + 1] == 0 {
      assert src[2 * k..2 * k + 2] == WordBytes(w[k]) == [0, 0];
      assert src[2 * k] == src[2 * k..2 * k + 2][0] && src[2 * k + 1] == src[2 * k..2 * k + 2][1];
    }
    assert src[2 * b..2 * (b + l)] == Zeros(2 * l) by {
      forall i | 2 * b <= i < 2 * (b + l) ensures src[i] == 0 {
        assert i == 2 * (i / 2) || i == 2 * (i / 2) + 1;
      }
    }
    assert src == src[..2 * b] + src[2 * b..2 * (b + l)] + src[2 * (b + l)..];
  }

  /** The form is valid and its bytes, with zeros in the gap, are the address; and the gap
      is at least two words. */
  ghost predicate Denotes(f: Form, src: seq<Octet>)
  {
    && ValidItems(f.pre) && AllGroups(f.pre) && ValidTail(f.post)
    && var a, b := BytesOf(f.pre), BytesOf(f.post);
       if f.gap then |a| + |b| <= 12 && src == a + Zeros(16 - |a| - |b|) + b
       else |src| == 16 && src == a
  }

  lemma {:induction false} GapDenotes(pre: seq<Item>, post: seq<Item>, src: seq<Octet>, b: nat, l: nat)
    requires |src| == 16 && l >= 2 && b + l <= 8
    requires ValidItems(pre) && AllGroups(pre) && BytesOf(pre) == src[2 * 0..2 * b]
    requires ValidTail(post) && BytesOf(post) == src[2 * (b + l)..]
    requires src == src[2 * 0..2 * b] + Zeros(2 * l) + src[2 * (b + l)..]
    ensures Denotes(Form(pre, true, post), src)
  {
  }

  lemma {:induction false} FullDenotes(pre: seq<Item>, src: seq<Octet>)
    requires |src| == 16 && ValidItems(pre) && AllGroups(pre) && BytesOf(pre) == src[2 * 0..]
    ensures Denotes(Form(pre, false, []), src)
  {
  }

  lemma {:induction false} GroupTailBytes(w: seq<nat>, src: seq<Octet>, e: nat)
    requires Packs(w, src) && e <= 8
    ensures var post := HexItems(w, e, 8);
            ValidTail(post) && BytesOf(post) == src[2 * e..]
  {
    HexItemsBytes(w, src, e, 8);
    assert src[2 * e..2 * 8] == src[2 * e..];
  }

  /** Replacing the run loses nothing. */
  lemma {:induction false} CanonicalDenotes(src: seq<Octet>, w: seq<nat>, run: Option<Run>)
    requires Packs(w, src) && (run.Some? ==> ZeroRun(w, run.value.base, run.value.len) && run.value.len >= 2)
    ensures Denotes(CanonicalOf(src, w, run), src)
  {
    hide HexItems, BytesOf, QuadText, Denotes;
    if run.None? {
      GroupTailBytes(w, src, 0);
      HexItemsValid(w, 0, 8);
      FullDenotes(HexItems(w, 0, 8), src);
    } else {
      var b, l := run.value.base, run.value.len;
      if EmbedsIPv4(w, run) {
        QuadTailBytes(w, src, b + l);
      } else {
        GroupTailBytes(w, src, b + l);
      }
      HexItemsBytes(w, src, 0, b);
      RunBytes(w, src, b, l);
      GapDenotes(HexItems(w, 0, b), CanonicalOf(src, w, run).post, src, b, l);
    }
  }

  /** The parser reads any form as the address it denotes. */
  lemma {:induction false} ParsesForm(f: Form, src: seq<Octet>)
    requires Denotes(f, src)
    ensures Parse(f.Text()) == Some(src)
  {
    hide Parse;
    if f.gap {
      ParseCompressed(f.pre, f.post);
    } else {
      ParseFull(f.pre);
    }
  }

  /** The canonical form of an address. */
  function Canonical(src: seq<Octet>): (f: Form)
    requires |src| == 16
  {
    var w := Words(src);
    var run := BestRun(w);
    if run.Some? then BestRunIsLongestLeftmost(w, run.value); CanonicalOf(src, w, run)
    else CanonicalOf(src, w, run)
  }

  /** The facts about the chosen run that the text depends on. */
  lemma {:induction false} ChosenRun(src: seq<Octet>)
    requires |src| == 16
    ensures var w, run := Words(src), BestRun(Words(src));
            Packs(w, src) && (run.Some? ==> ZeroRun(w, run.value.base, run.value.len) && run.value.len >= 2)
  {
    WordsPack(src);
    var run := BestRun(Words(src));
    if run.Some? {
      BestRunIsLongestLeftmost(Words(src), run.value);
    }
  }

  /** inet_ntop6 prints the canonical form, in at most 39 characters. */
  lemma {:induction false} PrintsCanonical(src: seq<Octet>)
    requires |src| == 16
    ensures Presentation(src) == Canonical(src).Text() && |Presentation(src)| <= 39
  {
    ChosenRun(src);
    PresentationIsCanonical(src, Words(src), BestRun(Words(src)));
    PresentationLength(src, Words(src), BestRun(Words(src)));
  }

  /** The round trip: every address, printed and parsed, comes back byte for byte. */
  lemma {:induction false} RoundTrip(src: seq<Octet>)
    requires |src| == 16
    ensures Parse(Presentation(src)) == Some(src)
  {
    hide Parse, BestRun, Words, PresentationOf, CanonicalOf, Denotes;
    ChosenRun(src);
    PresentationIsCanonical(src, Words(src), BestRun(Words(src)));
    CanonicalDenotes(src, Words(src), BestRun(Words(src)));
    ParsesForm(Canonical(src), src);
  }

  /** Hence no two addresses share a text. */
  lemma {:induction false} PresentationInjective(a: seq<Octet>, b: seq<Octet>)
    requires |a| == |b| == 16 && Presentation(a) == Presentation(b)
    ensures a == b
  {
    RoundTrip(a);
    RoundTrip(b);
  }

  // ---- at most one "::"

  predicate DoubleColonAt(t: string, k: nat) { k + 1 < |t| && t[k] == ':' && t[k + 1] == ':' }

  lemma {:induction false} DottedQuadHasNoColon(q: string)
    ensures ':' in q ==> exists i :: 0 <= i < |Split(q)| && ':' in Split(q)[i]
  {
    if q != "" {
      DottedQuadHasNoColon(q[..|q| - 1]);
      var a, b := Split(q[..|q| - 1]), Split(q);
      if ':' in q[..|q| - 1] {
        var i :| 0 <= i < |a| && ':' in a[i];
        assert ':' in b[i];
      } else if ':' in q {
        assert q[|q| - 1] == ':';
        assert ':' in b[|b| - 1];
      }
    }
  }

  lemma {:induction false} ItemHasNoColon(item: Item)
    requires item.Valid()
    ensures item.Text() != "" && ':' !in item.Text()
  {
    if item.Quad? {
      DottedQuadHasNoColon(item.quad);
    }
  }

  ghost predicate NoColons(t: string)
  {
    && (forall k: nat :: !DoubleColonAt(t, k))
    && (t != "" ==> t[0] != ':' && t[|t| - 1] != ':')
  }

  /** A joined list has no "::" and no colon at either end. */
  lemma {:induction false} JoinColons(items: seq<Item>)
    requires ValidItems(items)
    ensures NoColons(Join(items)) && (items != [] ==> Join(items) != "")
    decreases |items|
  {
    if items != [] {
      var first, t := items[0].Text(), Join(items);
      ItemHasNoColon(items[0]);
      JoinColons(items[1..]);
      if |items| > 1 {
        var rest := Join(items[1..]);
        forall k: nat ensures !DoubleColonAt(t, k) {
          if k > |first| {
            assert !DoubleColonAt(rest, k - |first| - 1);
          }
        }
      }
    }
  }

  lemma {:induction false} GapIsTheOnlyDoubleColon(a: string, b: string)
    requires NoColons(a) && NoColons(b)
    ensures forall k: nat :: DoubleColonAt(a + "::" + b, k) <==> k == |a|
  {
    var t := a + "::" + b;
    forall k: nat ensures DoubleColonAt(t, k) <==> k == |a| {
      if k < |a| {
        assert !DoubleColonAt(a, k);
        assert t[k] == a[k];
      } else if k > |a| + 1 && k + 1 < |t| {
        var j := k - |a| - 2;
        assert !DoubleColonAt(b, j);
        assert t[k] == b[j] && t[k + 1] == b[j + 1];
      }
    }
  }

  lemma {:induction false} FormColons(f: Form)
    requires ValidItems(f.pre) && ValidItems(f.post)
    ensures f.gap ==> forall k: nat :: DoubleColonAt(f.Text(), k) <==> k == |Join(f.pre)|
    ensures !f.gap ==> forall k: nat :: !DoubleColonAt(f.Text(), k)
  {
    JoinColons(f.pre);
    if f.gap {
      JoinColons(f.post);
      GapIsTheOnlyDoubleColon(Join(f.pre), Join(f.post));
    }
  }

  lemma {:induction false} AtLeastTwoBytes(items: seq<Item>)
    requires ValidItems(items)
    ensures |BytesOf(items)| >= 2 * |items|
  {
    if items != [] {
      AtLeastTwoBytes(items[1..]);
    }
  }

  /** The text has a "::" exactly when some run of zero words is at least two long; then it
      has exactly one, and at most six groups stand beside it. */
  lemma {:induction false} OneDoubleColon(src: seq<Octet>)
    requires |src| == 16
    ensures var t, w, f := Presentation(src), Words(src), Canonical(src);
            && ((exists k: nat :: DoubleColonAt(t, k)) <==> exists b: nat, l: nat :: ZeroRun(w, b, l) && l >= 2)
            && (forall k: nat, k': nat :: DoubleColonAt(t, k) && DoubleColonAt(t, k') ==> k == k')
            && (f.gap ==> |f.pre| + |f.post| <= 6)
  {
    var w, f := Words(src), Canonical(src);
    var run := BestRun(w);
    ChosenRun(src);
    PrintsCanonical(src);
    CanonicalDenotes(src, w, run);
    FormColons(f);
    AtLeastTwoBytes(f.pre);
    AtLeastTwoBytes(f.post);
    BestRunIsLongestLeftmost(w, Run(0, 0));
    if f.gap {
      assert DoubleColonAt(f.Text(), |Join(f.pre)|);
    }
  }
}
