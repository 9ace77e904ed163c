/** What inet_ntop6 prints, said on the bytes and the text alone. */
module Ipv6Text {
  import opened Basics
  import opened Numerals
  import opened Ntop

  /** The ten zero bytes and two 255s of an IPv4-mapped address. */
  predicate IsMapped(src: seq<Octet>)
    requires |src| == 16
  {
    src[..10] == Zeros(10) && src[10..12] == [255, 255]
  }

  /** Twelve zero bytes before an IPv4 address that does not itself begin with two. */
  predicate IsCompatible(src: seq<Octet>)
    requires |src| == 16
  {
    src[..12] == Zeros(12) && src[12..14] != [0, 0]
  }

  /** The two kinds of address, said on words. */
  lemma {:induction false} KindsOfWords(src: seq<Octet>)
    requires |src| == 16
    ensures var w := Words(src);
            && (IsMapped(src) <==> w[0] == w[1] == w[2] == w[3] == w[4] == 0 && w[5] == 0xffff)
            && (IsCompatible(src) <==> w[0] == w[1] == w[2] == w[3] == w[4] == w[5] == 0 && w[6] != 0)
  {
    hide Words, Word, Zeros;
    ZeroWords(src, 5);
    ZeroWords(src, 6);
    WordAt(src, 5);
    WordAt(src, 6);
    WordMeans(src[10], src[11]);
    WordMeans(src[12], src[13]);
    assert src[10..12] == [src[10], src[11]] && src[12..14] == [src[12], src[13]];
  }

  lemma {:induction false} WordAt(src: seq<Octet>, i: nat)
    requires |src| == 16 && i < 8
    ensures Words(src)[i] == Word(src[2 * i], src[2 * i + 1])
  {
  }

  lemma {:induction false} WordMeans(hi: Octet, lo: Octet)
    ensures Word(hi, lo) == 0 <==> hi == lo == 0
    ensures Word(hi, lo) == 0xffff <==> hi == lo == 255
  {
  }

  lemma {:induction false} ZeroWords(src: seq<Octet>, n: nat)
    requires |src| == 16 && n <= 8
    ensures src[..2 * n] == Zeros(2 * n) <==> forall i :: 0 <= i < n ==> Words(src)[i] == 0
    decreases n
  {
    hide Words, Word, Zeros;
    if n == 0 {
      assert src[..0] == Zeros(0);
    } else {
      var m := n - 1;
      ZeroWords(src, m);
      WordAt(src, m);
      WordMeans(src[2 * m], src[2 * m + 1]);
      assert src[..2 * n] == src[..2 * m] + [src[2 * m], src[2 * m + 1]];
      assert Zeros(2 * n) == Zeros(2 * m) + [0, 0];
      LastTwo(src[..2 * m], Zeros(2 * m), src[2 * m], src[2 * m + 1]);
    }
  }

  lemma {:induction false} LastTwo(a: seq<Octet>, z: seq<Octet>, x: Octet, y: Octet)
    requires |a| == |z|
    ensures a + [x, y] == z + [0, 0] <==> a == z && x == y == 0
  {
    assert (a + [x, y])[..|a|] == a && (z + [0, 0])[..|a|] == z;
    assert (a + [x, y])[|a|] == x && (a + [x, y])[|a| + 1] == y;
    assert (z + [0, 0])[|a|] == 0 && (z + [0, 0])[|a| + 1] == 0;
  }

  lemma {:induction false} MappedRun(w: seq<nat>)
    requires |w| == 8 && w[0] == w[1] == w[2] == w[3] == w[4] == 0 && w[5] == 0xffff
    ensures BestRun(w) == Some(Run(0, 5))
  {
    BestRunIsLongestLeftmost(w, Run(0, 5));
    hide BestRun;
  }

  lemma {:induction false} CompatibleRun(w: seq<nat>)
    requires |w| == 8 && w[0] == w[1] == w[2] == w[3] == w[4] == w[5] == 0 && w[6] != 0
    ensures BestRun(w) == Some(Run(0, 6))
  {
    BestRunIsLongestLeftmost(w, Run(0, 6));
    hide BestRun;
  }

  lemma {:induction false} EmbedsOnly(w: seq<nat>)
    requires |w| == 8 && EmbedsIPv4(w, BestRun(w))
    ensures w[0] == w[1] == w[2] == w[3] == w[4] == 0 && (w[5] == 0xffff || (w[5] == 0 && w[6] != 0))
  {
    var r := BestRun(w).value;
    BestRunIsLongestLeftmost(w, r);
    hide BestRun;
    assert !ZeroRun(w, 0, 7) || r.len >= 7;
  }

  lemma {:induction false} NoDot(w: seq<nat>, run: Option<Run>, n: nat)
    requires n <= |w|
    ensures '.' !in Printed(w, run, n)
  {
    if n > 0 {
      NoDot(w, run, n - 1);
    }
  }

  lemma {:induction false} AllOnes()
    ensures Hex(0xffff) == "ffff"
  {
    assert Hex(0xf) == "f";
    assert Hex(0xff) == Hex(0xf) + "f" && Hex(0xfff) == Hex(0xff) + "f" && Hex(0xffff) == Hex(0xfff) + "f";
  }

  lemma {:induction false} MappedText(w: seq<nat>)
    requires |w| == 8 && w[5] == 0xffff
    ensures Printed(w, Some(Run(0, 5)), 6) == "::ffff"
  {
    var run := Some(Run(0, 5));
    AllOnes();
    assert Printed(w, run, 1) == "" + ":" && Printed(w, run, 2) == Printed(w, run, 1);
    assert Printed(w, run, 4) == Printed(w, run, 3) == Printed(w, run, 2);
    assert Printed(w, run, 6) == Printed(w, run, 5) + ":" + Hex(w[5]);
    assert ":" + ":" + "ffff" == "::ffff";
  }

  lemma {:induction false} CompatibleText(w: seq<nat>)
    requires |w| == 8
    ensures Printed(w, Some(Run(0, 6)), 6) == ":"
  {
    var run := Some(Run(0, 6));
    assert Printed(w, run, 1) == "" + ":" && Printed(w, run, 2) == Printed(w, run, 1);
    assert Printed(w, run, 4) == Printed(w, run, 3) == Printed(w, run, 2);
    assert Printed(w, run, 6) == Printed(w, run, 5) == Printed(w, run, 4);
  }

  /** A dotted quad is printed for IPv4-mapped and IPv4-compatible addresses and for no others, and
      then the text is the prefix that says which, followed by the quad. */
  lemma {:induction false} DottedExactly(src: seq<Octet>)
    requires |src| == 16
    ensures '.' in Presentation(src) <==> IsMapped(src) || IsCompatible(src)
    ensures IsMapped(src) ==> Presentation(src) == "::ffff:" + QuadText(src[12..])
    ensures IsCompatible(src) ==> Presentation(src) == "::" + QuadText(src[12..])
  {
    hide BestRun, Printed, QuadText, Words;
    var w, q := Words(src), QuadText(src[12..]);
    KindsOfWords(src);
    QuadHasDot(src[12..]);
    if IsMapped(src) {
      MappedRun(w);
      MappedText(w);
      assert "::ffff" + ":" + q == "::ffff:" + q;
      assert '.' in ("::ffff:" + q)[7..];
    } else if IsCompatible(src) {
      CompatibleRun(w);
      CompatibleText(w);
      assert ":" + ":" + q == "::" + q;
      assert '.' in ("::" + q)[2..];
    } else {
      if EmbedsIPv4(w, BestRun(w)) {
        EmbedsOnly(w);
      }
      NoDot(w, BestRun(w), 8);
    }
  }

  lemma {:induction false} QuadHasDot(b: seq<Octet>)
    requires |b| == 4
    ensures '.' in QuadText(b)
  {
    assert QuadText(b)[|Dec(b[0])|] == '.';
  }

  const ALPHABET := LOWER + ":."

  ghost predicate OverAlphabet(t: string) { forall i :: 0 <= i < |t| ==> t[i] in ALPHABET }

  lemma {:induction false} HexOverAlphabet(n: nat)
    ensures OverAlphabet(Hex(n))
  {
    HexIsLower(n);
  }

  lemma {:induction false} PrintedOverAlphabet(w: seq<nat>, run: Option<Run>, n: nat)
    requires n <= |w|
    ensures OverAlphabet(Printed(w, run, n))
  {
    if n > 0 {
      PrintedOverAlphabet(w, run, n - 1);
      HexOverAlphabet(w[n - 1]);
      hide Hex;
      assert ':' == ALPHABET[16];
    }
  }

  lemma {:induction false} QuadOverAlphabet(b: seq<Octet>)
    requires |b| == 4
    ensures OverAlphabet(QuadText(b))
  {
    forall i | 0 <= i < |QuadText(b)| ensures QuadText(b)[i] in ALPHABET {
      var c := QuadText(b)[i];
      if c == '.' {
        assert c == ALPHABET[17];
      } else {
        assert IsDec(c);
        DigitTables(c);
        assert c == ALPHABET[DecDigit(c)];
      }
    }
  }

  /** Digits and lower-case letters, colons and dots. */
  lemma {:induction false} PrintsLowerCase(src: seq<Octet>)
    requires |src| == 16
    ensures OverAlphabet(Presentation(src))
  {
    hide BestRun, Printed, QuadText, Words;
    var w := Words(src);
    var run := BestRun(w);
    PrintedOverAlphabet(w, run, 6);
    PrintedOverAlphabet(w, run, 8);
    QuadOverAlphabet(src[12..]);
    assert ':' == ALPHABET[16];
  }
}
