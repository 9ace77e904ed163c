/** `inet_ntop4` and `inet_ntop6` of libfree/inet_ntop.c: addresses to text. */
module Ntop {
  import opened Basics
  import opened Numerals

  /** `%u.%u.%u.%u` */
  function QuadText(b: seq<Octet>): (s: string)
    requires |b| == 4
    ensures |s| <= 15
  {
    Dec(b[0]) + "." + Dec(b[1]) + "." + Dec(b[2]) + "." + Dec(b[3])
  }

  function Word(hi: Octet, lo: Octet): (w: nat)
  {
    (hi as int) * 256 + lo as int
  }

  /** The eight 16-bit words of an address. */
  function Words(src: seq<Octet>): (w: seq<nat>)
    requires |src| == 16
    ensures |w| == 8
    ensures forall i :: 0 <= i < 8 ==> w[i] == Word(src[2 * i], src[2 * i + 1]) <= 0xffff
  {
    seq(8, i requires 0 <= i < 8 => Word(src[2 * i], src[2 * i + 1]))
  }

  datatype Run = Run(base: nat, len: nat)

  predicate ZeroRun(w: seq<nat>, b: nat, l: nat)
  {
    l >= 1 && b + l <= |w| && forall i :: b <= i < b + l ==> w[i] == 0
  }

  /** The leftmost of the longest runs of zero words. */
  ghost predicate IsLongestLeftmost(w: seq<nat>, r: Run)
  {
    && ZeroRun(w, r.base, r.len)
    && forall b: nat, l: nat :: ZeroRun(w, b, l) ==> l < r.len || (l == r.len && r.base <= b)
  }

  function Better(best: Option<Run>, cur: Option<Run>): Option<Run>
  {
    if cur.Some? && (best.None? || cur.value.len > best.value.len) then cur else best
  }

  datatype Search = Search(best: Option<Run>, cur: Option<Run>)

  /** `best` and `cur` after the first `n` words. */
  function Searched(w: seq<nat>, n: nat): (s: Search)
    requires n <= |w|
  {
    if n == 0 then Search(None, None)
    else
      var s := Searched(w, n - 1);
      if w[n - 1] == 0 then
        Search(s.best, Some(if s.cur.None? then Run(n - 1, 1) else Run(s.cur.value.base, s.cur.value.len + 1)))
      else
        Search(Better(s.best, s.cur), None)
  }

  /** `cur` is the run the prefix ends in; `best` beats every run that ends before it. */
  ghost predicate SearchInvariant(w: seq<nat>, n: nat, s: Search)
    requires n <= |w|
  {
    && (s.cur.Some? ==>
          var c := s.cur.value;
          ZeroRun(w, c.base, c.len) && c.base + c.len == n && (c.base > 0 ==> w[c.base - 1] != 0))
    && (s.cur.None? && n > 0 ==> w[n - 1] != 0)
    && (s.best.Some? ==> ZeroRun(w, s.best.value.base, s.best.value.len))
    && (s.best.Some? ==>
          s.best.value.base + s.best.value.len <= if s.cur.Some? then s.cur.value.base else n)
    && (forall b: nat, l: nat :: ZeroRun(w, b, l) && b + l <= n ==>
          || (s.cur.Some? && s.cur.value.base <= b)
          || (s.best.Some? && (l < s.best.value.len || (l == s.best.value.len && s.best.value.base <= b))))
  }

  lemma {:induction false} SearchedInvariant(w: seq<nat>, n: nat)
    requires n <= |w|
    ensures SearchInvariant(w, n, Searched(w, n))
  {
    if n > 0 {
      SearchedInvariant(w, n - 1);
      var s, s' := Searched(w, n - 1), Searched(w, n);
      forall b: nat, l: nat | ZeroRun(w, b, l) && b + l <= n
        ensures || (s'.cur.Some? && s'.cur.value.base <= b)
                || (s'.best.Some? && (l < s'.best.value.len || (l == s'.best.value.len && s'.best.value.base <= b)))
      {
      }
    }
  }

  /** The run that `::` replaces: the final comparison, and the minimum of two words. */
  function BestRun(w: seq<nat>): (r: Option<Run>)
  {
    var s := Searched(w, |w|);
    var best := Better(s.best, s.cur);
    if best.Some? && best.value.len < 2 then None else best
  }

  /** The search finds the leftmost longest run of zero words if it has at least two words,
      and nothing otherwise. Only one run meets that description. */
  lemma {:induction false} BestRunIsLongestLeftmost(w: seq<nat>, r: Run)
    ensures BestRun(w) == Some(r) <==> IsLongestLeftmost(w, r) && r.len >= 2
    ensures BestRun(w) == None <==> forall b: nat, l: nat :: ZeroRun(w, b, l) ==> l == 1
  {
    SearchedInvariant(w, |w|);
    var best := BestRun(w);
    if best.Some? {
      assert ZeroRun(w, best.value.base, best.value.len);
    }
    if IsLongestLeftmost(w, r) {
      assert ZeroRun(w, r.base, r.len);
    }
  }

  predicate InRun(run: Option<Run>, i: nat)
  {
    run.Some? && run.value.base <= i < run.value.base + run.value.len
  }

  /** IPv4-compatible and IPv4-mapped addresses end in a dotted quad. */
  predicate EmbedsIPv4(w: seq<nat>, run: Option<Run>)
    requires |w| == 8
  {
    run.Some? && run.value.base == 0 && (run.value.len == 6 || (run.value.len == 5 && w[5] == 0xffff))
  }

  /** The text after `n` turns of the formatting loop. */
  function Printed(w: seq<nat>, run: Option<Run>, n: nat): (t: string)
    requires n <= |w|
  {
    if n == 0 then ""
    else
      var t := Printed(w, run, n - 1);
      if InRun(run, n - 1) then
        if n - 1 == run.value.base then t + ":" else t
      else if n - 1 != 0 then t + ":" + Hex(w[n - 1])
      else t + Hex(w[n - 1])
  }

  function PresentationOf(src: seq<Octet>, w: seq<nat>, run: Option<Run>): (t: string)
    requires |src| == 16 && |w| == 8
  {
    if EmbedsIPv4(w, run) then Printed(w, run, 6) + ":" + QuadText(src[12..])
    else if run.Some? && run.value.base + run.value.len == 8 then Printed(w, run, 8) + ":"
    else Printed(w, run, 8)
  }

  /** The presentation form of a sixteen-byte address. */
  function Presentation(src: seq<Octet>): (t: string)
    requires |src| == 16
  {
    PresentationOf(src, Words(src), BestRun(Words(src)))
  }

  /** Sixteen-bit words. */
  predicate AllWords(w: seq<nat>) { forall i :: 0 <= i < |w| ==> w[i] <= 0xffff }

  lemma {:induction false} PrintedLength(w: seq<nat>, run: Option<Run>, n: nat)
    requires n <= |w| && AllWords(w)
    ensures |Printed(w, run, n)| <= if n == 0 then 0 else 5 * n - 1
  {
    if n > 0 {
      PrintedLength(w, run, n - 1);
    }
  }

  /** Inside the replaced run only its first word leaves a mark. */
  lemma {:induction false} PrintedInRun(w: seq<nat>, run: Run, n: nat)
    requires run.base < n <= run.base + run.len && n <= |w|
    ensures Printed(w, Some(run), n) == Printed(w, Some(run), run.base) + ":"
  {
    if n > run.base + 1 {
      PrintedInRun(w, run, n - 1);
    }
  }

  lemma {:induction false} PresentationLength(src: seq<Octet>, w: seq<nat>, run: Option<Run>)
    requires |src| == 16 && |w| == 8 && AllWords(w)
    requires run.Some? ==> run.value.len >= 2 && run.value.base + run.value.len <= 8
    ensures |PresentationOf(src, w, run)| <= 39
    ensures EmbedsIPv4(w, run) ==> |PresentationOf(src, w, run)| <= 22
  {
    PrintedLength(w, run, 8);
    if EmbedsIPv4(w, run) {
      PrintedInRun(w, run.value, run.value.len);
      PrintedLength(w, run, 0);
    } else if run.Some? && run.value.base + run.value.len == 8 {
      PrintedInRun(w, run.value, 8);
      PrintedLength(w, run, run.value.base);
    }
  }

  /** Copies a C string, without its NUL, to `tmp[tp..]`; one more character must fit. */
  method Put(tmp: array<char>, tp: nat, s: string)
    requires tp + |s| < tmp.Length
    modifies tmp
    ensures tmp[..tp + |s|] == old(tmp[..tp]) + s
    ensures tmp[tp + |s|] == '\0'
    ensures forall i :: tp + |s| < i < tmp.Length ==> tmp[i] == old(tmp[i])
  {
    forall i | 0 <= i < |s| { tmp[tp + i] := s[i]; }
    tmp[tp + |s|] := '\0';
  }

  /** The size test compares the length without the NUL: a `size` equal to that length passes,
      and the NUL is then written just past it, which the caller's memory must have room for. */
  method InetNtop4(src: seq<Octet>, dst: array<char>, at: nat, size: nat) returns (ok: bool)
    requires |src| == 4
    requires at + size <= dst.Length && (size == |QuadText(src)| ==> at + size < dst.Length)
    modifies dst
    ensures ok <==> |QuadText(src)| <= size
    ensures ok ==> dst[..at + |QuadText(src)|] == old(dst[..at]) + QuadText(src)
    ensures ok ==> dst[at + |QuadText(src)|] == '\0'
    ensures forall i :: (if ok then at + |QuadText(src)| < i else 0 <= i) && i < dst.Length ==> dst[i] == old(dst[i])
  {
    var tmp := QuadText(src);
    if |tmp| > size {
      return false;
    }
    Put(dst, at, tmp);
    return true;
  }

  /** Bytes into words, then the search for the best run of zeros. */
  method Preprocess(src: seq<Octet>) returns (words: array<nat>, best: Option<Run>)
    requires |src| == 16
    ensures words[..] == Words(src) && best == BestRun(Words(src))
  {
    words := new nat[8](_ => 0);
    ghost var w := Words(src);
    for i := 0 to 16
      invariant forall k :: 0 <= k < i / 2 ==> words[k] == w[k]
      invariant i % 2 == 1 ==> words[i / 2] == Word(src[i - 1], 0)
      invariant forall k :: (i + 1) / 2 <= k < 8 ==> words[k] == 0
    {
      // the shifted bytes of a word share no bit, so `|=` adds them
      words[i / 2] := words[i / 2] + if i % 2 == 0 then Word(src[i], 0) else Word(0, src[i]);
    }
    assert words[..] == w;
    var cur: Option<Run> := None;
    best := None;
    for i := 0 to 8
      invariant words[..] == w
      invariant Searched(w, i) == Search(best, cur)
    {
      assert words[i] == w[i];
      if words[i] == 0 {
        if cur.None? {
          cur := Some(Run(i, 1));
        } else {
          cur := Some(Run(cur.value.base, cur.value.len + 1));
        }
      } else if cur.Some? {
        if best.None? || cur.value.len > best.value.len {
          best := cur;
        }
        cur := None;
      }
    }
    if cur.Some? && (best.None? || cur.value.len > best.value.len) {
      best := cur;
    }
    if best.Some? && best.value.len < 2 {
      best := None;
    }
  }

  /** One turn of the formatting loop that does not reach the dotted quad. */
  method FormatWord(tmp: array<char>, start: nat, w: seq<nat>, best: Option<Run>, i: nat) returns (tp: nat)
    requires tmp.Length == 46 && |w| == 8 && i < 8 && w[i] <= 0xffff
    requires start == |Printed(w, best, i)| <= 5 * i && tmp[..start] == Printed(w, best, i)
    modifies tmp
    ensures tp == |Printed(w, best, i + 1)| <= 5 * (i + 1) && tmp[..tp] == Printed(w, best, i + 1)
  {
    tp := start;
    if best.Some? && i >= best.value.base && i < best.value.base + best.value.len {
      if i == best.value.base {
        Put(tmp, tp, ":");
        tp := tp + 1;
      }
      return;
    }
    if i != 0 {
      Put(tmp, tp, ":");
      tp := tp + 1;
    }
    Put(tmp, tp, Hex(w[i]));
    tp := tp + |Hex(w[i])|;
  }

  /** The formatting loop, into a buffer of 46 characters. */
  method Format(src: seq<Octet>, w: seq<nat>, best: Option<Run>) returns (tmp: array<char>, tp: nat)
    requires |src| == 16 && |w| == 8 && AllWords(w)
    requires best.Some? ==> best.value.len >= 2 && best.value.base + best.value.len <= 8
    ensures fresh(tmp) && tmp.Length == 46 && tp < 46
    ensures tmp[..tp] == PresentationOf(src, w, best)
  {
    tmp := new char[46](_ => '\0');
    tp := 0;
    var i := 0;
    while i < 8
      invariant 0 <= i <= 8 && (EmbedsIPv4(w, best) ==> i <= 6)
      invariant tp == |Printed(w, best, i)| <= 5 * i && tmp[..tp] == Printed(w, best, i)
    {
      if i == 6 && EmbedsIPv4(w, best) {
        PrintedInRun(w, best.value, best.value.len);
        PrintedLength(w, best, 0);
        Put(tmp, tp, ":");
        var done := InetNtop4(src[12..], tmp, tp + 1, 46 - (tp + 1));
        assert done;  // so the source never returns NULL here
        tp := tp + 1 + |QuadText(src[12..])|;
        return;
      }
      tp := FormatWord(tmp, tp, w, best, i);
      i := i + 1;
    }
    if best.Some? && best.value.base + best.value.len == 8 {
      Put(tmp, tp, ":");
      tp := tp + 1;
    }
  }

  /** The 46-character buffer never overflows, since no text exceeds 39 characters, and the
      caller's buffer is filled exactly when the text and its NUL fit in `size`. */
  method InetNtop6(src: seq<Octet>, dst: array<char>, size: nat) returns (ok: bool)
    requires |src| == 16 && size <= dst.Length
    modifies dst
    ensures ok <==> |Presentation(src)| + 1 <= size
    ensures ok ==> dst[..|Presentation(src)|] == Presentation(src) && dst[|Presentation(src)|] == '\0'
    ensures forall i :: (if ok then |Presentation(src)| < i else 0 <= i) && i < dst.Length ==> dst[i] == old(dst[i])
  {
    var words, best := Preprocess(src);
    if best.Some? {
      BestRunIsLongestLeftmost(Words(src), best.value);
    }
    var tmp, tp := Format(src, words[..], best);
    if tp + 1 > size {
      return false;
    }
    Put(dst, 0, tmp[..tp]);
    return true;
  }
}
