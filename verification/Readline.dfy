/** Reading lines from a descriptor: `readline`, which keeps a hidden buffer, and `Readline`, which
    asks for one byte at a time.

    The descriptor delivers a fixed stream of bytes; how `read` splits it, where it is interrupted
    and where it fails is an arbitrary script. */
module Readline {
  import opened Basics
  import opened Script

  const MAXLINE: nat := 4096
  const NEWLINE: Octet := 10

  /** What the next `read` does: is interrupted, fails, or delivers up to `k` bytes. */
  datatype Op = Interrupted | Fails | Upto(k: nat)

  // ---- what a call does to the bytes to come

  /** How many bytes a line has, of at most `room`. */
  function LineLength(bytes: seq<Octet>, room: nat): (n: nat)
    ensures n <= room && n <= |bytes|
  {
    if room == 0 || bytes == [] then 0
    else if bytes[0] == NEWLINE then 1
    else 1 + LineLength(bytes[1..], room - 1)
  }

  function Room(maxlen: nat): nat { if maxlen == 0 then 0 else maxlen - 1 }

  /** Does a line of `n` bytes end in a newline? */
  predicate Complete(bytes: seq<Octet>, n: nat)
    requires n <= |bytes|
  {
    n > 0 && bytes[n - 1] == NEWLINE
  }

  /** The number a call returns: one more than it stored if it ran out of room. */
  function Returned(bytes: seq<Octet>, maxlen: nat): nat {
    var n := LineLength(bytes, Room(maxlen));
    if n == Room(maxlen) && !Complete(bytes, n) then n + 1 else n
  }

  /** What a call returns and stores. */
  datatype Call = Call(rc: int, stored: seq<Octet>)

  function Calls(bytes: seq<Octet>, maxlens: seq<nat>): seq<Call> {
    if maxlens == [] then [] else
    var n := LineLength(bytes, Room(maxlens[0]));
    [Call(Returned(bytes, maxlens[0]), bytes[..n])] + Calls(bytes[n..], maxlens[1..])
  }

  /** A line stops at the first newline, where the room is used up, or at the end. */
  lemma {:induction false} LineMeans(bytes: seq<Octet>, room: nat)
    ensures var n := LineLength(bytes, room);
            && (forall k :: 0 <= k < n - 1 ==> bytes[k] != NEWLINE)
            && (Complete(bytes, n) || n == room || n == |bytes|)
    decreases room
  {
    if room > 0 && bytes != [] && bytes[0] != NEWLINE {
      LineMeans(bytes[1..], room - 1);
    }
  }

  lemma {:induction false} CompleteExactly(bytes: seq<Octet>, room: nat)
    ensures Complete(bytes, LineLength(bytes, room)) <==> NEWLINE in Cut(bytes, room)
    decreases room
  {
    if room > 0 && bytes != [] {
      assert Cut(bytes, room) == [bytes[0]] + Cut(bytes[1..], room - 1);
      CompleteExactly(bytes[1..], room - 1);
    }
  }

  /** The count returned is the number of bytes stored exactly when there is a newline within the
      room, which leaves one byte for the NUL, or the stream ends with room to spare; otherwise it is
      one more. */
  lemma {:induction false} CountExactly(bytes: seq<Octet>, maxlen: nat)
    ensures var room := if maxlen < 2 then 0 else maxlen - 1;
            var n := LineLength(bytes, room);
            Returned(bytes, maxlen) == if NEWLINE in Cut(bytes, room) || |bytes| < room then n else n + 1
  {
    LineMeans(bytes, Room(maxlen));
    CompleteExactly(bytes, Room(maxlen));
  }

  lemma {:induction false} CountCanBeOff()
    ensures Calls([65, 66], [2]) == [Call(2, [65])]
  {
    assert [65 as Octet, 66][..1] == [65];
    assert LineLength([66], 0) == 0;
    assert Calls([66], []) == [];
  }

  function Stored(cs: seq<Call>): seq<Octet> {
    if cs == [] then [] else cs[0].stored + Stored(cs[1..])
  }

  /** Successive calls store the stream, in order and without gaps. */
  lemma {:induction false} CallsLoseNothing(bytes: seq<Octet>, maxlens: seq<nat>)
    ensures Stored(Calls(bytes, maxlens)) <= bytes
    decreases maxlens
  {
    if maxlens != [] {
      var n := LineLength(bytes, Room(maxlens[0]));
      CallsLoseNothing(bytes[n..], maxlens[1..]);
      var rest := Stored(Calls(bytes[n..], maxlens[1..]));
      assert Calls(bytes, maxlens)[1..] == Calls(bytes[n..], maxlens[1..]);
      assert bytes[..n] + rest <= bytes[..n] + bytes[n..] == bytes;
    }
  }

  // ---- one call

  /** A call that found `bytes` to come returned `rc`, stored the `n` bytes of a line and a zero in
      a buffer that held `before`, and left `rest`. */
  ghost predicate Outcome(bytes: seq<Octet>, maxlen: nat, rc: int, n: nat,
                          before: seq<Octet>, after: seq<Octet>, rest: seq<Octet>) {
    && n == LineLength(bytes, Room(maxlen)) && rc == Returned(bytes, maxlen)
    && n < |before| && after == bytes[..n] + [0] + before[n + 1..] && rest == bytes[n..]
  }

  /** The same in the middle of a call: `n` bytes stored, none of them a newline. */
  ghost predicate Partial(bytes: seq<Octet>, maxlen: nat, n: nat,
                          before: seq<Octet>, after: seq<Octet>, rest: seq<Octet>) {
    && n <= Room(maxlen) && n <= |bytes| && n <= |before|
    && LineLength(bytes, Room(maxlen)) == n + LineLength(rest, Room(maxlen) - n)
    && (n > 0 ==> bytes[n - 1] != NEWLINE)
    && after == bytes[..n] + before[n..] && rest == bytes[n..]
  }

  lemma {:induction false} AtStart(bytes: seq<Octet>, maxlen: nat, before: seq<Octet>)
    ensures Partial(bytes, maxlen, 0, before, before, bytes)
  {
  }

  lemma {:induction false} AtByte(bytes: seq<Octet>, maxlen: nat, n: nat, before: seq<Octet>, after: seq<Octet>,
                                  rest: seq<Octet>, c: Octet, next: seq<Octet>)
    requires Partial(bytes, maxlen, n, before, after, rest)
    requires rest == [c] + next && n + 1 < maxlen <= |before|
    ensures |after| == |before|
    ensures c != NEWLINE ==> Partial(bytes, maxlen, n + 1, before, after[n := c], next)
    ensures c == NEWLINE ==> Outcome(bytes, maxlen, n + 1, n + 1, before, after[n := c][n + 1 := 0], next)
  {
    assert rest[1..] == next;
    assert after[n := c] == bytes[..n + 1] + before[n + 1..];
    if c == NEWLINE {
      assert after[n := c][n + 1 := 0] == bytes[..n + 1] + [0] + before[n + 2..];
    }
  }

  lemma {:induction false} AtEnd(bytes: seq<Octet>, maxlen: nat, n: nat, before: seq<Octet>, after: seq<Octet>,
                                 rest: seq<Octet>)
    requires Partial(bytes, maxlen, n, before, after, rest) && n < |before|
    ensures |after| == |before|
    ensures rest == [] && n < Room(maxlen) ==> Outcome(bytes, maxlen, n, n, before, after[n := 0], rest)
    ensures n == Room(maxlen) ==> Outcome(bytes, maxlen, n + 1, n, before, after[n := 0], rest)
  {
  }

  // ---- the descriptor

  class Descriptor {
    const stream: seq<Octet>
    const script: seq<Op>
    var pos: nat
    var at: nat

    constructor (stream: seq<Octet>, script: seq<Op>)
      ensures this.stream == stream && this.script == script && pos == at == 0
    {
      this.stream, this.script, pos, at := stream, script, 0, 0;
    }

    ghost predicate Valid()
      reads this
    {
      pos <= |stream| && at <= |script|
    }

    ghost function Rest(): seq<Octet>
      requires Valid()
      reads this
    {
      stream[pos..]
    }

    /** Has a `read` failed since `from`? */
    ghost predicate Failed(from: nat)
      reads this
    {
      Uses(script, Fails, from, at)
    }

    /** `read` of up to `n` bytes, tried again while it is interrupted; `None` is a failure. */
    method Read(n: nat) returns (r: Option<seq<Octet>>)
      requires Valid() && n > 0
      modifies this
      ensures Valid() && old(at) <= at && (r.None? <==> Failed(old(at)))
      ensures r.None? ==> pos == old(pos)
      ensures r.Some? ==> |r.value| <= n && old(Rest()) == r.value + Rest()
      ensures r.Some? && r.value == [] ==> Rest() == []
    {
      hide Uses;
      UsesNone(script, Fails, at);
      while at < |script| && script[at] == Interrupted
        invariant Valid() && pos == old(pos) && old(at) <= at && !Failed(old(at))
      {
        UsesOne(script, Fails, at);
        UsesJoin(script, Fails, old(at), at, at + 1);
        at := at + 1;
      }
      var k := n;
      if at < |script| {
        var op := script[at];
        UsesOne(script, Fails, at);
        UsesJoin(script, Fails, old(at), at, at + 1);
        at := at + 1;
        if op == Fails {
          return None;
        }
        k := if op.Upto? && 0 < op.k < n then op.k else n;
      }
      if k > |stream| - pos {
        k := |stream| - pos;
      }
      r := Some(stream[pos..pos + k]);
      pos := pos + k;
    }
  }

  method Store(dst: array<Octet>, n: nat, c: Octet)
    requires n < dst.Length
    modifies dst
    ensures dst[..] == old(dst[..])[n := c]
  {
    dst[n] := c;
  }

  // ---- the buffered reader

  class Buffered {
    const fd: Descriptor
    const readBuf: array<Octet>
    var readCnt: int
    var readPtr: nat
    ghost var delivered: seq<Octet>

    constructor (fd: Descriptor)
      requires fd.Valid() && fd.pos == 0
      ensures Valid() && this.fd == fd && fresh(readBuf) && Bytes() == fd.stream
    {
      this.fd := fd;
      readBuf := new Octet[MAXLINE];
      readCnt, readPtr, delivered := 0, 0, [];
    }

    /** What is in the hidden buffer. */
    ghost function Kept(): seq<Octet>
      requires readPtr + (if readCnt > 0 then readCnt else 0) <= readBuf.Length
      reads this, readBuf
    {
      readBuf[readPtr..readPtr + if readCnt > 0 then readCnt else 0]
    }

    /** The bytes delivered and those still buffered are the bytes read. */
    ghost predicate Valid()
      reads this, fd, readBuf
    {
      && fd.Valid() && readBuf.Length == MAXLINE
      && readPtr + (if readCnt > 0 then readCnt else 0) <= MAXLINE
      && fd.stream[..fd.pos] == delivered + Kept()
    }

    /** The bytes to come. */
    ghost function Bytes(): seq<Octet>
      requires Valid()
      reads this, fd, readBuf
    {
      Kept() + fd.Rest()
    }

    /** Fills the empty buffer. */
    method Fill() returns (rc: int)
      requires Valid() && readCnt <= 0
      modifies this, fd, readBuf
      ensures Valid() && Bytes() == old(Bytes()) && delivered == old(delivered)
      ensures rc == 1 ==> readCnt > 0
      ensures rc == 0 ==> Bytes() == []
      ensures old(fd.at) <= fd.at && (rc == -1 <==> fd.Failed(old(fd.at)))
      ensures rc == 1 || rc == 0 || rc == -1
    {
      hide Uses;
      var r := fd.Read(MAXLINE);
      if r == None {
        readCnt := -1;
        return -1;
      }
      readCnt := |r.value|;
      if readCnt == 0 {
        return 0;
      }
      assert delivered + [] == delivered && [] + fd.Rest() == fd.Rest();
      forall k | 0 <= k < |r.value| {
        readBuf[k] := r.value[k];
      }
      readPtr := 0;
      assert Kept() == r.value;
      return 1;
    }

    /** Takes a byte from a buffer that has one. */
    method Take() returns (c: Octet)
      requires Valid() && readCnt > 0
      modifies this
      ensures Valid() && old(Bytes()) == [c] + Bytes() && delivered == old(delivered) + [c]
    {
      c := readBuf[readPtr];
      ghost var rest := readBuf[readPtr + 1..readPtr + readCnt];
      assert Kept() == [c] + rest;
      assert delivered + ([c] + rest) == (delivered + [c]) + rest;
      assert ([c] + rest) + fd.Rest() == [c] + (rest + fd.Rest());
      readCnt := readCnt - 1;
      readPtr := readPtr + 1;
      delivered := delivered + [c];
      assert Kept() == rest;
    }

    method MyRead() returns (rc: int, c: Octet)
      requires Valid()
      modifies this, fd, readBuf
      ensures Valid()
      ensures rc == 1 ==> old(Bytes()) == [c] + Bytes() && delivered == old(delivered) + [c]
      ensures rc == 0 ==> old(Bytes()) == [] == Bytes()
      ensures rc == -1 ==> Bytes() == old(Bytes())
      ensures old(fd.at) <= fd.at && (rc == -1 <==> fd.Failed(old(fd.at)))
      ensures rc == 1 || rc == 0 || rc == -1
    {
      hide Valid, Bytes, Kept, Uses;
      UsesNone(fd.script, Fails, fd.at);
      c := 0;
      if readCnt <= 0 {
        rc := Fill();
        if rc != 1 {
          return;
        }
      }
      c := Take();
      rc := 1;
    }

    lemma {:induction false} WithinScript()
      requires Valid()
      ensures fd.at <= |fd.script|
    {
    }

    /** `readline`; `n` tells how many bytes it stored before the terminating zero. */
    method ReadLine(dst: array<Octet>, maxlen: nat) returns (rc: int, n: nat)
      requires Valid() && dst != readBuf && maxlen <= dst.Length && 1 <= dst.Length
      modifies this, fd, readBuf, dst
      ensures Valid()
      ensures old(fd.at) <= fd.at && (rc == -1 <==> fd.Failed(old(fd.at)))
      ensures rc != -1 ==> Outcome(old(Bytes()), maxlen, rc, n, old(dst[..]), dst[..], Bytes())
    {
      hide Partial, Outcome, LineLength, Valid, Bytes, Kept, Uses;
      n := 0;
      UsesNone(fd.script, Fails, fd.at);
      AtStart(Bytes(), maxlen, dst[..]);
      while n + 1 < maxlen
        invariant n <= Room(maxlen) && Valid()
        invariant Partial(old(Bytes()), maxlen, n, old(dst[..]), dst[..], Bytes())
        invariant old(fd.at) <= fd.at && !fd.Failed(old(fd.at))
      {
        ghost var was, rest, used := dst[..], Bytes(), fd.at;
        var r, c := MyRead();
        assert dst[..] == was;
        WithinScript();
        UsesJoin(fd.script, Fails, old(fd.at), used, fd.at);
        if r == -1 {
          return -1, n;
        }
        if r == 0 {
          AtEnd(old(Bytes()), maxlen, n, old(dst[..]), was, rest);
          Store(dst, n, 0);
          return n, n;
        }
        AtByte(old(Bytes()), maxlen, n, old(dst[..]), was, rest, c, Bytes());
        Store(dst, n, c);
        n := n + 1;
        if c == NEWLINE {
          Store(dst, n, 0);
          return n, n;
        }
      }
      AtEnd(old(Bytes()), maxlen, n, old(dst[..]), dst[..], Bytes());
      Store(dst, n, 0);
      return n + 1, n;
    }
  }

  // ---- one byte at a time

  method ReadLineByByte(fd: Descriptor, dst: array<Octet>, maxlen: nat) returns (rc: int, n: nat)
    requires fd.Valid() && maxlen <= dst.Length && 1 <= dst.Length
    modifies fd, dst
    ensures fd.Valid()
    ensures old(fd.at) <= fd.at && (rc == -1 <==> fd.Failed(old(fd.at)))
    ensures rc != -1 ==> Outcome(old(fd.Rest()), maxlen, rc, n, old(dst[..]), dst[..], fd.Rest())
  {
    hide Partial, Outcome, LineLength, Uses, Descriptor.Rest;
    n := 0;
    UsesNone(fd.script, Fails, fd.at);
    AtStart(fd.Rest(), maxlen, dst[..]);
    while n + 1 < maxlen
      invariant n <= Room(maxlen) && fd.Valid()
      invariant Partial(old(fd.Rest()), maxlen, n, old(dst[..]), dst[..], fd.Rest())
      invariant old(fd.at) <= fd.at && !fd.Failed(old(fd.at))
    {
      ghost var was, rest, used := dst[..], fd.Rest(), fd.at;
      var r := fd.Read(1);
      assert dst[..] == was;
      UsesJoin(fd.script, Fails, old(fd.at), used, fd.at);
      if r == None {
        return -1, n;
      }
      if r.value == [] {
        AtEnd(old(fd.Rest()), maxlen, n, old(dst[..]), was, rest);
        Store(dst, n, 0);
        return n, n;
      }
      var c := r.value[0];
      assert r.value == [c];
      AtByte(old(fd.Rest()), maxlen, n, old(dst[..]), was, rest, c, fd.Rest());
      Store(dst, n, c);
      n := n + 1;
      if c == NEWLINE {
        Store(dst, n, 0);
        return n, n;
      }
    }
    AtEnd(old(fd.Rest()), maxlen, n, old(dst[..]), dst[..], fd.Rest());
    Store(dst, n, 0);
    return n + 1, n;
  }

  // ---- whole sessions

  /** A call with a buffer of its own. */
  method BufferedCall(r: Buffered, maxlen: nat) returns (c: Call)
    requires r.Valid()
    modifies r, r.fd, r.readBuf
    ensures r.Valid() && old(r.fd.at) <= r.fd.at <= |r.fd.script|
    ensures c.rc == -1 <==> r.fd.Failed(old(r.fd.at))
    ensures c.rc != -1 ==> Serves(old(r.Bytes()), maxlen, c, r.Bytes())
  {
    hide Buffered.Valid, Buffered.Bytes, Buffered.Kept, Uses;
    var dst := new Octet[maxlen + 1];
    var rc, n := r.ReadLine(dst, maxlen);
    r.WithinScript();
    c := if n <= dst.Length then Call(rc, dst[..n]) else Call(rc, []);
  }

  method ByteCall(fd: Descriptor, maxlen: nat) returns (c: Call)
    requires fd.Valid()
    modifies fd
    ensures fd.Valid() && old(fd.at) <= fd.at
    ensures c.rc == -1 <==> fd.Failed(old(fd.at))
    ensures c.rc != -1 ==> Serves(old(fd.Rest()), maxlen, c, fd.Rest())
  {
    hide Descriptor.Valid, Descriptor.Rest, Uses;
    var dst := new Octet[maxlen + 1];
    var rc, n := ReadLineByByte(fd, dst, maxlen);
    c := if n <= dst.Length then Call(rc, dst[..n]) else Call(rc, []);
  }

  /** Call `c` is what a call with `bytes` to come should be, leaving `rest`. */
  ghost predicate Serves(bytes: seq<Octet>, maxlen: nat, c: Call, rest: seq<Octet>) {
    var n := LineLength(bytes, Room(maxlen));
    c == Call(Returned(bytes, maxlen), bytes[..n]) && rest == bytes[n..]
  }

  lemma {:induction false} CallsStep(all: seq<Call>, bytes: seq<Octet>, maxlens: seq<nat>, i: nat,
                                     cs: seq<Call>, c: Call, rest: seq<Octet>)
    requires i < |maxlens| && Serves(bytes, maxlens[i], c, rest) && cs + Calls(bytes, maxlens[i..]) == all
    ensures (cs + [c]) + Calls(rest, maxlens[i + 1..]) == all
  {
  }

  lemma {:induction false} CallsEnd(bytes: seq<Octet>, maxlens: seq<nat>, cs: seq<Call>)
    ensures cs + Calls(bytes, maxlens[|maxlens|..]) == cs
    ensures [] + Calls(bytes, maxlens[0..]) == Calls(bytes, maxlens)
  {
  }

  /** A sequence of calls of `readline`, up to one that fails; `used` entries of the script are
      used up. */
  method BufferedSession(stream: seq<Octet>, script: seq<Op>, maxlens: seq<nat>)
    returns (cs: seq<Call>, failed: bool, used: nat)
    ensures used <= |script| && (failed <==> Uses(script, Fails, 0, used))
    ensures cs <= Calls(stream, maxlens) && (!failed ==> cs == Calls(stream, maxlens))
  {
    var fd := new Descriptor(stream, script);
    var r := new Buffered(fd);
    cs := [];
    CallsEnd(stream, maxlens, cs);
    UsesNone(script, Fails, 0);
    hide Serves, Calls, Uses, Buffered.Valid, Buffered.Bytes, Buffered.Kept;
    for i := 0 to |maxlens|
      invariant r.Valid() && fresh(r) && fresh(r.fd) && fresh(r.readBuf) && r.fd.script == script
      invariant r.fd.at <= |script| && !r.fd.Failed(0)
      invariant cs + Calls(r.Bytes(), maxlens[i..]) == Calls(stream, maxlens)
    {
      ghost var bytes, at := r.Bytes(), r.fd.at;
      var c := BufferedCall(r, maxlens[i]);
      UsesJoin(script, Fails, 0, at, r.fd.at);
      if c.rc == -1 {
        return cs, true, r.fd.at;
      }
      CallsStep(Calls(stream, maxlens), bytes, maxlens, i, cs, c, r.Bytes());
      cs := cs + [c];
    }
    CallsEnd(r.Bytes(), maxlens, cs);
    return cs, false, r.fd.at;
  }

  /** A sequence of calls of `Readline`. */
  method ByteSession(stream: seq<Octet>, script: seq<Op>, maxlens: seq<nat>)
    returns (cs: seq<Call>, failed: bool, used: nat)
    ensures used <= |script| && (failed <==> Uses(script, Fails, 0, used))
    ensures cs <= Calls(stream, maxlens) && (!failed ==> cs == Calls(stream, maxlens))
  {
    var fd := new Descriptor(stream, script);
    cs := [];
    CallsEnd(stream, maxlens, cs);
    UsesNone(script, Fails, 0);
    assert fd.Rest() == stream;
    hide Serves, Calls, Uses, Descriptor.Rest;
    for i := 0 to |maxlens|
      invariant fd.Valid() && fresh(fd) && fd.script == script && !fd.Failed(0)
      invariant cs + Calls(fd.Rest(), maxlens[i..]) == Calls(stream, maxlens)
    {
      ghost var bytes, at := fd.Rest(), fd.at;
      var c := ByteCall(fd, maxlens[i]);
      UsesJoin(script, Fails, 0, at, fd.at);
      if c.rc == -1 {
        return cs, true, fd.at;
      }
      CallsStep(Calls(stream, maxlens), bytes, maxlens, i, cs, c, fd.Rest());
      cs := cs + [c];
    }
    CallsEnd(fd.Rest(), maxlens, cs);
    return cs, false, fd.at;
  }

  /** On one stream, however `read` splits it for either of them, the buffered and the
      byte-at-a-time reader return the same counts and store the same bytes. */
  method SameLines(stream: seq<Octet>, script: seq<Op>, script': seq<Op>, maxlens: seq<nat>)
    returns (a: seq<Call>, b: seq<Call>)
    requires Fails !in script && Fails !in script'
    ensures a == b == Calls(stream, maxlens)
  {
    var failed, failed', used, used';
    a, failed, used := BufferedSession(stream, script, maxlens);
    b, failed', used' := ByteSession(stream, script', maxlens);
    UsesIn(script, Fails, 0, used);
    UsesIn(script', Fails, 0, used');
  }
}
