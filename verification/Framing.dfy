/** Messages over a byte stream: `sendMsg` puts a four-byte length in front of a message, and
    `recvMsg` takes such a frame off the stream again.

    How `send` and `recv` cut the bytes up, and where they fail, is an arbitrary script. */
module Framing {
  import opened Basics
  import opened Script

  const INT_MAX: nat := 0x7fff_ffff

  /** What the next `send` or `recv` does: fails, or moves up to `k` bytes. A `send` may move
      none; a `recv` does so only at the end of the stream. */
  datatype Op = Fails | Upto(k: nat)

  // ---- frames

  function Big(n: nat): (bs: seq<Octet>)
    ensures |bs| == 4
  {
    [n / 256 / 256 / 256 % 256, n / 256 / 256 % 256, n / 256 % 256, n % 256]
  }

  function Value(bs: seq<Octet>): nat
    requires |bs| == 4
  {
    var b0, b1, b2, b3 := bs[0] as int, bs[1] as int, bs[2] as int, bs[3] as int;
    ((b0 * 256 + b1) * 256 + b2) * 256 + b3
  }

  lemma {:induction false} BigRoundTrip(n: nat)
    requires n <= INT_MAX
    ensures Value(Big(n)) == n
  {
  }

  function Frame(msg: seq<Octet>): seq<Octet> { Big(|msg|) + msg }

  /** The bytes a list of messages puts on the stream; an empty one is refused. */
  function Frames(msgs: seq<seq<Octet>>): seq<Octet> {
    if msgs == [] then [] else (if msgs[0] == [] then [] else Frame(msgs[0])) + Frames(msgs[1..])
  }

  function NonEmpty(msgs: seq<seq<Octet>>): seq<seq<Octet>> {
    if msgs == [] then [] else (if msgs[0] == [] then [] else [msgs[0]]) + NonEmpty(msgs[1..])
  }

  /** The length in the header; bytes of it that are missing count as zero. */
  function Announced(bytes: seq<Octet>): nat {
    var h := Cut(bytes, 4);
    Value(h + Zeros(4 - |h|))
  }

  /** The message `recvMsg` takes off a stream, and what it leaves. */
  function Body(bytes: seq<Octet>): seq<Octet> {
    Cut(bytes[|Cut(bytes, 4)|..], Announced(bytes))
  }

  function Rest(bytes: seq<Octet>): (r: seq<Octet>)
    ensures |r| + |Body(bytes)| <= |bytes|
  {
    bytes[|Cut(bytes, 4)| + |Body(bytes)|..]
  }

  lemma {:induction false} FrameRoundTrip(msg: seq<Octet>, rest: seq<Octet>)
    requires |msg| <= INT_MAX
    ensures Announced(Frame(msg) + rest) == |msg|
    ensures Body(Frame(msg) + rest) == msg && Rest(Frame(msg) + rest) == rest
  {
    var bytes := Frame(msg) + rest;
    assert Cut(bytes, 4) == Big(|msg|);
    assert Big(|msg|) + Zeros(0) == Big(|msg|);
    BigRoundTrip(|msg|);
    assert bytes[4..] == msg + rest;
  }

  lemma {:induction false} NothingLeft()
    ensures Announced([]) == 0 && Body([]) == [] && Rest([]) == []
  {
  }

  /** A message in two reads: its header, and as many bytes as that announces. */
  lemma {:induction false} Parts(bytes: seq<Octet>, h: seq<Octet>, body: seq<Octet>)
    requires h == Cut(bytes, 4) && body == Cut(bytes[|h|..], Value(h + Zeros(4 - |h|)))
    ensures Announced(bytes) == Value(h + Zeros(4 - |h|)) && body == Body(bytes) && bytes[|h|..][|body|..] == Rest(bytes)
  {
    hide Value;
  }

  /** A header cut short announces no more than the whole one. */
  lemma {:induction false} PartialHeader(bytes: seq<Octet>, h: seq<Octet>)
    requires h <= Cut(bytes, 4)
    ensures Value(h + Zeros(4 - |h|)) <= Announced(bytes)
  {
    var w := Cut(bytes, 4) + Zeros(4 - |Cut(bytes, 4)|);
    var v := h + Zeros(4 - |h|);
    assert forall i :: 0 <= i < 4 ==> v[i] <= w[i];
  }

  // ---- sending

  class Sender {
    const script: seq<Op>
    var at: nat
    var sent: seq<Octet>

    constructor (script: seq<Op>)
      ensures sent == [] && this.script == script && at == 0
    {
      sent, this.script, at := [], script, 0;
    }

    /** Has a `send` failed since `from`? */
    ghost predicate Failed(from: nat)
      reads this
    {
      Uses(script, Fails, from, at)
    }

    /** `send` of some of `data[from..]`. */
    method Send(data: array<Octet>, from: nat) returns (len: int)
      requires from < data.Length && at <= |script|
      modifies this
      ensures -1 <= len <= data.Length - from && old(at) <= at <= |script|
      ensures len == -1 <==> Failed(old(at))
      ensures sent == old(sent) + if len == -1 then [] else data[from..from + len]
      ensures len <= 0 ==> old(at) < at
    {
      len := data.Length - from;
      if at < |script| {
        var op := script[at];
        UsesOne(script, Fails, at);
        at := at + 1;
        if op == Fails {
          return -1;
        }
        len := if op.k < len then op.k else len;
      } else {
        UsesNone(script, Fails, at);
      }
      hide Uses;
      sent := sent + data[from..from + len];
    }

    method Writen(data: array<Octet>) returns (rc: int)
      requires at <= |script|
      modifies this
      ensures old(at) <= at <= |script| && (rc == -1 <==> Failed(old(at)))
      ensures rc == -1 || rc == data.Length
      ensures old(sent) <= sent <= old(sent) + data[..]
      ensures rc != -1 ==> sent == old(sent) + data[..]
    {
      hide Uses;
      UsesNone(script, Fails, at);
      var from := 0;
      while from < data.Length
        invariant 0 <= from <= data.Length && sent == old(sent) + data[..from]
        invariant old(at) <= at <= |script| && !Failed(old(at))
        decreases |script| - at + data.Length - from
      {
        ghost var used := at;
        var len := Send(data, from);
        UsesJoin(script, Fails, old(at), used, at);
        if len == -1 {
          return -1;
        }
        assert old(sent) + data[..from] + data[from..from + len] == old(sent) + data[..from + len];
        from := from + len;
      }
      assert data[..from] == data[..];
      return data.Length;
    }

    /** Returns the size of the frame, or -1. */
    method SendMsg(msg: seq<Octet>) returns (rc: int)
      requires |msg| <= INT_MAX - 4 && at <= |script|
      modifies this
      ensures old(at) <= at <= |script| && (rc == -1 <==> msg == [] || Failed(old(at)))
      ensures rc == -1 || rc == |msg| + 4
      ensures msg == [] ==> sent == old(sent) && at == old(at)
      ensures old(sent) <= sent <= old(sent) + Frame(msg)
      ensures rc != -1 ==> sent == old(sent) + Frame(msg)
    {
      hide Uses;
      if |msg| <= 0 {
        return -1;
      }
      var header := Big(|msg|);
      var data := new Octet[|msg| + 4];
      forall i | 0 <= i < 4 {
        data[i] := header[i];
      }
      forall i | 0 <= i < |msg| {
        data[4 + i] := msg[i];
      }
      assert data[..] == Frame(msg);
      hide Frame, Big;
      rc := Writen(data);
    }
  }

  // ---- receiving

  class Receiver {
    const stream: seq<Octet>
    const script: seq<Op>
    var pos: nat
    var at: nat

    constructor (stream: seq<Octet>, script: seq<Op>)
      ensures this.stream == stream && this.script == script && pos == at == 0
    {
      this.stream, this.script, pos, at := stream, script, 0, 0;
    }

    ghost predicate Valid()
      reads this
    {
      pos <= |stream| && at <= |script|
    }

    ghost function Bytes(): seq<Octet>
      requires Valid()
      reads this
    {
      stream[pos..]
    }

    /** Has a `recv` failed since `from`? */
    ghost predicate Failed(from: nat)
      reads this
    {
      Uses(script, Fails, from, at)
    }

    /** `recv` into `buf[from..size]`. */
    method Recv(buf: array<Octet>, from: nat, size: nat) returns (len: int)
      requires Valid() && from < size <= buf.Length
      modifies this, buf
      ensures Valid() && -1 <= len <= size - from && old(at) <= at
      ensures len == -1 <==> Failed(old(at))
      ensures len == -1 ==> pos == old(pos) && buf[..] == old(buf[..])
      ensures len == 0 ==> old(Bytes()) == []
      ensures len >= 0 ==>
                len <= |old(Bytes())| && Bytes() == old(Bytes())[len..]
                && buf[..from + len] == old(buf[..from]) + old(Bytes())[..len]
                && buf[from + len..] == old(buf[..])[from + len..]
    {
      len := size - from;
      if at < |script| {
        var op := script[at];
        UsesOne(script, Fails, at);
        at := at + 1;
        if op == Fails {
          return -1;
        }
        len := if 0 < op.k < len then op.k else len;
      } else {
        UsesNone(script, Fails, at);
      }
      hide Uses;
      if len > |stream| - pos {
        len := |stream| - pos;
      }
      forall i | 0 <= i < len {
        buf[from + i] := stream[pos + i];
      }
      pos := pos + len;
    }

    /** Stores `size` bytes, or all there are, or those before a failure; the rest of `buf` is
        left as it was. */
    method Readn(buf: array<Octet>, size: nat) returns (rc: int, ghost got: seq<Octet>)
      requires Valid() && size <= buf.Length
      modifies this, buf
      ensures Valid() && old(at) <= at && (rc == -1 <==> Failed(old(at)))
      ensures got <= Cut(old(Bytes()), size) && Bytes() == old(Bytes())[|got|..]
      ensures buf[..] == got + old(buf[..])[|got|..]
      ensures rc != -1 ==> rc == |got| && got == Cut(old(Bytes()), size)
    {
      hide Uses;
      UsesNone(script, Fails, at);
      var from := 0;
      while from < size
        invariant 0 <= from <= size && Valid() && from <= |old(Bytes())|
        invariant old(at) <= at && !Failed(old(at))
        invariant Bytes() == old(Bytes())[from..]
        invariant buf[..from] == old(Bytes())[..from] && buf[from..] == old(buf[..])[from..]
      {
        ghost var used := at;
        var len := Recv(buf, from, size);
        UsesJoin(script, Fails, old(at), used, at);
        if len <= 0 {
          got := old(Bytes())[..from];
          assert buf[..] == buf[..from] + buf[from..];
          return if len == -1 then -1 else from, got;
        }
        from := from + len;
      }
      got := old(Bytes())[..from];
      assert buf[..] == buf[..from] + buf[from..];
      return from, got;
    }

    /** The message is in `data[..rc]`; a zero follows the announced length. The length read is
        trusted, and an error while reading it goes unnoticed: then it is cut short. */
    method RecvMsg() returns (rc: int, data: array<Octet>)
      requires Valid() && Announced(Bytes()) < INT_MAX
      modifies this
      ensures Valid() && old(at) <= at && fresh(data)
      ensures 0 < data.Length <= Announced(old(Bytes())) + 1 && data[data.Length - 1] == 0
      ensures -1 <= rc < data.Length && (rc == -1 ==> Failed(old(at)))
      ensures !Failed(old(at)) ==>
                && data.Length == Announced(old(Bytes())) + 1
                && rc == |Body(old(Bytes()))| && data[..rc] == Body(old(Bytes()))
                && Bytes() == Rest(old(Bytes()))
    {
      hide Uses, Value, Announced, Body, Rest, Cut;
      ghost var bytes := Bytes();
      var header := new Octet[4](_ => 0);
      var n, h := Readn(header, 4);
      ghost var used := at;
      assert header[..] == h + Zeros(4 - |h|);
      PartialHeader(bytes, h);
      var len := Value(header[..]);
      data := new Octet[len + 1];
      ghost var body;
      rc, body := Readn(data, len);
      UsesJoin(script, Fails, old(at), used, at);
      if n != -1 && rc != -1 {
        Parts(bytes, h, body);
      }
      data[len] := 0;
    }
  }

  // ---- a whole exchange

  /** What successive calls of `recvMsg` return until one returns 0. */
  function Received(bytes: seq<Octet>): seq<seq<Octet>>
    decreases |bytes|
  {
    if Body(bytes) == [] then [] else [Body(bytes)] + Received(Rest(bytes))
  }

  lemma {:induction false} ReceivedNext(m: seq<Octet>, rest: seq<Octet>)
    requires 0 < |m| <= INT_MAX - 4
    ensures Received(Frame(m) + rest) == [m] + Received(rest)
  {
    FrameRoundTrip(m, rest);
    hide Body, Rest, Frame;
  }

  lemma {:induction false} FramesNext(msgs: seq<seq<Octet>>)
    requires msgs != []
    ensures Frames(msgs) == (if msgs[0] == [] then [] else Frame(msgs[0])) + Frames(msgs[1..])
    ensures NonEmpty(msgs) == (if msgs[0] == [] then [] else [msgs[0]]) + NonEmpty(msgs[1..])
  {
    hide Frame;
  }

  lemma {:induction false} ReceivesWhatWasSent(msgs: seq<seq<Octet>>)
    requires forall i :: 0 <= i < |msgs| ==> |msgs[i]| <= INT_MAX - 4
    ensures Received(Frames(msgs)) == NonEmpty(msgs)
    decreases msgs
  {
    if msgs == [] {
      NothingLeft();
    } else {
      hide Received, Frames, NonEmpty, Frame;
      FramesNext(msgs);
      ReceivesWhatWasSent(msgs[1..]);
      if msgs[0] != [] {
        ReceivedNext(msgs[0], Frames(msgs[1..]));
      } else {
        assert [] + Frames(msgs[1..]) == Frames(msgs[1..]);
        assert [] + NonEmpty(msgs[1..]) == NonEmpty(msgs[1..]);
      }
    }
  }

  /** All announced lengths fit an `int`. */
  ghost predicate WellFramed(bytes: seq<Octet>)
    decreases |bytes|
  {
    Announced(bytes) < INT_MAX && (Body(bytes) != [] ==> WellFramed(Rest(bytes)))
  }

  lemma {:induction false} WellFramedNext(m: seq<Octet>, rest: seq<Octet>)
    requires |m| <= INT_MAX - 4 && WellFramed(rest)
    ensures WellFramed(Frame(m) + rest)
  {
    FrameRoundTrip(m, rest);
    hide Body, Rest, Announced, Frame;
  }

  lemma {:induction false} FramesWellFramed(msgs: seq<seq<Octet>>)
    requires forall i :: 0 <= i < |msgs| ==> |msgs[i]| <= INT_MAX - 4
    ensures WellFramed(Frames(msgs))
    decreases msgs
  {
    if msgs == [] {
      NothingLeft();
    } else {
      hide WellFramed, Frames, NonEmpty, Frame;
      FramesNext(msgs);
      FramesWellFramed(msgs[1..]);
      if msgs[0] != [] {
        WellFramedNext(msgs[0], Frames(msgs[1..]));
      } else {
        assert [] + Frames(msgs[1..]) == Frames(msgs[1..]);
      }
    }
  }

  lemma {:induction false} FramesSnoc(msgs: seq<seq<Octet>>, i: nat)
    requires i < |msgs|
    ensures Frames(msgs[..i + 1]) == Frames(msgs[..i]) + if msgs[i] == [] then [] else Frame(msgs[i])
    decreases msgs
  {
    if i == 0 {
      assert msgs[..1][1..] == [];
    } else {
      assert msgs[..i + 1][1..] == msgs[1..][..i] && msgs[..i][1..] == msgs[1..][..i - 1];
      FramesSnoc(msgs[1..], i - 1);
    }
  }

  /** The messages go out one after the other and the connection is closed; then `recvMsg` is
      called until it returns 0. */
  method Exchange(msgs: seq<seq<Octet>>, out: seq<Op>, back: seq<Op>) returns (got: seq<seq<Octet>>)
    requires forall i :: 0 <= i < |msgs| ==> |msgs[i]| <= INT_MAX - 4
    requires Fails !in out && Fails !in back
    ensures got == NonEmpty(msgs)
  {
    hide Uses, Frame, Body, Rest, Announced;
    var s := new Sender(out);
    for i := 0 to |msgs|
      invariant fresh(s) && s.sent == Frames(msgs[..i]) && s.script == out && s.at <= |out|
    {
      ghost var used := s.at;
      var rc := s.SendMsg(msgs[i]);
      UsesIn(out, Fails, used, s.at);
      FramesSnoc(msgs, i);
    }
    assert msgs[..|msgs|] == msgs;
    ReceivesWhatWasSent(msgs);
    FramesWellFramed(msgs);
    hide Frames, NonEmpty;
    var r := new Receiver(s.sent, back);
    got := [];
    assert r.Bytes() == s.sent;
    hide Receiver.Valid, Receiver.Bytes;
    while true
      invariant r.Valid() && fresh(r) && r.script == back && WellFramed(r.Bytes())
      invariant got + Received(r.Bytes()) == NonEmpty(msgs)
      decreases |r.Bytes()|
    {
      ghost var bytes, used := r.Bytes(), r.at;
      var rc, data := r.RecvMsg();
      UsesIn(back, Fails, used, r.at);
      if rc == 0 {
        assert Body(bytes) == [];
        return;
      }
      got := got + [data[..rc]];
    }
  }
}
