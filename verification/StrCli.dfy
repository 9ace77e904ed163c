/** The nonblocking echo client `str_cli`: stdin is copied to a socket through the buffer `to`
    and the socket to stdout through the buffer `fr`, and a FIN follows the last byte of stdin.

    What `select`, `read` and `write` answer is an arbitrary script; the class does what the
    program does with its pointers, and its state is tied to the transition function `Step`,
    about which the properties of all runs are proved. */
module StrCli {
  import opened Basics

  const MAXLINE: nat := 4096

  // ---- one buffer

  /** A buffer: the offset of its out pointer, and the bytes between the two pointers. */
  datatype Pipe = Pipe(optr: nat, held: seq<Octet>)
  {
    function Iptr(): nat { optr + |held| }

    predicate HasRoom() { Iptr() < MAXLINE }

    function Read(bs: seq<Octet>): Pipe { Pipe(optr, held + bs) }

    function Wrote(n: nat): Pipe
      requires n <= |held|
    {
      Pipe(if n == |held| then 0 else optr + n, held[n..])
    }

    /** An empty buffer starts at its beginning. */
    predicate Sound() { Iptr() <= MAXLINE && (held == [] ==> optr == 0) }
  }

  class Buffer {
    const data: array<Octet>
    var iptr: nat
    var optr: nat

    constructor ()
      ensures Valid() && View() == Pipe(0, [])
      ensures fresh(data)
    {
      data := new Octet[MAXLINE];
      iptr, optr := 0, 0;
    }

    ghost predicate Valid()
      reads this
    {
      optr <= iptr <= data.Length == MAXLINE
    }

    ghost function View(): Pipe
      requires Valid()
      reads this, data
    {
      Pipe(optr, data[optr..iptr])
    }

    /** `read` into the free end of the buffer, which is never empty. */
    method Read(bs: seq<Octet>)
      requires Valid() && 0 < |bs| <= MAXLINE - iptr
      modifies this, data
      ensures Valid() && View() == old(View()).Read(bs)
    {
      forall k | 0 <= k < |bs| {
        data[iptr + k] := bs[k];
      }
      iptr := iptr + |bs|;
    }

    /** `write` of the first `n` bytes held. */
    method Wrote(n: nat)
      requires Valid() && n <= iptr - optr
      modifies this
      ensures Valid() && View() == old(View()).Wrote(n)
    {
      assert data[optr..iptr][n..] == data[optr + n..iptr];
      optr := optr + n;
      if optr == iptr {
        iptr, optr := 0, 0;
      }
    }
  }

  // ---- what the system calls answer

  datatype Reading = ReadBlocks | ReadFails | Data(bytes: seq<Octet>)
  datatype Writing = WriteBlocks | WriteFails | Wrote(n: nat)

  /** One turn of the loop: which requested descriptors `select` reports, and what each call
      then returns. Counts beyond what was asked for are cut down. */
  datatype Turn = Turn(stdinReady: bool, sockReady: bool, stdoutReady: bool, sockWritable: bool,
                       stdin: Reading, sock: Reading, stdout: Writing, peer: Writing)

  datatype End = Running | Returned | Premature | Failed

  function Least(n: nat, m: nat): nat { if n < m then n else m }

  // ---- the transition function

  /** All bytes that ever went through each descriptor. */
  datatype Traffic = Traffic(stdin: seq<Octet>, toPeer: seq<Octet>, fromPeer: seq<Octet>, stdout: seq<Octet>)

  /** `fins` counts the calls of `Shutdown`. */
  datatype State = State(to: Pipe, fr: Pipe, stdineof: bool, fins: nat, end: End, io: Traffic)
  {
    predicate WantsStdin() { !stdineof && to.HasRoom() }
    predicate WantsSock() { fr.HasRoom() }
    predicate WantsPeer() { to.held != [] }
    predicate WantsStdout() { fr.held != [] }

    function ReadStdin(r: Reading): State
      requires to.HasRoom()
    {
      match r
      case ReadBlocks => this
      case ReadFails => this.(end := Failed)
      case Data(bs) =>
        if bs == [] then this.(stdineof := true, fins := if to.held == [] then fins + 1 else fins)
        else
          var got := Cut(bs, MAXLINE - to.Iptr());
          this.(to := to.Read(got), io := io.(stdin := io.stdin + got))
    }

    function ReadSock(r: Reading): State
      requires fr.HasRoom()
    {
      match r
      case ReadBlocks => this
      case ReadFails => this.(end := Failed)
      case Data(bs) =>
        if bs == [] then this.(end := if stdineof then Returned else Premature)
        else
          var got := Cut(bs, MAXLINE - fr.Iptr());
          this.(fr := fr.Read(got), io := io.(fromPeer := io.fromPeer + got))
    }

    function WriteStdout(w: Writing): State {
      match w
      case WriteBlocks => this
      case WriteFails => this.(end := Failed)
      case Wrote(n) =>
        var k := Least(n, |fr.held|);
        this.(fr := fr.Wrote(k), io := io.(stdout := io.stdout + fr.held[..k]))
    }

    function WritePeer(w: Writing): State {
      match w
      case WriteBlocks => this
      case WriteFails => this.(end := Failed)
      case Wrote(n) =>
        var k := Least(n, |to.held|);
        this.(to := to.Wrote(k), io := io.(toPeer := io.toPeer + to.held[..k]),
              fins := if k == |to.held| && stdineof then fins + 1 else fins)
    }

    /** The two reads of a turn, in order; a call that ends the program ends the turn. */
    function Reads(t: Turn): State {
      var s := if WantsStdin() && t.stdinReady then ReadStdin(t.stdin) else this;
      if s.end == Running && WantsSock() && t.sockReady then s.ReadSock(t.sock) else s
    }

    /** The two writes. A buffer just read into is written even if `select` did not ask. */
    function Writes(t: Turn, tryPeer: bool, tryStdout: bool): State {
      var s := if tryStdout && fr.held != [] then WriteStdout(t.stdout) else this;
      if s.end == Running && tryPeer && to.held != [] then s.WritePeer(t.peer) else s
    }

    function Step(t: Turn): State {
      var s := Reads(t);
      if s.end != Running then s else
      s.Writes(t, (to.held != [] && t.sockWritable) || s.to != to,
               (fr.held != [] && t.stdoutReady) || s.fr != fr)
    }
  }

  const START := State(Pipe(0, []), Pipe(0, []), false, 0, Running, Traffic([], [], [], []))

  function Run(s: State, ts: seq<Turn>): State
    decreases ts
  {
    if ts == [] || s.end != Running then s else Run(s.Step(ts[0]), ts[1..])
  }

  // ---- the program

  class Client {
    const to: Buffer
    const fr: Buffer
    var stdineof: bool
    var fins: nat
    var end: End
    ghost var io: Traffic

    constructor ()
      ensures Valid() && View() == START
      ensures fresh(to) && fresh(fr) && fresh(to.data) && fresh(fr.data)
    {
      to := new Buffer();
      fr := new Buffer();
      stdineof, fins, end, io := false, 0, Running, START.io;
    }

    ghost predicate Valid()
      reads this, to, fr
    {
      && to != fr && to.data != fr.data
      && to.Valid() && fr.Valid()
    }

    ghost function View(): State
      requires Valid()
      reads this, to, to.data, fr, fr.data
    {
      State(to.View(), fr.View(), stdineof, fins, end, io)
    }

    method ReadStdin(r: Reading) returns (some: bool)
      requires Valid() && to.iptr < MAXLINE
      modifies this, to, to.data
      ensures Valid() && View() == old(View()).ReadStdin(r)
      ensures some == (View().to != old(View().to))
    {
      some := false;
      match r {
        case ReadBlocks =>
        case ReadFails => end := Failed;
        case Data(bs) =>
          if bs == [] {
            stdineof := true;
            if to.optr == to.iptr {
              fins := fins + 1;
            }
          } else {
            var got := Cut(bs, MAXLINE - to.iptr);
            to.Read(got);
            io := io.(stdin := io.stdin + got);
            some := true;
          }
      }
    }

    method ReadSock(r: Reading) returns (some: bool)
      requires Valid() && fr.iptr < MAXLINE
      modifies this, fr, fr.data
      ensures Valid() && View() == old(View()).ReadSock(r)
      ensures some == (View().fr != old(View().fr))
    {
      some := false;
      match r {
        case ReadBlocks =>
        case ReadFails => end := Failed;
        case Data(bs) =>
          if bs == [] {
            end := if stdineof then Returned else Premature;
          } else {
            var got := Cut(bs, MAXLINE - fr.iptr);
            fr.Read(got);
            io := io.(fromPeer := io.fromPeer + got);
            some := true;
          }
      }
    }

    method WriteStdout(w: Writing)
      requires Valid()
      modifies this, fr
      ensures Valid() && View() == old(View()).WriteStdout(w)
    {
      match w {
        case WriteBlocks =>
        case WriteFails => end := Failed;
        case Wrote(n) =>
          var k := Least(n, fr.iptr - fr.optr);
          io := io.(stdout := io.stdout + fr.View().held[..k]);
          fr.Wrote(k);
      }
    }

    method WritePeer(w: Writing)
      requires Valid()
      modifies this, to
      ensures Valid() && View() == old(View()).WritePeer(w)
    {
      match w {
        case WriteBlocks =>
        case WriteFails => end := Failed;
        case Wrote(n) =>
          hide Pipe.Wrote;
          var k := Least(n, to.iptr - to.optr);
          io := io.(toPeer := io.toPeer + to.View().held[..k]);
          to.Wrote(k);
          assert |to.View().held| == to.iptr - to.optr && fr.View() == old(fr.View());
          if to.optr == to.iptr && stdineof {
            fins := fins + 1;
          }
      }
    }

    /** Both reads; `tryPeer` and `tryStdout` are the bits of `wset`. */
    method Reads(t: Turn) returns (tryPeer: bool, tryStdout: bool)
      requires Valid() && end == Running
      modifies this, to, fr, to.data, fr.data
      ensures Valid() && View() == old(View()).Reads(t)
      ensures tryPeer == ((old(View().to).held != [] && t.sockWritable) || View().to != old(View()).to)
      ensures tryStdout == ((old(View().fr).held != [] && t.stdoutReady) || View().fr != old(View()).fr)
    {
      tryPeer := to.optr != to.iptr && t.sockWritable;
      tryStdout := fr.optr != fr.iptr && t.stdoutReady;
      if !stdineof && to.iptr < MAXLINE && t.stdinReady {
        var some := ReadStdin(t.stdin);
        tryPeer := tryPeer || some;
      }
      if end == Running && fr.iptr < MAXLINE && t.sockReady {
        var some := ReadSock(t.sock);
        tryStdout := tryStdout || some;
      }
    }

    /** Both writes. */
    method Writes(t: Turn, tryPeer: bool, tryStdout: bool)
      requires Valid() && end == Running
      modifies this, to, fr
      ensures Valid() && View() == old(View()).Writes(t, tryPeer, tryStdout)
    {
      if tryStdout && fr.optr != fr.iptr {
        WriteStdout(t.stdout);
      }
      if end == Running && tryPeer && to.optr != to.iptr {
        WritePeer(t.peer);
      }
    }

    /** One turn of the loop. */
    method Step(t: Turn)
      requires Valid() && end == Running
      modifies this, to, fr, to.data, fr.data
      ensures Valid() && View() == old(View()).Step(t)
    {
      hide State.Reads, State.Writes;
      var tryPeer, tryStdout := Reads(t);
      if end == Running {
        Writes(t, tryPeer, tryStdout);
      }
    }

    /** The loop, for as long as the script lasts or until the program ends. */
    method StrCli(ts: seq<Turn>)
      requires Valid()
      modifies this, to, fr, to.data, fr.data
      ensures Valid() && View() == Run(old(View()), ts)
    {
      var i := 0;
      while i < |ts| && end == Running
        invariant 0 <= i <= |ts| && Valid()
        invariant Run(old(View()), ts) == Run(View(), ts[i..])
      {
        assert ts[i..][0] == ts[i] && ts[i..][1..] == ts[i + 1..];
        Step(ts[i]);
        i := i + 1;
      }
    }
  }

  // ---- every run

  /** Nothing is lost, duplicated, reordered or sent the wrong way. */
  ghost predicate Conserves(s: State) {
    s.io.stdin == s.io.toPeer + s.to.held && s.io.fromPeer == s.io.stdout + s.fr.held
  }

  ghost predicate Inv(s: State) {
    && s.to.Sound() && s.fr.Sound() && Conserves(s)
    && s.fins == (if s.stdineof && s.to.held == [] then 1 else 0)
    && (s.end == Returned ==> s.stdineof)
    && (s.end == Premature ==> !s.stdineof)
  }

  lemma {:induction false} Regroup(a: seq<Octet>, b: seq<Octet>, c: seq<Octet>, k: nat)
    requires k <= |b|
    ensures (a + b) + c == a + (b + c) && a + b == (a + b[..k]) + b[k..]
  {
  }

  lemma {:induction false} ReadsKeep(s: State, t: Turn)
    requires Inv(s) && s.end == Running
    ensures Inv(s.Reads(t))
  {
    if s.WantsStdin() && t.stdin.Data? && t.stdin.bytes != [] {
      Regroup(s.io.toPeer, s.to.held, Cut(t.stdin.bytes, MAXLINE - s.to.Iptr()), 0);
    }
    if s.WantsSock() && t.sock.Data? && t.sock.bytes != [] {
      Regroup(s.io.stdout, s.fr.held, Cut(t.sock.bytes, MAXLINE - s.fr.Iptr()), 0);
    }
  }

  lemma {:induction false} WritesKeep(s: State, t: Turn, tryPeer: bool, tryStdout: bool)
    requires Inv(s) && s.end == Running
    ensures Inv(s.Writes(t, tryPeer, tryStdout))
  {
    if t.stdout.Wrote? {
      Regroup(s.io.stdout, s.fr.held, [], Least(t.stdout.n, |s.fr.held|));
    }
    if t.peer.Wrote? {
      Regroup(s.io.toPeer, s.to.held, [], Least(t.peer.n, |s.to.held|));
    }
  }

  lemma {:induction false} StepKeeps(s: State, t: Turn)
    requires Inv(s) && s.end == Running
    ensures Inv(s.Step(t))
  {
    var r := s.Reads(t);
    ReadsKeep(s, t);
    if r.end == Running {
      WritesKeep(r, t, (s.to.held != [] && t.sockWritable) || r.to != s.to,
                 (s.fr.held != [] && t.stdoutReady) || r.fr != s.fr);
    }
  }

  lemma {:induction false} RunKeeps(s: State, ts: seq<Turn>)
    requires Inv(s)
    ensures Inv(Run(s, ts))
    decreases ts
  {
    if ts != [] && s.end == Running {
      StepKeeps(s, ts[0]);
      RunKeeps(s.Step(ts[0]), ts[1..]);
    }
  }

  // ---- what a turn does, from the script alone

  predicate ReadsStdin(s: State, t: Turn) { !s.stdineof && s.to.Iptr() < 4096 && t.stdinReady }

  predicate ReadsSock(s: State, t: Turn) {
    !(ReadsStdin(s, t) && t.stdin.ReadFails?) && s.fr.Iptr() < 4096 && t.sockReady
  }

  /** The bytes of each read: what there is, as far as there is room. */
  function FromStdin(s: State, t: Turn): seq<Octet> {
    if ReadsStdin(s, t) && t.stdin.Data? then Cut(t.stdin.bytes, 4096 - s.to.Iptr()) else []
  }

  function FromSock(s: State, t: Turn): seq<Octet> {
    if ReadsSock(s, t) && t.sock.Data? then Cut(t.sock.bytes, 4096 - s.fr.Iptr()) else []
  }

  predicate AtEof(s: State, t: Turn) { s.stdineof || (ReadsStdin(s, t) && t.stdin == Data([])) }

  function EndOfReads(s: State, t: Turn): End {
    if (ReadsStdin(s, t) && t.stdin.ReadFails?) || (ReadsSock(s, t) && t.sock.ReadFails?) then Failed
    else if ReadsSock(s, t) && t.sock == Data([]) then (if AtEof(s, t) then Returned else Premature)
    else Running
  }

  predicate WritesStdout(s: State, t: Turn) {
    EndOfReads(s, t) == Running && ((s.fr.held != [] && t.stdoutReady) || FromSock(s, t) != [])
  }

  predicate WritesPeer(s: State, t: Turn) {
    && EndOfReads(s, t) == Running && !(WritesStdout(s, t) && t.stdout.WriteFails?)
    && ((s.to.held != [] && t.sockWritable) || FromStdin(s, t) != [])
  }

  /** The bytes of each write: what the buffer holds by then, as far as the descriptor takes it. */
  function ToStdout(s: State, t: Turn): seq<Octet> {
    if WritesStdout(s, t) && t.stdout.Wrote? then Cut(s.fr.held + FromSock(s, t), t.stdout.n) else []
  }

  function ToPeer(s: State, t: Turn): seq<Octet> {
    if WritesPeer(s, t) && t.peer.Wrote? then Cut(s.to.held + FromStdin(s, t), t.peer.n) else []
  }

  lemma {:induction false} ReadsMean(s: State, t: Turn)
    requires s.end == Running
    ensures var r := s.Reads(t);
            && r.io == s.io.(stdin := s.io.stdin + FromStdin(s, t), fromPeer := s.io.fromPeer + FromSock(s, t))
            && r.to == Pipe(s.to.optr, s.to.held + FromStdin(s, t))
            && r.fr == Pipe(s.fr.optr, s.fr.held + FromSock(s, t))
            && r.stdineof == AtEof(s, t) && r.end == EndOfReads(s, t)
  {
    assert s.io.stdin + [] == s.io.stdin && s.io.fromPeer + [] == s.io.fromPeer;
    assert s.to.held + [] == s.to.held && s.fr.held + [] == s.fr.held;
  }

  lemma {:induction false} WritesMean(r: State, t: Turn, tryPeer: bool, tryStdout: bool)
    requires r.end == Running
    ensures var w := r.Writes(t, tryPeer, tryStdout);
            var out := tryStdout && r.fr.held != [];
            var peer := tryPeer && r.to.held != [] && !(out && t.stdout.WriteFails?);
            && w.io == r.io.(stdout := r.io.stdout + (if out && t.stdout.Wrote? then Cut(r.fr.held, t.stdout.n) else []),
                             toPeer := r.io.toPeer + (if peer && t.peer.Wrote? then Cut(r.to.held, t.peer.n) else []))
            && w.stdineof == r.stdineof
            && w.end == if (out && t.stdout.WriteFails?) || (peer && t.peer.WriteFails?) then Failed else Running
  {
    assert r.io.stdout + [] == r.io.stdout && r.io.toPeer + [] == r.io.toPeer;
  }

  /** One turn in closed form: what it reads, what it writes and how it ends. */
  lemma {:induction false} TurnMeans(s: State, t: Turn)
    requires s.end == Running
    ensures var r := s.Step(t);
            && r.io == Traffic(s.io.stdin + FromStdin(s, t), s.io.toPeer + ToPeer(s, t),
                               s.io.fromPeer + FromSock(s, t), s.io.stdout + ToStdout(s, t))
            && r.stdineof == AtEof(s, t)
            && r.end == if EndOfReads(s, t) != Running then EndOfReads(s, t)
                        else if WritesStdout(s, t) && t.stdout.WriteFails? then Failed
                        else if WritesPeer(s, t) && t.peer.WriteFails? then Failed else Running
  {
    hide State.Reads, State.Writes, AtEof, FromSock, FromStdin, EndOfReads;
    ReadsMean(s, t);
    var r := s.Reads(t);
    if r.end == Running {
      WritesMean(r, t, (s.to.held != [] && t.sockWritable) || r.to != s.to,
                 (s.fr.held != [] && t.stdoutReady) || r.fr != s.fr);
      Longer(s.to.held, FromStdin(s, t));
      Longer(s.fr.held, FromSock(s, t));
    } else {
      assert s.io.stdout + [] == s.io.stdout && s.io.toPeer + [] == s.io.toPeer;
    }
  }

  lemma {:induction false} Longer(a: seq<Octet>, b: seq<Octet>)
    ensures a + b == a <==> b == []
    ensures a + b == [] <==> a == [] && b == []
  {
    assert |a + b| == |a| + |b|;
  }

  /** All that the turns of a run moved over each descriptor. */
  function Moved(s: State, ts: seq<Turn>): Traffic
    decreases ts
  {
    if ts == [] || s.end != Running then Traffic([], [], [], []) else
    var t, rest := ts[0], Moved(s.Step(ts[0]), ts[1..]);
    Traffic(FromStdin(s, t) + rest.stdin, ToPeer(s, t) + rest.toPeer,
            FromSock(s, t) + rest.fromPeer, ToStdout(s, t) + rest.stdout)
  }

  /** Over a whole run every descriptor has carried what its reads and writes moved, in order. */
  lemma {:induction false} RunMoves(s: State, ts: seq<Turn>)
    ensures var r, m := Run(s, ts).io, Moved(s, ts);
            && r.stdin == s.io.stdin + m.stdin && r.toPeer == s.io.toPeer + m.toPeer
            && r.fromPeer == s.io.fromPeer + m.fromPeer && r.stdout == s.io.stdout + m.stdout
    decreases ts
  {
    hide State.Step, FromStdin, ToPeer, FromSock, ToStdout;
    if ts != [] && s.end == Running {
      var t := ts[0];
      TurnMeans(s, t);
      RunMoves(s.Step(t), ts[1..]);
      var m := Moved(s.Step(t), ts[1..]);
      Regroup(s.io.stdin, FromStdin(s, t), m.stdin, 0);
      Regroup(s.io.toPeer, ToPeer(s, t), m.toPeer, 0);
      Regroup(s.io.fromPeer, FromSock(s, t), m.fromPeer, 0);
      Regroup(s.io.stdout, ToStdout(s, t), m.stdout, 0);
    }
  }

  /** At every turn of every run: what reached the socket and what is still in `to` make up
      what was read from stdin, and likewise from socket to stdout; there has been one FIN if
      stdin is at its end and `to` is empty, and none otherwise; each buffer can be read into
      or drained, so that `select` is never called with nothing to wait for. */
  lemma {:induction false} EveryRun(ts: seq<Turn>)
    ensures var s, m := Run(START, ts), Moved(START, ts);
            && s.io == m
            && s.io.stdin == s.io.toPeer + s.to.held
            && s.io.fromPeer == s.io.stdout + s.fr.held
            && s.fins == (if s.stdineof && s.to.held == [] then 1 else 0)
            && (s.fins == 1 ==> s.io.toPeer == s.io.stdin)
            && (s.stdineof || s.WantsStdin() || s.WantsPeer())
            && (s.WantsSock() || s.WantsStdout())
  {
    RunKeeps(START, ts);
    RunMoves(START, ts);
  }

  /** The FIN is the last thing on the socket: afterwards nothing is read from stdin, nothing is
      written to the socket, and no second FIN is sent. */
  lemma {:induction false} FinIsLast(s: State, ts: seq<Turn>)
    requires Inv(s) && s.fins == 1
    ensures var r := Run(s, ts);
            r.io.toPeer == s.io.toPeer == r.io.stdin == s.io.stdin && r.to == s.to && r.fins == 1
    decreases ts
  {
    if ts != [] && s.end == Running {
      StepKeeps(s, ts[0]);
      assert var r := s.Step(ts[0]);
        r.to == s.to && r.fins == 1 && r.io.stdin == s.io.stdin && r.io.toPeer == s.io.toPeer;
      hide State.Step, Inv;
      FinIsLast(s.Step(ts[0]), ts[1..]);
    }
  }

  /** A turn in which everything can be written leaves both buffers empty, and sends the FIN if
      stdin is at its end. */
  lemma {:induction false} FlushingTurn(s: State, t: Turn)
    requires Inv(s) && s.end == Running
    requires t.sockWritable && t.stdoutReady
    requires t.stdout.Wrote? && t.stdout.n >= MAXLINE && t.peer.Wrote? && t.peer.n >= MAXLINE
    ensures var r := s.Step(t);
            r.end == Running ==>
              r.io.toPeer == r.io.stdin && r.io.stdout == r.io.fromPeer && (r.stdineof <==> r.fins == 1)
  {
    ReadsKeep(s, t);
    StepKeeps(s, t);
  }

  /** What the socket sent is not always written to stdout by the time `str_cli` returns: it is
      exactly when `fr` is empty as the turn that sees the end of the socket begins. */
  lemma {:induction false} DrainedOnReturn(s: State, t: Turn)
    requires Inv(s) && s.end == Running && s.Step(t).end == Returned
    ensures var r := s.Step(t); r.io.stdout == r.io.fromPeer <==> s.fr.held == []
  {
    assert s.Step(t) == s.Reads(t);
  }

  lemma {:induction false} ReturnCanLoseOutput()
    ensures exists ts :: var s := Run(START, ts);
              s.end == Returned && s.fins == 1 && s.io.fromPeer == [65] && s.io.stdout == []
  {
    var first := Turn(true, true, true, true, Data([]), Data([65]), WriteBlocks, WriteBlocks);
    var second := first.(sock := Data([]));
    var ts := [first, second];
    assert ts[1..] == [second] && [second][1..] == [];
    var s := START.Step(first);
    assert s.fr.held == [] + Cut([65], MAXLINE) == [65] && s.fins == 1 && s.end == Running;
    assert Run(START, ts) == Run(s, [second]) == s.Step(second);
  }
}
