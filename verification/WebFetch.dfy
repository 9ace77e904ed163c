/** The parallel fetcher: up to `maxnconn` nonblocking connections at a time, each file idle, then
    connecting, then being read, then done.

    What the system calls answer is an arbitrary script, except that `Socket` returns the lowest
    descriptor that is not open. */
module WebFetch {
  import opened Basics
  import opened Counting

  datatype Flag = Idle | Connecting | Reading | Done

  datatype File = File(flag: Flag, fd: nat)

  /** One turn of the main loop: the files whose `connect` succeeds at once, the descriptors
      `Select` reports of those asked about, and the files at whose end a `Read` arrives. */
  datatype Turn = Turn(now: set<nat>, rs: set<nat>, ws: set<nat>, eof: set<nat>)

  datatype End = Running | NothingFound

  /** The lowest number from `i` on that is not in `open`. */
  function Lowest(open: set<nat>, i: nat): (r: nat)
    ensures r !in open && i <= r
    ensures forall j :: i <= j < r ==> j in open
    decreases open
  {
    if i !in open then i else Lowest(open - {i}, i + 1)
  }

  function FirstIdle(files: seq<File>, i: nat): (k: nat)
    requires i <= |files|
    ensures i <= k <= |files| && (k < |files| ==> files[k].flag == Idle)
    ensures forall j :: i <= j < k ==> files[j].flag != Idle
    decreases |files| - i
  {
    if i == |files| || files[i].flag == Idle then i else FirstIdle(files, i + 1)
  }

  /** The globals of the program; `open` is the kernel's set of open descriptors. */
  datatype State = State(files: seq<File>, nconn: int, nlefttoconn: int, nlefttoread: int,
                         rset: set<nat>, wset: set<nat>, maxfd: int, open: set<nat>, end: End)
  {
    function WriteGetCmd(i: nat): State
      requires i < |files|
    {
      this.(files := files[i := files[i].(flag := Reading)], rset := rset + {files[i].fd},
            maxfd := Max(maxfd, files[i].fd))
    }

    function StartConnect(i: nat, now: bool): State
      requires i < |files|
    {
      var fd := Lowest(open, 0);
      var s := this.(files := files[i := File(files[i].flag, fd)], open := open + {fd});
      if now then s.WriteGetCmd(i) else
      s.(files := files[i := File(Connecting, fd)], rset := rset + {fd}, wset := wset + {fd},
         maxfd := Max(maxfd, fd))
    }

    function ConnectOne(i: nat, now: bool): (r: State)
      requires i < |files|
      ensures r.nlefttoconn == nlefttoconn - 1
    {
      StartConnect(i, now).(nconn := nconn + 1, nlefttoconn := nlefttoconn - 1)
    }

    /** The inner loop that starts connections. */
    function Connect(maxnconn: int, now: set<nat>): State
      decreases nlefttoconn
    {
      if !(nconn < maxnconn && nlefttoconn > 0) then this else
      var i := FirstIdle(files, 0);
      if i == |files| then this.(end := NothingFound) else
      ConnectOne(i, i in now).Connect(maxnconn, now)
    }

    /** File `i` in the loop after `Select`, which reported `rs` and `ws`. */
    function Visit(i: nat, rs: set<nat>, ws: set<nat>, eof: set<nat>): State
      requires i < |files|
    {
      var File(flag, fd) := files[i];
      if flag == Connecting && (fd in rs || fd in ws) then this.(wset := wset - {fd}).WriteGetCmd(i)
      else if flag == Reading && fd in rs && i in eof then
        this.(files := files[i := File(Done, fd)], rset := rset - {fd}, open := open - {fd},
              nconn := nconn - 1, nlefttoread := nlefttoread - 1)
      else this
    }

    function Scan(i: nat, rs: set<nat>, ws: set<nat>, eof: set<nat>): State
      requires i <= |files|
      decreases |files| - i
    {
      if i == |files| then this else Visit(i, rs, ws, eof).Scan(i + 1, rs, ws, eof)
    }

    function Step(t: Turn, maxnconn: int): State {
      var s := Connect(maxnconn, t.now);
      if s.end != Running then s else s.Scan(0, s.rset * t.rs, s.wset * t.ws, t.eof)
    }
  }

  function Run(s: State, ts: seq<Turn>, maxnconn: int): State
    decreases ts
  {
    if ts == [] || s.end != Running || s.nlefttoread <= 0 then s
    else Run(s.Step(ts[0], maxnconn), ts[1..], maxnconn)
  }

  // ---- what every step keeps

  function Flags(files: seq<File>): seq<Flag> {
    seq(|files|, i requires 0 <= i < |files| => files[i].flag)
  }

  /** The counters count what they say. */
  ghost predicate Counted(s: State, maxnconn: int) {
    && s.nlefttoconn == Tally(Flags(s.files), Idle)
    && s.nconn == Tally(Flags(s.files), Connecting) + Tally(Flags(s.files), Reading)
    && s.nlefttoread == s.nlefttoconn + s.nconn
    && s.nconn <= Max(0, maxnconn)
  }

  const LIVE: set<Flag> := {Connecting, Reading}

  /** The descriptors of the files in one of the states `fl`. */
  function FdsOf(files: seq<File>, fl: set<Flag>): set<nat> {
    set i {:trigger files[i]} | 0 <= i < |files| && files[i].flag in fl :: files[i].fd
  }

  predicate Distinct(files: seq<File>) {
    forall i, j {:trigger files[i], files[j]} ::
      0 <= i < j < |files| && files[i].flag in LIVE && files[j].flag in LIVE ==> files[i].fd != files[j].fd
  }

  /** The descriptor sets are those of the files in the right state, and no two files share a
      descriptor; `base` are the other descriptors of the process. */
  ghost predicate Sets(s: State, base: set<nat>) {
    && s.rset == FdsOf(s.files, LIVE) && s.wset == FdsOf(s.files, {Connecting})
    && Distinct(s.files)
    && s.open == base + s.rset && base !! s.rset
    && forall fd :: fd in s.rset ==> fd <= s.maxfd
  }

  ghost predicate Inv(s: State, maxnconn: int, base: set<nat>) {
    Counted(s, maxnconn) && Sets(s, base) && s.end == Running
  }

  lemma {:induction false} FlagsSet(files: seq<File>, i: nat, f: File, t: Flag)
    requires i < |files|
    ensures Tally(Flags(files[i := f]), t) + (if files[i].flag == t then 1 else 0)
         == Tally(Flags(files), t) + if f.flag == t then 1 else 0
  {
    assert Flags(files[i := f]) == Flags(files)[i := f.flag];
    TallySet(Flags(files), i, f.flag, t);
  }

  lemma {:induction false} IdleFound(files: seq<File>)
    ensures Tally(Flags(files), Idle) > 0 <==> FirstIdle(files, 0) < |files|
  {
    TallyNone(Flags(files), Idle);
    var k := FirstIdle(files, 0);
    assert k < |files| ==> Flags(files)[k] == Idle;
  }

  lemma {:induction false} FdsAdd(files: seq<File>, i: nat, f: File, fl: set<Flag>)
    requires i < |files| && files[i].flag !in fl
    ensures FdsOf(files[i := f], fl) == if f.flag in fl then FdsOf(files, fl) + {f.fd} else FdsOf(files, fl)
  {
    var after := files[i := f];
    assert f.flag in fl ==> after[i].fd in FdsOf(after, fl);
    forall fd | fd in FdsOf(files, fl)
      ensures fd in FdsOf(after, fl)
    {
      var k :| 0 <= k < |files| && files[k].flag in fl && files[k].fd == fd;
      assert after[k] == files[k];
    }
  }

  lemma {:induction false} FdsKeep(files: seq<File>, i: nat, f: File, fl: set<Flag>)
    requires i < |files| && files[i].flag in fl && f.flag in fl && f.fd == files[i].fd
    ensures FdsOf(files[i := f], fl) == FdsOf(files, fl)
  {
    var after := files[i := f];
    forall fd | fd in FdsOf(files, fl)
      ensures fd in FdsOf(after, fl)
    {
      var k :| 0 <= k < |files| && files[k].flag in fl && files[k].fd == fd;
      assert after[k].fd == fd;
    }
  }

  lemma {:induction false} FdsDrop(files: seq<File>, i: nat, f: File, fl: set<Flag>)
    requires i < |files| && files[i].flag in fl && f.flag !in fl && fl <= LIVE && Distinct(files)
    ensures FdsOf(files[i := f], fl) == FdsOf(files, fl) - {files[i].fd}
  {
    var after := files[i := f];
    forall fd | fd in FdsOf(files, fl) && fd != files[i].fd
      ensures fd in FdsOf(after, fl)
    {
      var k :| 0 <= k < |files| && files[k].flag in fl && files[k].fd == fd;
      assert after[k] == files[k];
    }
  }

  lemma {:induction false} StartSets(s: State, i: nat, now: bool, base: set<nat>)
    requires Sets(s, base) && i < |s.files| && s.files[i].flag == Idle
    ensures Sets(s.StartConnect(i, now), base)
  {
    var fd := Lowest(s.open, 0);
    var f := File(if now then Reading else Connecting, fd);
    assert s.StartConnect(i, now).files == s.files[i := f];
    FdsAdd(s.files, i, f, LIVE);
    FdsAdd(s.files, i, f, {Connecting});
    assert Distinct(s.files[i := f]) by {
      assert forall k {:trigger s.files[k]} :: 0 <= k < |s.files| && s.files[k].flag in LIVE ==> s.files[k].fd in s.rset;
    }
    hide FdsOf, Distinct;
  }

  lemma {:induction false} VisitSets(s: State, i: nat, rs: set<nat>, ws: set<nat>, eof: set<nat>, base: set<nat>)
    requires Sets(s, base) && i < |s.files|
    ensures Sets(s.Visit(i, rs, ws, eof), base)
  {
    var File(flag, fd) := s.files[i];
    if flag == Connecting {
      var f := File(Reading, fd);
      FdsKeep(s.files, i, f, LIVE);
      FdsDrop(s.files, i, f, {Connecting});
      assert Distinct(s.files[i := f]) && fd in s.rset;
    } else if flag == Reading {
      var f := File(Done, fd);
      FdsDrop(s.files, i, f, LIVE);
      FdsAdd(s.files, i, f, {Connecting});
      assert Distinct(s.files[i := f]) && fd in s.rset;
    }
    hide FdsOf, Distinct;
  }

  lemma {:induction false} StartCounts(s: State, i: nat, now: bool, maxnconn: int)
    requires Counted(s, maxnconn) && i < |s.files| && s.files[i].flag == Idle && s.nconn < maxnconn
    ensures Counted(s.ConnectOne(i, now), maxnconn)
  {
    var f := File(if now then Reading else Connecting, Lowest(s.open, 0));
    assert s.StartConnect(i, now).files == s.files[i := f];
    FlagsSet(s.files, i, f, Idle);
    FlagsSet(s.files, i, f, Connecting);
    FlagsSet(s.files, i, f, Reading);
    hide Flags, Tally;
  }

  lemma {:induction false} VisitCounts(s: State, i: nat, rs: set<nat>, ws: set<nat>, eof: set<nat>, maxnconn: int)
    requires Counted(s, maxnconn) && i < |s.files|
    ensures Counted(s.Visit(i, rs, ws, eof), maxnconn)
  {
    var f := s.Visit(i, rs, ws, eof).files[i];
    assert s.Visit(i, rs, ws, eof).files == s.files[i := f];
    FlagsSet(s.files, i, f, Idle);
    FlagsSet(s.files, i, f, Connecting);
    FlagsSet(s.files, i, f, Reading);
    hide Flags, Tally;
  }

  lemma {:induction false} ConnectKeeps(s: State, maxnconn: int, now: set<nat>, base: set<nat>)
    requires Inv(s, maxnconn, base)
    ensures var r := s.Connect(maxnconn, now);
            && Inv(r, maxnconn, base) && |r.files| == |s.files| && r.nlefttoread == s.nlefttoread
            && (r.nconn >= maxnconn || r.nlefttoconn == 0)
    decreases s.nlefttoconn
  {
    if s.nconn < maxnconn && s.nlefttoconn > 0 {
      IdleFound(s.files);
      hide FdsOf, Distinct, Flags, Tally;
      var i := FirstIdle(s.files, 0);
      var r := s.ConnectOne(i, i in now);
      StartCounts(s, i, i in now, maxnconn);
      StartSets(s, i, i in now, base);
      assert Inv(r, maxnconn, base) && |r.files| == |s.files| && r.nlefttoread == s.nlefttoread;
      hide State.ConnectOne, Sets, Counted;
      ConnectKeeps(r, maxnconn, now, base);
    }
  }

  lemma {:induction false} ScanKeeps(s: State, i: nat, rs: set<nat>, ws: set<nat>, eof: set<nat>,
                                     maxnconn: int, base: set<nat>)
    requires Inv(s, maxnconn, base) && i <= |s.files|
    ensures Inv(s.Scan(i, rs, ws, eof), maxnconn, base)
    decreases |s.files| - i
  {
    if i < |s.files| {
      VisitCounts(s, i, rs, ws, eof, maxnconn);
      VisitSets(s, i, rs, ws, eof, base);
      hide Sets, Counted;
      ScanKeeps(s.Visit(i, rs, ws, eof), i + 1, rs, ws, eof, maxnconn, base);
    }
  }

  lemma {:induction false} RunKeeps(s: State, ts: seq<Turn>, maxnconn: int, base: set<nat>)
    requires Inv(s, maxnconn, base)
    ensures Inv(Run(s, ts, maxnconn), maxnconn, base)
    decreases ts
  {
    hide Sets, Counted, State.Connect, State.Scan;
    if ts != [] && s.nlefttoread > 0 {
      var t := ts[0];
      ConnectKeeps(s, maxnconn, t.now, base);
      var r := s.Connect(maxnconn, t.now);
      ScanKeeps(r, 0, r.rset * t.rs, r.wset * t.ws, t.eof, maxnconn, base);
      RunKeeps(s.Step(t, maxnconn), ts[1..], maxnconn, base);
    }
  }

  // ---- every run

  function Start(files: seq<File>, base: set<nat>): State {
    State(files, 0, |files|, |files|, {}, {}, -1, base, Running)
  }

  lemma {:induction false} AllIdle(fl: seq<Flag>)
    requires forall i :: 0 <= i < |fl| ==> fl[i] == Idle
    ensures Tally(fl, Idle) == |fl| && Tally(fl, Connecting) == 0 && Tally(fl, Reading) == 0
    decreases fl
  {
    if fl != [] {
      AllIdle(fl[..|fl| - 1]);
    }
  }

  lemma {:induction false} StartKeeps(files: seq<File>, maxnconn: int, base: set<nat>)
    requires forall i :: 0 <= i < |files| ==> files[i].flag == Idle
    ensures Inv(Start(files, base), maxnconn, base)
  {
    AllIdle(Flags(files));
  }

  /** There is a descriptor to select on exactly when some file is connecting or being read. */
  lemma {:induction false} LiveSet(files: seq<File>)
    ensures FdsOf(files, LIVE) != {} <==> Tally(Flags(files), Connecting) + Tally(Flags(files), Reading) > 0
  {
    var fl := Flags(files);
    TallyNone(fl, Connecting);
    TallyNone(fl, Reading);
    if Connecting in fl || Reading in fl {
      var i :| 0 <= i < |fl| && fl[i] in LIVE;
      assert files[i].fd in FdsOf(files, LIVE);
    } else {
      forall i | 0 <= i < |files|
        ensures files[i].flag !in LIVE
      {
        assert fl[i] == files[i].flag;
      }
    }
    hide Tally;
  }

  /** In every run: the counters count the files in each state, at most `maxnconn` connections
      are open, `rset` and `wset` are exactly the descriptors of the live and of the connecting
      files, all different, and the only ones opened; `maxfd` bounds them. Starting connections
      always finds the idle file it looks for, and `Select` then waits on an empty read set just
      in case `maxnconn` is not positive. */
  lemma {:induction false} EveryRun(files: seq<File>, maxnconn: int, base: set<nat>, ts: seq<Turn>, now: set<nat>)
    requires forall i :: 0 <= i < |files| ==> files[i].flag == Idle
    ensures var s := Run(Start(files, base), ts, maxnconn);
            && Counted(s, maxnconn) && Sets(s, base) && s.end == Running
            && (s.nlefttoread > 0 ==>
                  var r := s.Connect(maxnconn, now);
                  r.end == Running && (r.rset != {} <==> maxnconn > 0))
  {
    StartKeeps(files, maxnconn, base);
    RunKeeps(Start(files, base), ts, maxnconn, base);
    var s := Run(Start(files, base), ts, maxnconn);
    ConnectKeeps(s, maxnconn, now, base);
    LiveSet(s.Connect(maxnconn, now).files);
    hide Run, State.Connect, Start, Flags, Tally, FdsOf, Distinct;
  }

  /** One file and a limit of 0: nothing is started, and `Select` waits for nothing. */
  lemma {:induction false} LimitZero(base: set<nat>)
    ensures var s := Start([File(Idle, 0)], base);
            s.nlefttoread > 0 && s.Connect(0, {}) == s && s.rset == s.wset == {}
  {
  }

  /** A finished run has every file done, no descriptor left open and none selected. */
  lemma {:induction false} Finished(files: seq<File>, maxnconn: int, base: set<nat>, ts: seq<Turn>)
    requires forall i :: 0 <= i < |files| ==> files[i].flag == Idle
    ensures var s := Run(Start(files, base), ts, maxnconn);
            s.nlefttoread <= 0 ==>
              && (forall i :: 0 <= i < |s.files| ==> s.files[i].flag == Done)
              && s.rset == {} == s.wset && s.open == base && s.nconn == 0
  {
    EveryRun(files, maxnconn, base, ts, {});
    var s := Run(Start(files, base), ts, maxnconn);
    hide Run, Start, Distinct;
    if s.nlefttoread <= 0 {
      LiveSet(s.files);
      TallyNone(Flags(s.files), Idle);
      TallyNone(Flags(s.files), Connecting);
      TallyNone(Flags(s.files), Reading);
      forall i | 0 <= i < |s.files|
        ensures s.files[i].flag == Done
      {
        assert Flags(s.files)[i] == s.files[i].flag;
      }
    }
  }

  // ---- what a turn does to each file

  /** The idle files before file `k`. */
  function IdleBefore(files: seq<File>, k: nat): nat
    requires k <= |files|
  {
    if k == 0 then 0 else IdleBefore(files, k - 1) + One(files[k - 1].flag == Idle)
  }

  lemma {:induction false} IdleBeforeStart(files: seq<File>, i: nat, f: File, k: nat)
    requires i < |files| && k <= |files| && files[i].flag == Idle && f.flag != Idle
    ensures IdleBefore(files[i := f], k) == IdleBefore(files, k) - One(i < k)
  {
    if k > 0 {
      IdleBeforeStart(files, i, f, k - 1);
    }
  }

  lemma {:induction false} NoneBefore(files: seq<File>, k: nat)
    requires k <= |files| && forall j :: 0 <= j < k ==> files[j].flag != Idle
    ensures IdleBefore(files, k) == 0
  {
    if k > 0 {
      NoneBefore(files, k - 1);
    }
  }

  /** There is no idle file before `k` exactly if the first one does not come before it. */
  lemma {:induction false} IdleBeforeFirst(files: seq<File>, k: nat)
    requires k <= |files|
    ensures IdleBefore(files, k) == 0 <==> k <= FirstIdle(files, 0)
  {
    if k <= FirstIdle(files, 0) {
      NoneBefore(files, k);
    } else if k > 0 {
      IdleBeforeFirst(files, k - 1);
    }
  }

  /** The file `connect` leaves, from its flag before. */
  predicate Connected(was: File, f: File, starts: bool, now: bool) {
    if was.flag == Idle && starts then f.flag == (if now then Reading else Connecting) else f == was
  }

  /** Starting connections: the first idle files, as many as the limit leaves room for, and no other,
      are being read if their connection is there at once, and connecting otherwise. */
  lemma {:induction false} ConnectMeans(s: State, maxnconn: int, now: set<nat>, base: set<nat>, k: nat)
    requires Inv(s, maxnconn, base) && k < |s.files|
    ensures var r := s.Connect(maxnconn, now);
            && |r.files| == |s.files|
            && Connected(s.files[k], r.files[k], IdleBefore(s.files, k) < maxnconn - s.nconn, k in now)
    decreases s.nlefttoconn
  {
    hide FdsOf, Distinct, Flags, Tally, Lowest;
    IdleFound(s.files);
    IdleBeforeFirst(s.files, k);
    var i := FirstIdle(s.files, 0);
    if s.nconn < maxnconn && s.nlefttoconn > 0 {
      StartCounts(s, i, i in now, maxnconn);
      StartSets(s, i, i in now, base);
      var r := s.ConnectOne(i, i in now);
      IdleBeforeStart(s.files, i, r.files[i], k);
      assert r.files == s.files[i := r.files[i]];
      assert Sets(r, base);
      hide Counted, Sets;
      ConnectMeans(r, maxnconn, now, base, k);
    }
  }

  /** The file the loop after `Select` leaves: a connecting one that is ready is being read from then
      on, one being read is done at its end, and nothing else changes. */
  function Scanned(f: File, rs: set<nat>, ws: set<nat>, eof: bool): File {
    if f.flag == Connecting && (f.fd in rs || f.fd in ws) then File(Reading, f.fd)
    else if f.flag == Reading && f.fd in rs && eof then File(Done, f.fd)
    else f
  }

  lemma {:induction false} ScanMeans(s: State, i: nat, rs: set<nat>, ws: set<nat>, eof: set<nat>, k: nat)
    requires i <= |s.files| && k < |s.files|
    ensures var r := s.Scan(i, rs, ws, eof);
            && |r.files| == |s.files|
            && r.files[k] == if k < i then s.files[k] else Scanned(s.files[k], rs, ws, k in eof)
    decreases |s.files| - i
  {
    if i < |s.files| {
      ScanMeans(s.Visit(i, rs, ws, eof), i + 1, rs, ws, eof, k);
    }
  }

  lemma {:induction false} SetsSelect(s: State, base: set<nat>, k: nat)
    requires Sets(s, base) && k < |s.files|
    ensures s.files[k].flag in LIVE ==> s.files[k].fd in s.rset
    ensures s.files[k].flag == Connecting ==> s.files[k].fd in s.wset
  {
  }

  /** A whole turn in closed form, for any file. */
  lemma {:induction false} TurnMeans(s: State, t: Turn, maxnconn: int, base: set<nat>, k: nat)
    requires Inv(s, maxnconn, base) && k < |s.files|
    ensures var r := s.Step(t, maxnconn);
            && |r.files| == |s.files|
            && exists f :: && Connected(s.files[k], f, IdleBefore(s.files, k) < maxnconn - s.nconn, k in t.now)
                           && r.files[k] == Scanned(f, t.rs, t.ws, k in t.eof)
  {
    hide State.Connect, State.Scan, Sets, Counted, Connected;
    var r := s.Connect(maxnconn, t.now);
    ConnectKeeps(s, maxnconn, t.now, base);
    ConnectMeans(s, maxnconn, t.now, base, k);
    SetsSelect(r, base, k);
    ScanMeans(r, 0, r.rset * t.rs, r.wset * t.ws, t.eof, k);
    assert Scanned(r.files[k], r.rset * t.rs, r.wset * t.ws, k in t.eof) == Scanned(r.files[k], t.rs, t.ws, k in t.eof);
  }

  // ---- progress

  /** Does file `k` change state in a turn that reports `rs` and `ws`? */
  predicate Moves(s: State, k: nat, rs: set<nat>, ws: set<nat>, eof: set<nat>) {
    && k < |s.files|
    && var File(flag, fd) := s.files[k];
       || (flag == Connecting && (fd in rs || fd in ws))
       || (flag == Reading && fd in rs && k in eof)
  }

  /** How many changes of state are still to come, at most. */
  function Work(s: State): nat {
    var fl := Flags(s.files);
    2 * (Tally(fl, Idle) + Tally(fl, Connecting)) + Tally(fl, Reading)
  }

  lemma {:induction false} VisitWork(s: State, i: nat, rs: set<nat>, ws: set<nat>, eof: set<nat>)
    requires i < |s.files|
    ensures var r := s.Visit(i, rs, ws, eof);
            && Work(r) <= Work(s) && (Moves(s, i, rs, ws, eof) ==> Work(r) < Work(s))
            && |r.files| == |s.files|
            && forall k {:trigger r.files[k]} :: 0 <= k < |s.files| && k != i ==> r.files[k] == s.files[k]
  {
    var f := s.Visit(i, rs, ws, eof).files[i];
    assert s.Visit(i, rs, ws, eof).files == s.files[i := f];
    FlagsSet(s.files, i, f, Idle);
    FlagsSet(s.files, i, f, Connecting);
    FlagsSet(s.files, i, f, Reading);
    hide Flags, Tally;
  }

  lemma {:induction false} ScanWork(s: State, i: nat, rs: set<nat>, ws: set<nat>, eof: set<nat>, k: nat)
    requires i <= |s.files|
    ensures Work(s.Scan(i, rs, ws, eof)) <= Work(s)
    ensures i <= k && Moves(s, k, rs, ws, eof) ==> Work(s.Scan(i, rs, ws, eof)) < Work(s)
    decreases |s.files| - i
  {
    if i < |s.files| {
      VisitWork(s, i, rs, ws, eof);
      hide Work, State.Visit;
      ScanWork(s.Visit(i, rs, ws, eof), i + 1, rs, ws, eof, k);
    }
  }

  lemma {:induction false} StartWork(s: State, i: nat, now: bool)
    requires i < |s.files| && s.files[i].flag == Idle
    ensures Work(s.ConnectOne(i, now)) <= Work(s)
  {
    var f := s.StartConnect(i, now).files[i];
    assert s.StartConnect(i, now).files == s.files[i := f];
    FlagsSet(s.files, i, f, Idle);
    FlagsSet(s.files, i, f, Connecting);
    FlagsSet(s.files, i, f, Reading);
    hide Flags, Tally;
  }

  lemma {:induction false} ConnectWork(s: State, maxnconn: int, now: set<nat>)
    ensures Work(s.Connect(maxnconn, now)) <= Work(s)
    decreases s.nlefttoconn
  {
    hide Flags, Tally, State.ConnectOne;
    var i := FirstIdle(s.files, 0);
    if s.nconn < maxnconn && s.nlefttoconn > 0 && i < |s.files| {
      StartWork(s, i, i in now);
      ConnectWork(s.ConnectOne(i, i in now), maxnconn, now);
    }
  }

  /** Every turn changes the state of some file: its connection is established, or the read that
      follows is at its end. */
  ghost predicate Moving(s: State, ts: seq<Turn>, maxnconn: int)
    decreases ts
  {
    ts == [] || s.nlefttoread <= 0 ||
    var r := s.Connect(maxnconn, ts[0].now);
    && (exists k: nat :: Moves(r, k, r.rset * ts[0].rs, r.wset * ts[0].ws, ts[0].eof))
    && Moving(s.Step(ts[0], maxnconn), ts[1..], maxnconn)
  }

  /** Two moving turns per file are enough to fetch them all. */
  lemma {:induction false} Completes(s: State, ts: seq<Turn>, maxnconn: int, base: set<nat>)
    requires Inv(s, maxnconn, base) && Moving(s, ts, maxnconn) && |ts| >= Work(s)
    ensures Run(s, ts, maxnconn).nlefttoread <= 0
    decreases ts
  {
    if s.nlefttoread > 0 {
      hide Flags, Tally, Sets, State.Connect, State.Scan;
      assert Work(s) > 0;
      var t := ts[0];
      var r := s.Connect(maxnconn, t.now);
      ConnectKeeps(s, maxnconn, t.now, base);
      ConnectWork(s, maxnconn, t.now);
      hide Work, Counted;
      var k: nat :| Moves(r, k, r.rset * t.rs, r.wset * t.ws, t.eof);
      ScanWork(r, 0, r.rset * t.rs, r.wset * t.ws, t.eof, k);
      ScanKeeps(r, 0, r.rset * t.rs, r.wset * t.ws, t.eof, maxnconn, base);
      Completes(s.Step(t, maxnconn), ts[1..], maxnconn, base);
    }
  }

  lemma {:induction false} WholeWork(files: seq<File>, base: set<nat>)
    requires forall i :: 0 <= i < |files| ==> files[i].flag == Idle
    ensures Work(Start(files, base)) == 2 * |files|
  {
    AllIdle(Flags(files));
  }

  // ---- the program

  class Fetcher {
    const maxnconn: int
    const files: array<File>
    var nconn: int
    var nlefttoconn: int
    var nlefttoread: int
    var rset: set<nat>
    var wset: set<nat>
    var maxfd: int
    var open: set<nat>
    var end: End

    constructor (nfiles: nat, maxnconn: int, base: set<nat>)
      ensures fresh(files) && this.maxnconn == maxnconn
      ensures files.Length == nfiles && forall i :: 0 <= i < nfiles ==> files[i].flag == Idle
      ensures View() == Start(files[..], base)
    {
      files := new File[nfiles](_ => File(Idle, 0));
      this.maxnconn := maxnconn;
      nconn, nlefttoconn, nlefttoread := 0, nfiles, nfiles;
      rset, wset, maxfd, open, end := {}, {}, -1, base, Running;
    }

    ghost function View(): State
      reads this, files
    {
      State(files[..], nconn, nlefttoconn, nlefttoread, rset, wset, maxfd, open, end)
    }

    method WriteGetCmd(i: nat)
      requires i < files.Length
      modifies this, files
      ensures View() == old(View()).WriteGetCmd(i)
    {
      files[i] := files[i].(flag := Reading);
      rset := rset + {files[i].fd};
      if files[i].fd > maxfd {
        maxfd := files[i].fd;
      }
    }

    method StartConnect(i: nat, now: bool)
      requires i < files.Length
      modifies this, files
      ensures View() == old(View()).StartConnect(i, now)
    {
      var fd := Lowest(open, 0);
      open := open + {fd};
      files[i] := files[i].(fd := fd);
      if now {
        WriteGetCmd(i);
        return;
      }
      files[i] := files[i].(flag := Connecting);
      rset := rset + {fd};
      wset := wset + {fd};
      if fd > maxfd {
        maxfd := fd;
      }
    }

    method FindIdle() returns (i: nat)
      ensures i == FirstIdle(files[..], 0)
    {
      i := 0;
      while i < files.Length
        invariant i <= files.Length && FirstIdle(files[..], i) == FirstIdle(files[..], 0)
      {
        if files[i].flag == Idle {
          break;
        }
        i := i + 1;
      }
    }

    method ConnectOne(i: nat, now: bool)
      requires i < files.Length
      modifies this, files
      ensures View() == old(View()).ConnectOne(i, now)
    {
      hide Lowest;
      StartConnect(i, now);
      nconn := nconn + 1;
      nlefttoconn := nlefttoconn - 1;
    }

    method Connect(now: set<nat>)
      modifies this, files
      ensures View() == old(View()).Connect(maxnconn, now)
    {
      hide State.ConnectOne, FirstIdle;
      while nconn < maxnconn && nlefttoconn > 0
        invariant View().Connect(maxnconn, now) == old(View()).Connect(maxnconn, now)
        decreases nlefttoconn
      {
        var i := FindIdle();
        if i == files.Length {
          end := NothingFound;
          return;
        }
        ConnectOne(i, i in now);
      }
    }

    /** A failed connection is only reported: the command is written all the same. */
    method Visit(i: nat, rs: set<nat>, ws: set<nat>, eof: set<nat>)
      requires i < files.Length
      modifies this, files
      ensures View() == old(View()).Visit(i, rs, ws, eof)
    {
      var flag, fd := files[i].flag, files[i].fd;
      if flag == Idle || flag == Done {
        return;
      }
      if flag == Connecting && (fd in rs || fd in ws) {
        wset := wset - {fd};
        WriteGetCmd(i);
      } else if flag == Reading && fd in rs && i in eof {
        open := open - {fd};
        files[i] := files[i].(flag := Done);
        rset := rset - {fd};
        nconn := nconn - 1;
        nlefttoread := nlefttoread - 1;
      }
    }

    method Scan(rs: set<nat>, ws: set<nat>, eof: set<nat>)
      modifies this, files
      ensures View() == old(View()).Scan(0, rs, ws, eof)
    {
      hide State.Visit;
      var i := 0;
      while i < files.Length
        invariant 0 <= i <= files.Length
        invariant View().Scan(i, rs, ws, eof) == old(View()).Scan(0, rs, ws, eof)
      {
        Visit(i, rs, ws, eof);
        i := i + 1;
      }
    }

    /** The main loop, for as long as the script lasts. */
    method Web(ts: seq<Turn>)
      modifies this, files
      ensures View() == Run(old(View()), ts, maxnconn)
    {
      hide State.Connect, State.Scan;
      var k := 0;
      while k < |ts| && end == Running && nlefttoread > 0
        invariant 0 <= k <= |ts| && Run(old(View()), ts, maxnconn) == Run(View(), ts[k..], maxnconn)
      {
        assert ts[k..][0] == ts[k] && ts[k..][1..] == ts[k + 1..];
        Connect(ts[k].now);
        if end == Running {
          Scan(rset * ts[k].rs, wset * ts[k].ws, ts[k].eof);
        }
        k := k + 1;
      }
    }
  }
}
