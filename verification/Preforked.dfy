/** The preforked server that passes descriptors: the parent accepts a connection, sends its
    descriptor down the stream pipe of a child that is not busy, and reads a byte from that pipe
    once the child is done.

    A run is any interleaving of the parent's steps with the children's. */
module Preforked {
  import opened Basics

  /** A child as the parent's table has it (`busy`, `count`), and what is really going on: the
      descriptors in the pipe towards it, the one it serves, the bytes in the pipe from it. */
  datatype Child = Child(busy: bool, count: nat, down: seq<int>, serving: Option<int>, up: nat)
  {
    /** The descriptors the child has still to deal with. */
    function Load(): multiset<int> {
      multiset(down) + if serving.Some? then multiset{serving.value} else multiset{}
    }

    /** One token outstanding if busy, none otherwise. */
    predicate Token() { |Load()| + up == if busy then 1 else 0 }
  }

  /** Where the parent is: before `Select`; after it, with the result; in the loop over the
      children, with what is left of the result. */
  datatype Pc =
    | Top
    | Selected(listen: bool, ready: seq<bool>, nsel: nat)
    | Scan(i: nat, ready: seq<bool>, nsel: nat)

  datatype End = Running | NoChildren

  /** `Parent(conn, fd)`: the parent's next step; `conn` says whether a connection is waiting and
      `fd` is the descriptor `Accept` returns, where the step needs them. */
  datatype Event = Parent(conn: bool, fd: int) | Receive(i: nat) | Finish(i: nat)

  /** How many bits are set from position `i` on. */
  function Bits(ready: seq<bool>, i: nat): nat
    decreases |ready| - i
  {
    if i >= |ready| then 0 else (if ready[i] then 1 else 0) + Bits(ready, i + 1)
  }

  /** The first child from position `i` on that is not busy, or the number of children. */
  function FirstFree(cs: seq<Child>, i: nat): (k: nat)
    requires i <= |cs|
    ensures i <= k <= |cs| && (k < |cs| ==> !cs[k].busy)
    ensures forall j :: i <= j < k ==> cs[j].busy
    decreases |cs| - i
  {
    if i == |cs| || !cs[i].busy then i else FirstFree(cs, i + 1)
  }

  datatype State = State(children: seq<Child>, navail: int, pc: Pc, end: End,
                         accepted: seq<int>, served: seq<int>)
  {
    predicate Shape() {
      match pc
      case Top => true
      case Selected(_, ready, _) => |ready| == |children|
      case Scan(_, ready, _) => |ready| == |children|
    }

    function Readable(): seq<bool> {
      seq(|children|, i requires 0 <= i < |children| => children[i].up > 0)
    }

    /** `Select`; the listening socket is left out when no child is available. It blocks as long
        as nothing is ready. */
    function Select(conn: bool): State {
      var listen := navail > 0 && conn;
      var nsel := Bits(Readable(), 0) + if listen then 1 else 0;
      if nsel == 0 then this else this.(pc := Selected(listen, Readable(), nsel))
    }

    /** A new connection goes to the first child that is not busy. */
    function Dispatch(fd: int): State
      requires pc.Selected? && pc.nsel > 0
    {
      var i := FirstFree(children, 0);
      if i == |children| then this.(end := NoChildren, accepted := accepted + [fd]) else
      var c := children[i];
      this.(children := children[i := c.(busy := true, count := c.count + 1, down := c.down + [fd])],
            navail := navail - 1, accepted := accepted + [fd],
            pc := if pc.nsel == 1 then Top else Scan(0, pc.ready, pc.nsel - 1))
    }

    /** One turn of the loop over the children. `Read` blocks if there is no byte. */
    function ScanStep(): State
      requires pc.Scan? && Shape()
    {
      var Scan(i, ready, nsel) := pc;
      if i >= |children| then this.(pc := Top)
      else if !ready[i] then this.(pc := Scan(i + 1, ready, nsel))
      else if children[i].up == 0 then this
      else
        var c := children[i];
        this.(children := children[i := c.(busy := false, up := c.up - 1)], navail := navail + 1,
              pc := if nsel <= 1 then Top else Scan(i + 1, ready, nsel - 1))
    }

    function ParentStep(conn: bool, fd: int): State
      requires Shape()
    {
      match pc
      case Top => Select(conn)
      case Selected(listen, ready, nsel) =>
        if listen && nsel > 0 then Dispatch(fd) else this.(pc := Scan(0, ready, nsel))
      case Scan(_, _, _) => ScanStep()
    }

    /** A child reads a descriptor from its pipe when it is not serving a client. */
    function ReceiveStep(i: nat): State {
      if i < |children| && children[i].serving.None? && children[i].down != [] then
        var c := children[i];
        this.(children := children[i := c.(serving := Some(c.down[0]), down := c.down[1..])])
      else this
    }

    function FinishStep(i: nat): State {
      if i < |children| && children[i].serving.Some? then
        var c := children[i];
        this.(children := children[i := c.(serving := None, up := c.up + 1)],
              served := served + [c.serving.value])
      else this
    }

    function Step(e: Event): State
      requires Shape()
    {
      match e
      case Parent(conn, fd) => ParentStep(conn, fd)
      case Receive(i) => ReceiveStep(i)
      case Finish(i) => FinishStep(i)
    }
  }

  // ---- sums over the children

  function Free(cs: seq<Child>): nat {
    if cs == [] then 0 else Free(cs[..|cs| - 1]) + if cs[|cs| - 1].busy then 0 else 1
  }

  function Count(cs: seq<Child>): nat {
    if cs == [] then 0 else Count(cs[..|cs| - 1]) + cs[|cs| - 1].count
  }

  function Loads(cs: seq<Child>): multiset<int> {
    if cs == [] then multiset{} else Loads(cs[..|cs| - 1]) + cs[|cs| - 1].Load()
  }

  lemma {:induction false} CountsSet(cs: seq<Child>, i: nat, c: Child)
    requires i < |cs|
    ensures Free(cs[i := c]) + (if cs[i].busy then 0 else 1) == Free(cs) + if c.busy then 0 else 1
    ensures Count(cs[i := c]) + cs[i].count == Count(cs) + c.count
    decreases cs
  {
    var n := |cs| - 1;
    if i == n {
      assert cs[i := c][..n] == cs[..n];
    } else {
      assert cs[i := c][..n] == cs[..n][i := c];
      CountsSet(cs[..n], i, c);
    }
  }

  lemma {:induction false} LoadsSet(cs: seq<Child>, i: nat, c: Child)
    requires i < |cs|
    ensures Loads(cs[i := c]) + cs[i].Load() == Loads(cs) + c.Load()
    decreases cs
  {
    hide Child.Load;
    var n := |cs| - 1;
    var last := cs[n].Load();
    if i == n {
      assert cs[i := c][..n] == cs[..n];
      assert Loads(cs[..n]) + c.Load() + last == Loads(cs[..n]) + last + c.Load();
    } else {
      var before, after := cs[..n], cs[..n][i := c];
      assert cs[i := c][..n] == after;
      LoadsSet(before, i, c);
      assert Loads(after) + last + cs[i].Load() == (Loads(after) + cs[i].Load()) + last;
      assert (Loads(before) + c.Load()) + last == Loads(before) + last + c.Load();
    }
  }

  lemma {:induction false} FreeMeans(cs: seq<Child>)
    ensures Free(cs) > 0 <==> FirstFree(cs, 0) < |cs|
    decreases cs
  {
    if cs != [] {
      var n := |cs| - 1;
      FreeMeans(cs[..n]);
      var k := FirstFree(cs, 0);
      assert k < n ==> !cs[..n][k].busy;
      var m := FirstFree(cs[..n], 0);
      assert m < n ==> !cs[m].busy;
    }
  }

  // ---- what every step keeps

  predicate Unread(cs: seq<Child>, ready: seq<bool>, i: nat)
    requires |ready| == |cs|
  {
    forall j {:trigger ready[j]} :: i <= j < |cs| && ready[j] ==> cs[j].up > 0
  }

  /** What the result of `Select` still means: the bits set are those of children whose byte has
      not been read, and `nsel` counts them. */
  predicate Fresh(s: State)
    requires s.Shape()
  {
    match s.pc
    case Top => true
    case Selected(listen, ready, nsel) =>
      && nsel == Bits(ready, 0) + (if listen then 1 else 0) && nsel > 0
      && (listen ==> s.navail > 0)
      && Unread(s.children, ready, 0)
    case Scan(i, ready, nsel) => nsel == Bits(ready, i) > 0 && Unread(s.children, ready, i)
  }

  predicate Tokens(cs: seq<Child>) {
    forall i {:trigger cs[i]} :: 0 <= i < |cs| ==> cs[i].Token()
  }

  /** With `n` connections accepted, which are `all`, of which those in `over` have been served. */
  ghost predicate Totals(cs: seq<Child>, navail: int, n: nat, all: multiset<int>, over: multiset<int>) {
    && Tokens(cs) && navail == Free(cs) && n == Count(cs) && all == over + Loads(cs)
  }

  ghost predicate Sums(cs: seq<Child>, navail: int, accepted: seq<int>, served: seq<int>) {
    Totals(cs, navail, |accepted|, multiset(accepted), multiset(served))
  }

  ghost predicate Inv(s: State) {
    && s.Shape() && Fresh(s) && s.end == Running
    && Sums(s.children, s.navail, s.accepted, s.served)
  }

  /** Changing one child changes the sums by what changes in the child. */
  lemma {:induction false} SumsSet(cs: seq<Child>, i: nat, d: Child, navail: int, n: nat, all: multiset<int>,
                                   over: multiset<int>, more: multiset<int>, done: multiset<int>)
    requires Totals(cs, navail, n, all, over) && i < |cs| && d.Token() && d.count >= cs[i].count
    requires cs[i].Load() + more == d.Load() + done
    ensures Totals(cs[i := d], navail + One(cs[i].busy) - One(d.busy), n + d.count - cs[i].count,
                 all + more, over + done)
  {
    CountsSet(cs, i, d);
    LoadsSet(cs, i, d);
    Balance(over, Loads(cs), Loads(cs[i := d]), cs[i].Load(), d.Load(), more, done);
    hide Free, Count, Loads, Child.Load, Child.Token;
  }

  lemma {:induction false} Balance(s: multiset<int>, l: multiset<int>, l': multiset<int>, c: multiset<int>,
                                   d: multiset<int>, more: multiset<int>, done: multiset<int>)
    requires l' + c == l + d && c + more == d + done
    ensures s + l + more == (s + done) + l'
  {
    forall x: int
      ensures (s + l + more)[x] == ((s + done) + l')[x]
    {
      assert (l' + c)[x] == (l + d)[x] && (c + more)[x] == (d + done)[x];
    }
  }

  lemma {:induction false} DispatchSums(s: State, i: nat, fd: int)
    requires Inv(s) && i < |s.children| && !s.children[i].busy
    ensures var c := s.children[i];
            var d := c.(busy := true, count := c.count + 1, down := c.down + [fd]);
            && c.up == 0
            && Sums(s.children[i := d], s.navail - 1, s.accepted + [fd], s.served)
  {
    var c := s.children[i];
    var d := c.(busy := true, count := c.count + 1, down := c.down + [fd]);
    FreshChild(c, d, fd);
    hide Child.Load, Child.Token;
    SumsSet(s.children, i, d, s.navail, |s.accepted|, multiset(s.accepted), multiset(s.served),
            multiset{fd}, multiset{});
    hide Totals;
    assert multiset(s.accepted + [fd]) == multiset(s.accepted) + multiset{fd};
    assert multiset(s.served) + multiset{} == multiset(s.served);
  }

  lemma {:induction false} SomeFree(s: State)
    requires Inv(s) && s.navail > 0
    ensures FirstFree(s.children, 0) < |s.children|
  {
    FreeMeans(s.children);
  }

  /** A connection is only accepted when some child is available. */
  lemma {:induction false} DispatchKeeps(s: State, fd: int)
    requires Inv(s) && s.pc.Selected? && s.pc.listen
    ensures Inv(s.Dispatch(fd))
  {
    hide Sums, Bits;
    SomeFree(s);
    DispatchSums(s, FirstFree(s.children, 0), fd);
  }

  lemma {:induction false} FreshChild(c: Child, d: Child, fd: int)
    requires c.Token() && !c.busy && d == c.(busy := true, count := c.count + 1, down := c.down + [fd])
    ensures c.up == 0 && c.Load() == multiset{} && d.Load() == multiset{fd} && d.Token()
  {
  }

  lemma {:induction false} SameLoad(s: State, i: nat, d: Child)
    requires Inv(s) && i < |s.children| && d.Token()
    requires d.Load() == s.children[i].Load() && d.count == s.children[i].count
    ensures Sums(s.children[i := d], s.navail + One(s.children[i].busy) - One(d.busy), s.accepted, s.served)
  {
    SumsSet(s.children, i, d, s.navail, |s.accepted|, multiset(s.accepted), multiset(s.served),
            multiset{}, multiset{});
    hide Totals;
    assert multiset(s.accepted) + multiset{} == multiset(s.accepted);
    assert multiset(s.served) + multiset{} == multiset(s.served);
  }

  lemma {:induction false} ScanKeeps(s: State)
    requires Inv(s) && s.pc.Scan?
    ensures Inv(s.ScanStep())
    ensures s.pc.i < |s.children| && (s.pc.ready[s.pc.i] ==> s.children[s.pc.i].up == 1)
  {
    var i := s.pc.i;
    assert i < |s.children|;
    var c := s.children[i];
    if s.pc.ready[i] {
      var d := c.(busy := false, up := c.up - 1);
      assert c.Token() && c.busy && c.up == 1;
      assert d.Load() == c.Load() && d.Token();
      hide Child.Load, Child.Token, Sums;
      SameLoad(s, i, d);
      assert Unread(s.ScanStep().children, s.pc.ready, i + 1);
    }
  }

  lemma {:induction false} ReceiveKeeps(s: State, i: nat)
    requires Inv(s)
    ensures Inv(s.ReceiveStep(i))
  {
    if i < |s.children| && s.children[i].serving.None? && s.children[i].down != [] {
      var c := s.children[i];
      var d := c.(serving := Some(c.down[0]), down := c.down[1..]);
      assert c.down == [c.down[0]] + c.down[1..];
      assert d.Load() == c.Load() && c.Token();
      hide Child.Load, Sums, Bits;
      SameLoad(s, i, d);
    }
  }

  lemma {:induction false} DoneChild(c: Child, d: Child, fd: int)
    requires c.Token() && c.serving == Some(fd) && d == c.(serving := None, up := c.up + 1)
    ensures c.Load() == multiset{fd} && d.Load() == multiset{} && d.Token()
  {
  }

  lemma {:induction false} FinishSums(s: State, i: nat, fd: int)
    requires Inv(s) && i < |s.children| && s.children[i].serving == Some(fd)
    ensures var c := s.children[i];
            Sums(s.children[i := c.(serving := None, up := c.up + 1)], s.navail, s.accepted, s.served + [fd])
  {
    var c := s.children[i];
    var d := c.(serving := None, up := c.up + 1);
    DoneChild(c, d, fd);
    hide Child.Load, Child.Token;
    SumsSet(s.children, i, d, s.navail, |s.accepted|, multiset(s.accepted), multiset(s.served),
            multiset{}, multiset{fd});
    hide Totals;
    assert multiset(s.served + [fd]) == multiset(s.served) + multiset{fd};
    assert multiset(s.accepted) + multiset{} == multiset(s.accepted);
  }

  lemma {:induction false} FinishKeeps(s: State, i: nat)
    requires Inv(s)
    ensures Inv(s.FinishStep(i))
  {
    hide Sums, Bits;
    if i < |s.children| && s.children[i].serving.Some? {
      FinishSums(s, i, s.children[i].serving.value);
    }
  }

  lemma {:induction false} SelectKeeps(s: State, conn: bool)
    requires Inv(s) && s.pc == Top
    ensures Inv(s.Select(conn))
  {
  }

  lemma {:induction false} StepKeeps(s: State, e: Event)
    requires Inv(s)
    ensures Inv(s.Step(e))
  {
    hide Sums, State.Select, State.Dispatch, State.ScanStep,
      State.ReceiveStep, State.FinishStep;
    match e
    case Receive(i) => ReceiveKeeps(s, i);
    case Finish(i) => FinishKeeps(s, i);
    case Parent(conn, fd) =>
      match s.pc
      case Top => SelectKeeps(s, conn);
      case Selected(listen, ready, nsel) =>
        if listen {
          DispatchKeeps(s, fd);
        }
      case Scan(_, _, _) => ScanKeeps(s);
  }

  // ---- every run

  ghost function Run(s: State, es: seq<Event>): (r: State)
    requires Inv(s)
    ensures Inv(r)
    decreases es
  {
    if es == [] then s else
    StepKeeps(s, es[0]);
    Run(s.Step(es[0]), es[1..])
  }

  const IDLE := Child(false, 0, [], None, 0)

  ghost function Start(nchildren: nat): (s: State)
    ensures Inv(s)
  {
    var cs := seq(nchildren, _ => IDLE);
    StartSums(cs);
    State(cs, nchildren, Top, Running, [], [])
  }

  lemma {:induction false} StartSums(cs: seq<Child>)
    requires forall i :: 0 <= i < |cs| ==> cs[i] == IDLE
    ensures Tokens(cs) && Free(cs) == |cs| && Count(cs) == 0 && Loads(cs) == multiset{}
    decreases cs
  {
    if cs != [] {
      StartSums(cs[..|cs| - 1]);
    }
  }

  /** In every interleaving: the parent's count of available children is right; a busy child has
      exactly one token, in its pipe, in service or as a ready byte, and another child none; the
      parent never finds no child for a connection it accepted, and never blocks reading a
      byte; the children's counts add up to the connections accepted, each of which has been
      served or is with exactly one child. */
  lemma {:induction false} EveryRun(nchildren: nat, es: seq<Event>)
    ensures var s := Run(Start(nchildren), es);
            && s.end == Running
            && s.navail == Free(s.children)
            && (forall i :: 0 <= i < |s.children| ==> s.children[i].Token())
            && Count(s.children) == |s.accepted|
            && multiset(s.accepted) == multiset(s.served) + Loads(s.children)
            && (s.pc.Scan? ==> s.Shape() && s.pc.i < |s.children|
                               && (s.pc.ready[s.pc.i] ==> s.children[s.pc.i].up == 1))
  {
  }

  /** Leaving the loop early, when `nsel` is used up, passes over no child that was ready. */
  lemma {:induction false} ScanMissesNobody(s: State)
    requires Inv(s) && s.pc.Scan? && s.ScanStep().pc == Top
    ensures forall j :: s.pc.i < j < |s.pc.ready| ==> !s.pc.ready[j]
  {
    NoBits(s.pc.ready, s.pc.i + 1);
  }

  lemma {:induction false} NoBits(ready: seq<bool>, i: nat)
    ensures Bits(ready, i) == 0 <==> forall j :: i <= j < |ready| ==> !ready[j]
    decreases |ready| - i
  {
    if i < |ready| {
      NoBits(ready, i + 1);
    }
  }

  // ---- a connection from beginning to end

  /** `Select` returns exactly if a connection waits while a child is available, or a child has
      reported; it reports the listening socket exactly in the first case, and those children. */
  lemma {:induction false} SelectMeans(s: State, conn: bool, fd: int)
    requires s.pc == Top
    ensures var r := s.Step(Parent(conn, fd));
            var some := exists i :: 0 <= i < |s.children| && s.children[i].up > 0;
            && (!(s.navail > 0 && conn) && !some ==> r == s)
            && ((s.navail > 0 && conn) || some ==>
                 && r == s.(pc := r.pc) && r.pc.Selected? && (r.pc.listen <==> s.navail > 0 && conn)
                 && |r.pc.ready| == |s.children|
                 && forall i :: 0 <= i < |s.children| ==> (r.pc.ready[i] <==> s.children[i].up > 0))
  {
    NoBits(s.Readable(), 0);
    forall i | 0 <= i < |s.children| ensures s.Readable()[i] <==> s.children[i].up > 0 {
    }
    hide Bits;
  }

  /** The child with this number is the first that is not busy. */
  predicate IsFirstFree(cs: seq<Child>, k: nat) { k < |cs| && !cs[k].busy && forall j :: 0 <= j < k ==> cs[j].busy }

  /** A connection that waits while a child is available is accepted in the parent's next two steps,
      and goes to the first child that is not busy. */
  lemma {:induction false} AcceptsWhenAvailable(s: State, any: int, conn: bool, fd: int)
    requires Inv(s) && s.pc == Top && s.navail > 0
    ensures s.Step(Parent(true, any)).Shape()
    ensures var r, k := s.Step(Parent(true, any)).Step(Parent(conn, fd)), FirstFree(s.children, 0);
            && r.accepted == s.accepted + [fd] && r.served == s.served && r.navail == s.navail - 1
            && IsFirstFree(s.children, k)
            && var c := s.children[k];
               r.children == s.children[k := c.(busy := true, count := c.count + 1, down := [fd])]
  {
    hide Sums, Bits;
    SelectMeans(s, true, any);
    SomeFree(s);
    TokenIdle(s, FirstFree(s.children, 0));
    assert [] + [fd] == [fd];
  }

  /** A child that is not busy has nothing outstanding. */
  lemma {:induction false} TokenIdle(s: State, k: nat)
    requires Inv(s) && k < |s.children| && !s.children[k].busy
    ensures s.children[k].down == [] && s.children[k].serving == None && s.children[k].up == 0
  {
    var c := s.children[k];
    assert c.Token();
    assert |multiset(c.down)| == |c.down|;
  }

  /** The child that was handed a connection serves it, and then reports. */
  lemma {:induction false} ChildServes(s: State, k: nat, fd: int)
    requires s.Shape() && k < |s.children|
    requires var c := s.children[k]; c.down == [fd] && c.serving == None && c.up == 0
    ensures var r := s.Step(Receive(k));
            && r.Shape() && r.children[k].serving == Some(fd)
            && var d, c := r.Step(Finish(k)), s.children[k];
               d == s.(children := s.children[k := c.(down := [], serving := None, up := 1)],
                       served := s.served + [fd])
  {
    var c := s.children[k];
    var r := s.Step(Receive(k));
    assert [fd][1..] == [];
    assert r.children == s.children[k := c.(down := [], serving := Some(fd))];
    var d := r.Step(Finish(k));
    assert d.children == s.children[k := c.(down := [], serving := None, up := 1)];
  }

  /** The parent's loop over the children, to its end. */
  ghost function ScanAll(s: State): (r: State)
    requires Inv(s)
    decreases if s.pc.Scan? then |s.children| - s.pc.i else 0
  {
    if !s.pc.Scan? then s else
    ScanKeeps(s);
    ScanAll(s.ScanStep())
  }

  /** It makes exactly the children that `Select` reported available again. */
  lemma {:induction false} ScanFrees(s: State, j: nat)
    requires Inv(s) && s.pc.Scan? && j < |s.children|
    ensures var r, c := ScanAll(s), s.children[j];
            && r.pc == Top && |r.children| == |s.children|
            && r.accepted == s.accepted && r.served == s.served
            && r.children[j] == if s.pc.i <= j && s.pc.ready[j] then c.(busy := false, up := 0) else c
    decreases |s.children| - s.pc.i
  {
    hide Sums, Fresh;
    ScanKeeps(s);
    var r := s.ScanStep();
    if r.pc.Scan? {
      ScanFrees(r, j);
    } else {
      ScanMissesNobody(s);
    }
  }

  /** A child that reports is available again once the parent has been round, whether or not a
      connection waits. */
  lemma {:induction false} ReportsAreRead(s: State, any: int, conn: bool, fd: int, j: nat)
    requires Inv(s) && s.pc == Top && j < |s.children| && s.children[j].up > 0
    ensures var r := s.Step(Parent(conn, any));
            && r.Shape() && Inv(r.Step(Parent(conn, fd)))
            && var e := ScanAll(r.Step(Parent(conn, fd)));
               e.pc == Top && |e.children| == |s.children| && e.children[j] == s.children[j].(busy := false, up := 0)
  {
    hide Inv, State.Step;
    StepKeeps(s, Parent(conn, any));
    SelectMeans(s, conn, any);
    BusyWhileReporting(s, j);
    var r := s.Step(Parent(conn, any));
    ScanFollows(r, conn, fd, j);
    ScanFrees(r.Step(Parent(conn, fd)), j);
  }

  /** If a child was reported the parent goes over the children next, accepting first if it has to. */
  lemma {:induction false} ScanFollows(s: State, conn: bool, fd: int, j: nat)
    requires Inv(s) && s.pc.Selected? && j < |s.children| == |s.pc.ready| && s.pc.ready[j] && s.children[j].busy
    ensures var r := s.Step(Parent(conn, fd));
            && Inv(r) && r.pc.Scan? && r.pc.i == 0 && r.pc.ready == s.pc.ready
            && |r.children| == |s.children| && r.children[j] == s.children[j]
  {
    hide Sums, Bits;
    StepKeeps(s, Parent(conn, fd));
    NoBits(s.pc.ready, 0);
  }

  lemma {:induction false} BusyWhileReporting(s: State, j: nat)
    requires Inv(s) && j < |s.children| && s.children[j].up > 0
    ensures s.children[j].busy
  {
    assert s.children[j].Token();
  }

  // ---- the program

  class Server {
    const cptr: array<Child>
    var navail: int
    var pc: Pc
    var end: End
    ghost var accepted: seq<int>
    ghost var served: seq<int>

    constructor (nchildren: nat)
      ensures fresh(cptr) && View() == Start(nchildren)
    {
      cptr := new Child[nchildren](_ => IDLE);
      navail, pc, end, accepted, served := nchildren, Top, Running, [], [];
      new;
      assert cptr[..] == seq(nchildren, _ => IDLE);
    }

    ghost function View(): State
      reads this, cptr
    {
      State(cptr[..], navail, pc, end, accepted, served)
    }

    method Select(conn: bool)
      requires pc == Top
      modifies this
      ensures View() == old(View()).Select(conn)
    {
      var listen := navail > 0 && conn;
      var ready := seq(cptr.Length, i requires 0 <= i < cptr.Length reads this, cptr => cptr[i].up > 0);
      var nsel := Bits(ready, 0);
      assert ready == View().Readable();
      if listen {
        nsel := nsel + 1;
      }
      if nsel > 0 {
        pc := Selected(listen, ready, nsel);
      }
    }

    /** The search for a child that is not busy. */
    method FindFree() returns (i: nat)
      ensures i == FirstFree(cptr[..], 0)
    {
      i := 0;
      while i < cptr.Length
        invariant i <= cptr.Length && FirstFree(cptr[..], i) == FirstFree(cptr[..], 0)
      {
        if !cptr[i].busy {
          break;
        }
        i := i + 1;
      }
    }

    method Dispatch(fd: int)
      requires pc.Selected? && pc.nsel > 0
      modifies this, cptr
      ensures View() == old(View()).Dispatch(fd)
    {
      accepted := accepted + [fd];
      var i := FindFree();
      if i == cptr.Length {
        end := NoChildren;
        return;
      }
      var c := cptr[i];
      cptr[i] := c.(busy := true, count := c.count + 1, down := c.down + [fd]);
      navail := navail - 1;
      pc := if pc.nsel - 1 == 0 then Top else Scan(0, pc.ready, pc.nsel - 1);
    }

    method ScanStep()
      requires View().Shape() && pc.Scan?
      modifies this, cptr
      ensures View() == old(View()).ScanStep()
    {
      var Scan(i, ready, nsel) := pc;
      if i >= cptr.Length {
        pc := Top;
      } else if !ready[i] {
        pc := Scan(i + 1, ready, nsel);
      } else if cptr[i].up > 0 {
        cptr[i] := cptr[i].(busy := false, up := cptr[i].up - 1);
        navail := navail + 1;
        pc := if nsel <= 1 then Top else Scan(i + 1, ready, nsel - 1);
      }
    }

    method ParentStep(conn: bool, fd: int)
      requires View().Shape()
      modifies this, cptr
      ensures View() == old(View()).ParentStep(conn, fd)
    {
      match pc
      case Top => Select(conn);
      case Selected(listen, ready, nsel) =>
        if listen && nsel > 0 {
          Dispatch(fd);
        } else {
          pc := Scan(0, ready, nsel);
        }
      case Scan(_, _, _) => ScanStep();
    }

    /** `child_main`, up to serving the client. */
    method ChildReceive(i: nat)
      modifies cptr
      ensures View() == old(View()).ReceiveStep(i)
    {
      if i < cptr.Length && cptr[i].serving.None? && cptr[i].down != [] {
        cptr[i] := cptr[i].(serving := Some(cptr[i].down[0]), down := cptr[i].down[1..]);
      }
    }

    /** `child_main`, telling the parent it is ready again. */
    method ChildFinish(i: nat)
      modifies this, cptr
      ensures View() == old(View()).FinishStep(i)
    {
      if i < cptr.Length && cptr[i].serving.Some? {
        served := served + [cptr[i].serving.value];
        cptr[i] := cptr[i].(serving := None, up := cptr[i].up + 1);
      }
    }

    /** Any interleaving. */
    method Interleave(es: seq<Event>)
      requires Inv(View())
      modifies this, cptr
      ensures Inv(View()) && View() == Run(old(View()), es)
    {
      hide Sums, Fresh;
      var k := 0;
      while k < |es|
        invariant 0 <= k <= |es| && Inv(View())
        invariant Run(old(View()), es) == Run(View(), es[k..])
      {
        assert es[k..][0] == es[k] && es[k..][1..] == es[k + 1..];
        StepKeeps(View(), es[k]);
        match es[k] {
          case Parent(conn, fd) => ParentStep(conn, fd);
          case Receive(i) => ChildReceive(i);
          case Finish(i) => ChildFinish(i);
        }
        k := k + 1;
      }
    }
  }
}
