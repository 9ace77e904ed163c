/** The UDP echo server driven by SIGIO: the handler `sig_io` reads datagrams into a ring of
    eight slots and the main loop of `dg_echo` sends them back.

    A run is any interleaving of the main loop's steps with executions of the handler, which can
    happen exactly where the signal is not blocked. The class does what the program does to its
    globals, and its state is tied to the transition function `Step`. */
module SigioEcho {
  import opened Basics
  import opened Ring

  const QSIZE: nat := 8
  const MAXDG: nat := 4096

  /** A datagram with the address it came from. */
  datatype Msg = Msg(payload: seq<Octet>, from: seq<Octet>)

  /** An element of the ring: two buffers and how much of each is in use. */
  datatype Slot = Slot(data: seq<Octet>, len: nat, sa: seq<Octet>, salen: nat)
  {
    predicate Valid(clilen: nat) {
      len <= |data| == MAXDG && salen <= |sa| == clilen
    }

    function Message(): Msg { Msg(Cut(data, len), Cut(sa, salen)) }
  }

  function Over(buffer: seq<Octet>, bs: seq<Octet>): (r: seq<Octet>)
    requires |bs| <= |buffer|
    ensures |r| == |buffer| && r[..|bs|] == bs
  {
    bs + buffer[|bs|..]
  }

  /** What the network delivers is cut to the size of the buffers. */
  function Kept(m: Msg, clilen: nat): Msg { Msg(Cut(m.payload, MAXDG), Cut(m.from, clilen)) }

  /** `recvfrom` into a slot. */
  function Filled(slot: Slot, m: Msg, clilen: nat): (r: Slot)
    requires slot.Valid(clilen)
    ensures r.Valid(clilen) && r.Message() == Kept(m, clilen)
  {
    var k := Kept(m, clilen);
    Slot(Over(slot.data, k.payload), |k.payload|, Over(slot.sa, k.from), |k.from|)
  }

  predicate Slots(dg: seq<Slot>, clilen: nat) {
    |dg| == QSIZE && forall i {:trigger dg[i]} :: 0 <= i < QSIZE ==> dg[i].Valid(clilen)
  }

  // ---- the transition function

  /** Where the program is: handler installed, signal not yet blocked; in the main loop, testing
      `nqueue` with the signal blocked; unblocked with a datagram to send; inside `Sendto`, which
      started on message `m`; back from it; past the step of `iget`; with the signal blocked
      again. */
  datatype Pc = Starting | Check | Unblocked | Sending(m: Msg) | Sent | Bumped | Blocked

  datatype End = Running | Overflow | Error

  datatype State = State(dg: seq<Slot>, iget: nat, iput: nat, nqueue: nat, cntread: seq<nat>,
                         pc: Pc, end: End, received: seq<Msg>, echoed: seq<Msg>)
  {
    predicate Shape(clilen: nat) {
      && iget < QSIZE && iput < QSIZE && |cntread| == QSIZE + 1
      && (pc !in {Starting, Check} ==> nqueue > 0)
      && Slots(dg, clilen)
    }

    /** Can a SIGIO be delivered here? In `Check` only by `sigsuspend`. */
    predicate Open() { if pc == Check then nqueue == 0 else pc != Blocked }

    /** One step of the main loop. */
    function MainStep(clilen: nat): (r: State)
      requires Shape(clilen)
      ensures r.Shape(clilen)
    {
      match pc
      case Starting => this.(pc := Check)
      case Check => if nqueue == 0 then this else this.(pc := Unblocked)
      case Unblocked => this.(pc := Sending(dg[iget].Message()))
      case Sending(_) => this.(pc := Sent, echoed := echoed + [dg[iget].Message()])
      case Sent => this.(pc := Bumped, iget := Next(iget, QSIZE))
      case Bumped => this.(pc := Blocked)
      case Blocked => this.(pc := Check, nqueue := nqueue - 1)
    }

    /** The handler writes the length field of the next slot before every `recvfrom`. */
    function Probe(clilen: nat): State
      requires Shape(clilen)
    {
      this.(dg := dg[iput := dg[iput].(salen := clilen)])
    }

    function Receive(m: Msg, clilen: nat): State
      requires Shape(clilen)
    {
      this.(dg := dg[iput := Filled(dg[iput], m, clilen)], nqueue := nqueue + 1,
            iput := Next(iput, QSIZE), received := received + [Kept(m, clilen)])
    }

    /** The handler, entered with `ms` waiting and `nread` already read; at the end the socket
        is empty, or fails. */
    function Handler(ms: seq<Msg>, fails: bool, nread: nat, clilen: nat): State
      requires Shape(clilen) && nread <= nqueue
      decreases ms
    {
      if nqueue >= QSIZE then this.(end := Overflow)
      else if ms != [] then Receive(ms[0], clilen).Handler(ms[1..], fails, nread + 1, clilen)
      else if fails then Probe(clilen).(end := Error)
      else Probe(clilen).(cntread := cntread[nread := cntread[nread] + 1])
    }

    function Step(e: Event, clilen: nat): State
      requires Shape(clilen)
    {
      match e
      case Main => MainStep(clilen)
      case Sigio(ms, fails) => if Open() then Handler(ms, fails, 0, clilen) else this
    }
  }

  datatype Event = Main | Sigio(ms: seq<Msg>, fails: bool)

  // ---- what every step keeps

  function Messages(dg: seq<Slot>): seq<Msg> {
    seq(|dg|, i requires 0 <= i < |dg| => dg[i].Message())
  }

  /** Has the datagram at the head of the queue been sent but is still counted? */
  predicate Counted(s: State) { s.pc in {Sent, Bumped, Blocked} }

  function First(s: State): nat { if s.pc == Sent then Next(s.iget, QSIZE) else s.iget }

  function Waiting(s: State): nat
    requires s.pc !in {Starting, Check} ==> s.nqueue > 0
  {
    if Counted(s) then s.nqueue - 1 else s.nqueue
  }

  ghost predicate Core(s: State, clilen: nat) {
    && s.Shape(clilen) && s.nqueue <= QSIZE
    && s.iput == At(First(s), Waiting(s), QSIZE)
    && s.received == s.echoed + Held(Messages(s.dg), First(s), Waiting(s))
    && (s.pc.Sending? ==> s.dg[s.iget].Message() == s.pc.m)
  }

  ghost predicate Inv(s: State, clilen: nat) {
    Core(s, clilen) && (s.end == Running ==> s.nqueue < QSIZE)
  }

  /** Writing the slot after the queue leaves the queue alone, and appends to it once it is
      counted. */
  lemma {:induction false} QueueSet(s: State, x: Slot, clilen: nat)
    requires Core(s, clilen) && s.nqueue < QSIZE
    ensures var after := Messages(s.dg[s.iput := x]);
            var q := Held(Messages(s.dg), First(s), Waiting(s));
            && Held(after, First(s), Waiting(s)) == q
            && Held(after, First(s), Waiting(s) + 1) == q + [x.Message()]
  {
    assert Messages(s.dg[s.iput := x]) == Messages(s.dg)[s.iput := x.Message()];
    HeldSet(Messages(s.dg), First(s), Waiting(s), x.Message());
  }

  lemma {:induction false} MainKeeps(s: State, clilen: nat)
    requires Inv(s, clilen) && s.end == Running
    ensures Inv(s.MainStep(clilen), clilen)
    ensures s.pc == Starting ==> s.MainStep(clilen).pc == Check
  {
    if s.pc.Sending? {
      HeldNext(Messages(s.dg), s.iget, s.nqueue);
      assert s.echoed + ([s.pc.m] + Held(Messages(s.dg), Next(s.iget, QSIZE), s.nqueue - 1))
          == (s.echoed + [s.pc.m]) + Held(Messages(s.dg), Next(s.iget, QSIZE), s.nqueue - 1);
    }
    hide Held;
  }

  /** The slot the handler writes is not in the queue, nor is it the one being sent. */
  lemma {:induction false} ReceiveKeeps(s: State, m: Msg, clilen: nat)
    requires Core(s, clilen) && s.nqueue < QSIZE
    ensures Core(s.Receive(m, clilen), clilen)
  {
    var x := Filled(s.dg[s.iput], m, clilen);
    var q := Held(Messages(s.dg), First(s), Waiting(s));
    QueueSet(s, x, clilen);
    assert s.echoed + (q + [x.Message()]) == s.echoed + q + [x.Message()];
    assert Slots(s.dg[s.iput := x], clilen);
    hide Held, Messages, Filled, Slots;
  }

  lemma {:induction false} ProbeKeeps(s: State, clilen: nat)
    requires Core(s, clilen) && s.nqueue < QSIZE
    ensures Core(s.Probe(clilen), clilen)
  {
  }

  lemma {:induction false} ReceiveShape(s: State, m: Msg, clilen: nat)
    requires s.Shape(clilen)
    ensures var r := s.Receive(m, clilen);
            && r.Shape(clilen) && r.nqueue == s.nqueue + 1 && r.cntread == s.cntread
            && r.pc == s.pc && r.end == s.end && r.iget == s.iget && r.echoed == s.echoed
  {
  }

  /** The handler ends the program exactly if the datagrams waiting would fill the queue; if it
      returns, the count for this signal went to a cell below the last. */
  lemma {:induction false} HandlerCounts(s: State, ms: seq<Msg>, fails: bool, nread: nat, clilen: nat)
    requires s.Shape(clilen) && s.end == Running && nread <= s.nqueue <= QSIZE
    ensures var r := s.Handler(ms, fails, nread, clilen);
            && r.end == (if s.nqueue + |ms| >= 8 then Overflow else if fails then Error else Running)
            && (r.end == Overflow ==> r.nqueue == QSIZE)
            && (r.end != Overflow ==> r.nqueue == s.nqueue + |ms|)
            && (r.end == Running ==>
                 nread + |ms| < QSIZE
                 && r.cntread == s.cntread[nread + |ms| := s.cntread[nread + |ms|] + 1])
            && r.pc == s.pc && r.iget == s.iget && r.echoed == s.echoed
    decreases ms
  {
    hide State.Receive, Slots, Filled, Kept;
    if s.nqueue < QSIZE && ms != [] {
      ReceiveShape(s, ms[0], clilen);
      HandlerCounts(s.Receive(ms[0], clilen), ms[1..], fails, nread + 1, clilen);
    }
  }

  lemma {:induction false} HandlerKeeps(s: State, ms: seq<Msg>, fails: bool, nread: nat, clilen: nat)
    requires Core(s, clilen) && s.end == Running && nread <= s.nqueue
    ensures Inv(s.Handler(ms, fails, nread, clilen), clilen)
    decreases ms
  {
    hide Held, Messages, At, Filled, Slots;
    if s.nqueue < QSIZE {
      if ms == [] {
        ProbeKeeps(s, clilen);
      } else {
        ReceiveKeeps(s, ms[0], clilen);
        HandlerKeeps(s.Receive(ms[0], clilen), ms[1..], fails, nread + 1, clilen);
      }
    }
  }

  // ---- what the handler takes

  /** A datagram as the program gets it: at most 4096 bytes, and as much of the address as fits. */
  function Delivered(m: Msg, clilen: nat): Msg {
    Msg(m.payload[..if |m.payload| < 4096 then |m.payload| else 4096],
        m.from[..if |m.from| < clilen then |m.from| else clilen])
  }

  /** The first `n` of the datagrams `ms`, or all of them if there are fewer. */
  function Deliveries(ms: seq<Msg>, n: nat, clilen: nat): seq<Msg>
    decreases ms
  {
    if ms == [] || n == 0 then [] else [Delivered(ms[0], clilen)] + Deliveries(ms[1..], n - 1, clilen)
  }

  /** The handler takes the datagrams waiting, in order, until the queue holds eight. */
  lemma {:induction false} HandlerTakes(s: State, ms: seq<Msg>, fails: bool, nread: nat, clilen: nat)
    requires s.Shape(clilen) && nread <= s.nqueue <= 8
    ensures s.Handler(ms, fails, nread, clilen).received == s.received + Deliveries(ms, 8 - s.nqueue, clilen)
    decreases ms
  {
    hide Slots, Filled, State.Receive, Kept, Delivered;
    if s.nqueue < QSIZE && ms != [] {
      ReceiveShape(s, ms[0], clilen);
      ReceiveTakes(s, ms[0], clilen);
      HandlerTakes(s.Receive(ms[0], clilen), ms[1..], fails, nread + 1, clilen);
      var d := Delivered(ms[0], clilen);
      var rest := Deliveries(ms[1..], 8 - s.nqueue - 1, clilen);
      assert s.received + [d] + rest == s.received + ([d] + rest);
    }
  }

  lemma {:induction false} ReceiveTakes(s: State, m: Msg, clilen: nat)
    requires s.Shape(clilen)
    ensures s.Receive(m, clilen).received == s.received + [Delivered(m, clilen)]
  {
    hide Slots, Filled;
    assert Kept(m, clilen).payload == Delivered(m, clilen).payload;
    assert Kept(m, clilen).from == Delivered(m, clilen).from;
  }

  /** The signal is held off while `nqueue` is tested, except in `sigsuspend`, and while it is
      decremented. */
  predicate Interruptible(pc: Pc, nqueue: nat) {
    match pc
    case Check => nqueue == 0
    case Blocked => false
    case _ => true
  }

  /** What a step of either kind adds to the datagrams received. */
  lemma {:induction false} StepTakes(s: State, e: Event, clilen: nat)
    requires Inv(s, clilen) && s.end == Running
    ensures s.Step(e, clilen).received
         == s.received + if e.Sigio? && Interruptible(s.pc, s.nqueue) then Deliveries(e.ms, 8 - s.nqueue, clilen) else []
  {
    hide Slots, Held, Messages, State.Handler, Deliveries;
    if e.Sigio? {
      HandlerTakes(s, e.ms, e.fails, 0, clilen);
    }
  }

  // ---- every run

  lemma {:induction false} StepKeeps(s: State, e: Event, clilen: nat)
    requires Inv(s, clilen) && s.end == Running
    ensures Inv(s.Step(e, clilen), clilen)
  {
    match e
    case Main => MainKeeps(s, clilen);
    case Sigio(ms, fails) => HandlerKeeps(s, ms, fails, 0, clilen);
  }

  /** The program's state after a sequence of events. */
  ghost function Run(s: State, es: seq<Event>, clilen: nat): (r: State)
    requires Inv(s, clilen)
    ensures Inv(r, clilen)
    decreases es
  {
    if es == [] || s.end != Running then s else
    StepKeeps(s, es[0], clilen);
    Run(s.Step(es[0], clilen), es[1..], clilen)
  }

  /** All that arrives in a run where the signal is not held off. */
  ghost function Arrivals(s: State, es: seq<Event>, clilen: nat): seq<Msg>
    requires Inv(s, clilen)
    decreases es
  {
    if es == [] || s.end != Running then [] else
    StepKeeps(s, es[0], clilen);
    (if es[0].Sigio? && Interruptible(s.pc, s.nqueue) then Deliveries(es[0].ms, 8 - s.nqueue, clilen) else [])
    + Arrivals(s.Step(es[0], clilen), es[1..], clilen)
  }

  lemma {:induction false} RunReceives(s: State, es: seq<Event>, clilen: nat)
    requires Inv(s, clilen)
    ensures Run(s, es, clilen).received == s.received + Arrivals(s, es, clilen)
    decreases es
  {
    hide State.Step, Deliveries, Interruptible, Held, Messages, Slots;
    if es != [] && s.end == Running {
      StepKeeps(s, es[0], clilen);
      StepTakes(s, es[0], clilen);
      RunReceives(s.Step(es[0], clilen), es[1..], clilen);
    }
  }

  /** Nothing queued; the buffers hold whatever `malloc` left in them. */
  ghost function Start(dg: seq<Slot>): (r: State)
    ensures forall clilen: nat :: Slots(dg, clilen) ==> Inv(r, clilen)
  {
    State(dg, 0, 0, 0, seq(QSIZE + 1, _ => 0), Starting, Running, [], [])
  }

  lemma {:induction false} InIndex(s: State, clilen: nat)
    requires Inv(s, clilen)
    ensures s.iput == (if s.pc in {Bumped, Blocked} then s.iget + s.nqueue - 1 else s.iget + s.nqueue) % 8
  {
    hide Held, Messages, Slots;
  }

  /** In every interleaving: the datagrams received are those that arrived; `iput` is `iget + nqueue` modulo the size, or one less between the
      step of `iget` and that of `nqueue`; what was read and not yet echoed is what the ring
      holds, in order, so echoes are the datagrams received, first in first out, each once; the
      slot handed to `Sendto` still holds the same message when it returns. */
  lemma {:induction false} EveryRun(dg: seq<Slot>, es: seq<Event>, clilen: nat)
    requires Slots(dg, clilen)
    ensures var s := Run(Start(dg), es, clilen);
            && s.iput == (if s.pc in {Bumped, Blocked} then s.iget + s.nqueue - 1
                          else s.iget + s.nqueue) % 8
            && s.received == Arrivals(Start(dg), es, clilen)
            && s.received == s.echoed + Held(Messages(s.dg), First(s), Waiting(s))
            && (s.pc == Check && s.nqueue == 0 ==> s.echoed == s.received)
            && (s.pc.Sending? ==> s.MainStep(clilen).echoed == s.echoed + [s.pc.m])
            && (s.end == Running ==> s.nqueue < 8)
  {
    hide Run, Messages, Slots, Arrivals;
    RunReceives(Start(dg), es, clilen);
    var s := Run(Start(dg), es, clilen);
    assert Inv(s, clilen);
    InIndex(s, clilen);
    hide At, Next;
  }

  /** A turn of the main loop that is not interrupted echoes the oldest datagram waiting. */
  lemma {:induction false} MainTurn(s: State, clilen: nat)
    requires Inv(s, clilen) && s.end == Running && s.pc == Check && s.nqueue > 0
    ensures var sent := s.MainStep(clilen).MainStep(clilen).MainStep(clilen);
            var r := sent.MainStep(clilen).MainStep(clilen).MainStep(clilen);
            && r.pc == Check && r.nqueue == s.nqueue - 1 && r.received == s.received
            && |s.echoed| < |s.received| && r.echoed == s.echoed + [s.received[|s.echoed|]]
  {
    HeldNext(Messages(s.dg), s.iget, s.nqueue);
    hide Held, Slots;
  }

  // ---- the program

  class Server {
    const dg: array<Slot>
    const cntread: array<nat>
    const clilen: nat
    var iget: nat
    var iput: nat
    var nqueue: nat
    var pc: Pc
    var end: End
    ghost var received: seq<Msg>
    ghost var echoed: seq<Msg>

    /** `Malloc` gave the buffers in `slots`. */
    constructor (slots: seq<Slot>, clilen: nat)
      requires Slots(slots, clilen)
      ensures Valid() && View() == Start(slots) && this.clilen == clilen
      ensures fresh(dg) && fresh(cntread)
    {
      dg := new Slot[QSIZE](i requires 0 <= i < |slots| => slots[i]);
      cntread := new nat[QSIZE + 1](_ => 0);
      this.clilen := clilen;
      iget, iput, nqueue, pc, end, received, echoed := 0, 0, 0, Starting, Running, [], [];
      new;
      assert dg[..] == slots;
      assert cntread[..] == seq(QSIZE + 1, _ => 0);
    }

    ghost function View(): State
      reads this, dg, cntread
    {
      State(dg[..], iget, iput, nqueue, cntread[..], pc, end, received, echoed)
    }

    ghost predicate Valid()
      reads this, dg, cntread
    {
      View().Shape(clilen)
    }

    /** `dg_echo` up to the next point where the handler may come in. */
    method MainStep()
      requires Valid()
      modifies this
      ensures View() == old(View()).MainStep(clilen)
    {
      match pc
      case Starting => pc := Check;
      case Check => if nqueue != 0 { pc := Unblocked; }
      case Unblocked => pc := Sending(dg[iget].Message());
      case Sending(_) =>
        echoed := echoed + [dg[iget].Message()];
        pc := Sent;
      case Sent =>
        iget := if iget + 1 >= QSIZE then 0 else iget + 1;
        pc := Bumped;
      case Bumped => pc := Blocked;
      case Blocked =>
        nqueue := nqueue - 1;
        pc := Check;
    }

    /** `sig_io`, with `ms` waiting in the socket. */
    method SigIo(ms: seq<Msg>, fails: bool)
      requires Valid()
      modifies this, dg, cntread
      ensures View() == old(View()).Handler(ms, fails, 0, clilen)
    {
      var nread, i := 0, 0;
      while true
        invariant Valid() && nread == i <= |ms| && nread <= nqueue
        invariant old(View()).Handler(ms, fails, 0, clilen)
               == View().Handler(ms[i..], fails, nread, clilen)
        decreases |ms| - i
      {
        if nqueue >= QSIZE {
          end := Overflow;
          return;
        }
        if i == |ms| {
          Probe();
          if fails {
            end := Error;
          } else {
            cntread[nread] := cntread[nread] + 1;
          }
          return;
        }
        assert ms[i..][0] == ms[i] && ms[i..][1..] == ms[i + 1..];
        Receive(ms[i]);
        nread, i := nread + 1, i + 1;
      }
    }

    method Probe()
      requires Valid()
      modifies dg
      ensures View() == old(View()).Probe(clilen)
    {
      dg[iput] := dg[iput].(salen := clilen);
    }

    method Receive(m: Msg)
      requires Valid()
      modifies this, dg
      ensures Valid() && View() == old(View()).Receive(m, clilen)
    {
      dg[iput] := dg[iput].(salen := clilen);
      dg[iput] := Filled(dg[iput], m, clilen);
      nqueue := nqueue + 1;
      iput := if iput + 1 >= QSIZE then 0 else iput + 1;
      received := received + [Kept(m, clilen)];
    }

    /** Any interleaving of the two. */
    method Interleave(es: seq<Event>)
      requires Inv(View(), clilen)
      modifies this, dg, cntread
      ensures Inv(View(), clilen) && View() == Run(old(View()), es, clilen)
    {
      var i := 0;
      while i < |es| && end == Running
        invariant 0 <= i <= |es| && Inv(View(), clilen)
        invariant Run(old(View()), es, clilen) == Run(View(), es[i..], clilen)
      {
        assert es[i..][0] == es[i] && es[i..][1..] == es[i + 1..];
        StepKeeps(View(), es[i], clilen);
        match es[i] {
          case Main => MainStep();
          case Sigio(ms, fails) =>
            if (pc == Check && nqueue == 0) || (pc != Check && pc != Blocked) {
              SigIo(ms, fails);
            }
        }
        i := i + 1;
      }
    }
  }
}
