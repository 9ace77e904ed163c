/** The prethreaded server: the main thread puts accepted descriptors into a ring of 32 and
    signals a condition variable; worker threads wait on it and take them out.

    What the mutex protects happens in one step. A run is any interleaving of the main thread's
    steps, the workers' steps and wakeups. */
module Prethreaded {
  import opened Basics
  import opened Counting
  import opened Ring

  const MAXNCLI: nat := 32

  /** A worker: about to lock the mutex at the top of its loop; inside `pthread_cond_wait`; woken
      and about to lock the mutex again; past the unlock with a descriptor, not yet counted; serving
      a client. */
  datatype Thread = Ready | Sleeping | Woken | Got(fd: int) | Serving(fd: int)

  datatype Taken = Taken(fd: int, thread: nat)

  /** `Put(wake)` is the main thread's critical section, in which the signal wakes the sleepers in
      `wake`; `Lock(i)` is thread `i` getting the mutex; `Wake(i)` a wakeup without a signal; `Count(i)`
      and `Finish(i)` what a thread does outside the mutex. */
  datatype Event =
    | Accept(fd: int) | Put(wake: set<nat>) | Lock(i: nat) | Wake(i: nat) | Count(i: nat) | Finish(i: nat)

  function Signal(ts: seq<Thread>, wake: set<nat>): (r: seq<Thread>)
    ensures |r| == |ts|
  {
    seq(|ts|, i requires 0 <= i < |ts| => if ts[i] == Sleeping && i in wake then Woken else ts[i])
  }

  /** A signal wakes at least one sleeper if there is one. */
  predicate Wakes(ts: seq<Thread>, wake: set<nat>) {
    Sleeping in ts ==> exists i :: 0 <= i < |ts| && i in wake && ts[i] == Sleeping
  }

  /** `pending` is a descriptor accepted but not yet put into the ring. */
  datatype State = State(clifd: seq<int>, iget: nat, iput: nat, threads: seq<Thread>, count: seq<nat>,
                         pending: Option<int>, quit: bool, accepted: seq<int>, taken: seq<Taken>)
  {
    predicate Shape() {
      |clifd| == MAXNCLI && iget < MAXNCLI && iput < MAXNCLI && |count| == |threads|
    }

    /** The main thread's critical section. */
    function PutStep(wake: set<nat>): State
      requires Shape() && pending.Some?
    {
      var s := this.(clifd := clifd[iput := pending.value], iput := Next(iput, MAXNCLI), pending := None);
      if s.iput == iget then s.(quit := true) else s.(threads := Signal(threads, wake))
    }

    /** A thread's critical section: sleep if there is nothing, otherwise take a descriptor. */
    function LockStep(i: nat): State
      requires Shape() && i < |threads|
    {
      if iget == iput then this.(threads := threads[i := Sleeping]) else
      this.(threads := threads[i := Got(clifd[iget])], iget := Next(iget, MAXNCLI),
            taken := taken + [Taken(clifd[iget], i)])
    }

    predicate Possible(e: Event) {
      match e
      case Accept(_) => pending.None?
      case Put(wake) => pending.Some? && Wakes(threads, wake)
      case Lock(i) => i < |threads| && threads[i] in {Ready, Woken}
      case Wake(i) => i < |threads| && threads[i] == Sleeping
      case Count(i) => i < |threads| && threads[i].Got?
      case Finish(i) => i < |threads| && threads[i].Serving?
    }

    function Step(e: Event): State
      requires Shape() && Possible(e)
    {
      match e
      case Accept(fd) => this.(pending := Some(fd), accepted := accepted + [fd])
      case Put(wake) => PutStep(wake)
      case Lock(i) => LockStep(i)
      case Wake(i) => this.(threads := threads[i := Woken])
      case Count(i) =>
        this.(threads := threads[i := Serving(threads[i].fd)], count := count[i := count[i] + 1])
      case Finish(i) => this.(threads := threads[i := Ready])
    }
  }

  // ---- what every step keeps

  /** A signal that reaches sleeper `k` adds to the woken threads. */
  lemma {:induction false} SignalTally(ts: seq<Thread>, wake: set<nat>, k: nat)
    ensures Tally(Signal(ts, wake), Woken) >= Tally(ts, Woken)
    ensures k < |ts| && k in wake && ts[k] == Sleeping ==>
              Tally(Signal(ts, wake), Woken) > Tally(ts, Woken)
    decreases ts
  {
    if ts != [] {
      var n := |ts| - 1;
      assert Signal(ts, wake)[..n] == Signal(ts[..n], wake);
      SignalTally(ts[..n], wake, k);
    }
  }

  function Fds(taken: seq<Taken>): seq<int> {
    seq(|taken|, k requires 0 <= k < |taken| => taken[k].fd)
  }

  function Takers(taken: seq<Taken>): seq<nat> {
    seq(|taken|, k requires 0 <= k < |taken| => taken[k].thread)
  }

  /** The descriptor thread `i` took last. */
  function LastBy(taken: seq<Taken>, i: nat): Option<int> {
    if taken == [] then None
    else if taken[|taken| - 1].thread == i then Some(taken[|taken| - 1].fd)
    else LastBy(taken[..|taken| - 1], i)
  }

  /** Entry `k` is the last one of thread `i`, and of this descriptor. */
  ghost predicate IsLast(taken: seq<Taken>, i: nat, fd: int, k: nat) {
    k < |taken| && taken[k] == Taken(fd, i) && forall j :: k < j < |taken| ==> taken[j].thread != i
  }

  lemma {:induction false} LastByMeans(taken: seq<Taken>, i: nat, fd: int)
    ensures LastBy(taken, i) == Some(fd) <==> exists k: nat :: IsLast(taken, i, fd, k)
  {
    if taken != [] {
      var n := |taken| - 1;
      LastByMeans(taken[..n], i, fd);
      forall k: nat | k < n
        ensures IsLast(taken, i, fd, k) <==> IsLast(taken[..n], i, fd, k) && taken[n].thread != i
      {
        assert forall j :: 0 <= j < n ==> taken[..n][j] == taken[j];
      }
      assert IsLast(taken, i, fd, n) <==> taken[n] == Taken(fd, i);
    }
  }

  /** How many descriptors are in the ring; the put that quits has filled it. */
  function Queued(s: State): nat
    requires s.Shape()
  {
    if s.quit then MAXNCLI
    else if s.iput >= s.iget then s.iput - s.iget else s.iput + MAXNCLI - s.iget
  }

  function Pending(s: State): seq<int> { if s.pending.Some? then [s.pending.value] else [] }

  ghost predicate Conserves(s: State)
    requires s.Shape()
  {
    && Queued(s) <= MAXNCLI
    && s.accepted == Fds(s.taken) + Held(s.clifd, s.iget, Queued(s)) + Pending(s)
  }

  ghost predicate Inv(s: State) {
    && s.Shape() && (s.quit ==> s.iput == s.iget) && Conserves(s)
    && (!s.quit && Sleeping in s.threads ==> Queued(s) <= Tally(s.threads, Woken))
    && CountsRight(s) && ServesRight(s)
  }

  /** A thread serves the descriptor it took last. */
  ghost predicate ServesRight(s: State) {
    forall i {:trigger s.threads[i]} :: 0 <= i < |s.threads| && (s.threads[i].Got? || s.threads[i].Serving?) ==>
      LastBy(s.taken, i) == Some(s.threads[i].fd)
  }

  /** Each thread has counted what it took, but for one it just took. */
  ghost predicate CountsRight(s: State)
    requires |s.count| == |s.threads|
  {
    forall i {:trigger s.threads[i]} :: 0 <= i < |s.threads| ==>
      s.count[i] + (if s.threads[i].Got? then 1 else 0) == Tally(Takers(s.taken), i)
  }

  lemma {:induction false} PutConserves(s: State, wake: set<nat>)
    requires Inv(s) && !s.quit && s.pending.Some?
    ensures var r := s.PutStep(wake);
            && r.Shape() && (r.quit ==> r.iput == r.iget) && Conserves(r)
            && (r.quit <==> Queued(s) == MAXNCLI - 1)
            && Queued(r) == Queued(s) + 1 && r.taken == s.taken && r.count == s.count
            && forall i :: 0 <= i < |s.threads| ==>
                 r.threads[i] == if !r.quit && s.threads[i] == Sleeping && i in wake then Woken else s.threads[i]
  {
    hide Held, Fds, CountsRight, ServesRight;
    var fd, q := s.pending.value, Queued(s);
    HeldSet(s.clifd, s.iget, q, fd);
    assert Fds(s.taken) + Held(s.clifd, s.iget, q) + [fd] == Fds(s.taken) + (Held(s.clifd, s.iget, q) + [fd]);
  }

  lemma {:induction false} PutKeeps(s: State, wake: set<nat>)
    requires Inv(s) && !s.quit && s.Possible(Put(wake))
    ensures Inv(s.PutStep(wake))
  {
    var r := s.PutStep(wake);
    PutConserves(s, wake);
    if !r.quit && Sleeping in r.threads {
      assert Sleeping in s.threads;
      var k :| 0 <= k < |s.threads| && k in wake && s.threads[k] == Sleeping;
      SignalTally(s.threads, wake, k);
    }
    hide Held, Fds, Conserves, Tally, LastBy;
  }

  lemma {:induction false} TakeConserves(s: State, i: nat)
    requires s.Shape() && Conserves(s) && !s.quit && i < |s.threads| && s.iget != s.iput
    ensures var r := s.LockStep(i);
            r.Shape() && Conserves(r) && Queued(r) == Queued(s) - 1
  {
    var r := s.LockStep(i);
    var fd, q := s.clifd[s.iget], Queued(s);
    HeldNext(s.clifd, s.iget, q);
    assert Fds(r.taken) == Fds(s.taken) + [fd];
    hide Fds, Tally;
    var rest := Held(s.clifd, Next(s.iget, MAXNCLI), q - 1);
    assert Fds(s.taken) + ([fd] + rest) + Pending(s) == (Fds(s.taken) + [fd]) + rest + Pending(s);
    hide Held;
  }

  lemma {:induction false} TakeCounts(s: State, i: nat)
    requires Inv(s) && i < |s.threads| && !s.threads[i].Got? && s.iget != s.iput
    ensures CountsRight(s.LockStep(i))
  {
    var r := s.LockStep(i);
    var before, after := Takers(s.taken), Takers(r.taken);
    assert after == before + [i] && after[..|before|] == before;
    hide Held, Fds, Takers;
  }

  lemma {:induction false} TakeServes(s: State, i: nat)
    requires Inv(s) && i < |s.threads| && s.iget != s.iput
    ensures ServesRight(s.LockStep(i))
  {
    var r := s.LockStep(i);
    assert r.taken[..|s.taken|] == s.taken;
    hide Held, Fds, Takers, Conserves, CountsRight;
  }

  lemma {:induction false} LockKeeps(s: State, i: nat)
    requires Inv(s) && !s.quit && s.Possible(Lock(i))
    ensures Inv(s.LockStep(i))
  {
    var r := s.LockStep(i);
    TallySet(s.threads, i, r.threads[i], Woken);
    if s.iget != s.iput {
      TakeConserves(s, i);
      TakeCounts(s, i);
      TakeServes(s, i);
    }
    hide Held, Fds, Takers, Tally, LastBy;
  }

  /** What happens outside the mutex: a thread that was woken or has finished can lock it, one that
      has counted can finish, and the other threads are not touched. */
  lemma {:induction false} OutsideKeeps(s: State, e: Event)
    requires Inv(s) && !s.quit && s.Possible(e) && (e.Wake? || e.Count? || e.Finish?)
    ensures Inv(s.Step(e))
    ensures var r := s.Step(e);
            && r.threads == s.threads[e.i := r.threads[e.i]] && r.taken == s.taken && r.accepted == s.accepted
            && r.Possible(if e.Count? then Finish(e.i) else Lock(e.i))
  {
    hide Held, Fds, Takers, Tally, LastBy;
    TallySet(s.threads, e.i, s.Step(e).threads[e.i], Woken);
  }

  lemma {:induction false} AcceptKeeps(s: State, fd: int)
    requires Inv(s) && !s.quit && s.pending.None?
    ensures Inv(s.Step(Accept(fd)))
  {
    hide Held, Fds, Takers, Tally, LastBy;
    assert s.accepted + [fd] == Fds(s.taken) + Held(s.clifd, s.iget, Queued(s)) + [fd];
  }

  lemma {:induction false} StepKeeps(s: State, e: Event)
    requires Inv(s) && !s.quit && s.Possible(e)
    ensures Inv(s.Step(e))
  {
    hide Inv;
    match e
    case Accept(fd) => AcceptKeeps(s, fd);
    case Put(wake) => PutKeeps(s, wake);
    case Lock(i) => LockKeeps(s, i);
    case _ => OutsideKeeps(s, e);
  }

  // ---- every run

  /** The state after a sequence of events; those that cannot happen are passed over. */
  ghost function Run(s: State, es: seq<Event>): (r: State)
    requires Inv(s)
    ensures Inv(r)
    decreases es
  {
    if es == [] || s.quit then s
    else if !s.Possible(es[0]) then Run(s, es[1..])
    else
      StepKeeps(s, es[0]);
      Run(s.Step(es[0]), es[1..])
  }

  function Start(clifd: seq<int>, nthreads: nat): (s: State)
    requires |clifd| == MAXNCLI
    ensures Inv(s)
  {
    var s := State(clifd, 0, 0, seq(nthreads, _ => Ready), seq(nthreads, _ => 0), None, false, [], []);
    assert Held(clifd, 0, 0) == [];
    s
  }

  /** In every interleaving: the descriptors accepted are those the threads took, each by one
      thread and in the order of acceptance, then those in the ring, then at most one still in
      the main thread's hands; and a descriptor in the ring has a thread woken for it, or no
      thread sleeps: no wakeup is lost. */
  lemma {:induction false} EveryRun(clifd: seq<int>, nthreads: nat, es: seq<Event>)
    requires |clifd| == MAXNCLI
    ensures var s := Run(Start(clifd, nthreads), es);
            && s.accepted == Fds(s.taken) + Held(s.clifd, s.iget, Queued(s)) + Pending(s)
            && CountsRight(s) && ServesRight(s)
            && (!s.quit ==> Queued(s) < 32)
            && (!s.quit && Sleeping in s.threads ==> Queued(s) <= Tally(s.threads, Woken))
            && (!s.quit && s.threads != [] && (forall t :: t in s.threads ==> t == Sleeping) ==> Queued(s) == 0)
  {
    var s := Run(Start(clifd, nthreads), es);
    assert Inv(s);
    hide Run, Held, Takers, Fds, LastBy;
    if Woken !in s.threads {
      TallyNone(s.threads, Woken);
    }
    if s.threads != [] {
      assert s.threads[0] in s.threads;
    }
  }

  /** The server quits exactly when the main thread would put in a 32nd descriptor that nobody
      has taken. */
  lemma {:induction false} QuitExactly(s: State, e: Event)
    requires Inv(s) && !s.quit && s.Possible(e)
    ensures s.Step(e).quit <==> e.Put? && |s.accepted| - |s.taken| == 32
  {
  }

  /** A thread that gets the mutex takes the oldest descriptor nobody has taken, if the main thread
      has put one in, and sleeps otherwise. */
  lemma {:induction false} TakesOldest(s: State, i: nat)
    requires Inv(s) && !s.quit && i < |s.threads| && (s.threads[i] == Ready || s.threads[i] == Woken)
    ensures s.Possible(Lock(i))
    ensures var r, k := s.Step(Lock(i)), |s.taken|;
            if |s.accepted| - k > |Pending(s)|
            then r.threads == s.threads[i := Got(s.accepted[k])] && r.taken == s.taken + [Taken(s.accepted[k], i)]
            else r == s.(threads := s.threads[i := Sleeping])
  {
    hide CountsRight, ServesRight;
    assert |Fds(s.taken)| == |s.taken| && |Held(s.clifd, s.iget, Queued(s))| == Queued(s);
    if s.iget != s.iput {
      HeldNext(s.clifd, s.iget, Queued(s));
      assert s.accepted[|s.taken|] == s.clifd[s.iget];
    }
  }

  // ---- the program

  class Server {
    const clifd: array<int>
    const threads: array<Thread>
    const count: array<nat>
    var iget: nat
    var iput: nat
    var pending: Option<int>
    var quit: bool
    var accepted: seq<int>
    var taken: seq<Taken>

    constructor (nthreads: nat)
      ensures fresh(clifd) && fresh(threads) && fresh(count)
      ensures clifd.Length == MAXNCLI && View() == Start(clifd[..], nthreads)
    {
      clifd := new int[MAXNCLI];
      threads := new Thread[nthreads](_ => Ready);
      count := new nat[nthreads](_ => 0);
      iget, iput, pending, quit, accepted, taken := 0, 0, None, false, [], [];
      new;
      assert threads[..] == seq(nthreads, _ => Ready);
      assert count[..] == seq(nthreads, _ => 0);
    }

    function View(): State
      reads this, clifd, threads, count
    {
      State(clifd[..], iget, iput, threads[..], count[..], pending, quit, accepted, taken)
    }

    method Accept(fd: int)
      modifies this
      ensures View() == old(View()).(pending := Some(fd), accepted := old(accepted) + [fd])
    {
      pending := Some(fd);
      accepted := accepted + [fd];
    }

    /** `Pthread_mutex_lock` to `Pthread_mutex_unlock` in the main thread. */
    method Put(wake: set<nat>)
      requires View().Shape() && pending.Some?
      modifies this, clifd, threads
      ensures View() == old(View()).PutStep(wake)
    {
      clifd[iput] := pending.value;
      pending := None;
      iput := iput + 1;
      if iput == MAXNCLI {
        iput := 0;
      }
      if iput == iget {
        quit := true;
      } else {
        CondSignal(wake);
      }
    }

    method CondSignal(wake: set<nat>)
      modifies threads
      ensures threads[..] == Signal(old(threads[..]), wake)
    {
      forall i | 0 <= i < threads.Length && threads[i] == Sleeping && i in wake {
        threads[i] := Woken;
      }
    }

    /** A worker between getting the mutex and giving it up, here or in `pthread_cond_wait`. */
    method Lock(i: nat)
      requires View().Shape() && i < threads.Length
      modifies this, threads
      ensures View() == old(View()).LockStep(i)
    {
      if iget == iput {
        threads[i] := Sleeping;
        return;
      }
      var connfd := clifd[iget];
      iget := iget + 1;
      if iget == MAXNCLI {
        iget := 0;
      }
      threads[i] := Got(connfd);
      taken := taken + [Taken(connfd, i)];
    }

    method Step(e: Event)
      requires View().Shape() && View().Possible(e)
      modifies this, clifd, threads, count
      ensures View() == old(View()).Step(e)
    {
      match e
      case Accept(fd) => Accept(fd);
      case Put(wake) => Put(wake);
      case Lock(i) => Lock(i);
      case Wake(i) => threads[i] := Woken;
      case Count(i) =>
        count[i] := count[i] + 1;
        threads[i] := Serving(threads[i].fd);
      case Finish(i) => threads[i] := Ready;
    }

    /** Any interleaving. */
    method Interleave(es: seq<Event>)
      requires Inv(View())
      modifies this, clifd, threads, count
      ensures Inv(View()) && View() == Run(old(View()), es)
    {
      var k := 0;
      while k < |es| && !quit
        invariant 0 <= k <= |es| && Inv(View())
        invariant Run(old(View()), es) == Run(View(), es[k..])
      {
        assert es[k..][0] == es[k] && es[k..][1..] == es[k + 1..];
        if View().Possible(es[k]) {
          StepKeeps(View(), es[k]);
          Step(es[k]);
        }
        k := k + 1;
      }
    }
  }
}
