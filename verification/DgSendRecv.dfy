/** `dg_send_recv` of rtt/dg_send_recv.c: a reliable request over a network that may lose,
    duplicate, delay and reorder datagrams but echoes their headers unchanged.

    What the network and the clock do is an arbitrary script. The class does what the program
    does, and its state is tied to the function `Call`, about which the properties of all runs
    are proved. */
module DgSendRecv {
  import opened Basics
  import opened Rtt

  const HEADER := 8  // sizeof(struct hdr)

  /** One datagram handed to the network: its header, the call it was sent by and when. */
  datatype Transmission = Transmission(call: nat, seqno: nat, ts: nat, at: nat)

  /** A reply that ended a call: the transmission it echoes, when, and the sample taken. */
  datatype Accepted = Accepted(call: nat, which: nat, at: nat, sample: nat)

  /** What can happen while a call waits: a datagram of `n` bytes arrives that echoes the
      header of the transmission `which`, or the alarm fires. `at` is the time of day. */
  datatype Event = Reply(which: nat, n: nat, at: nat) | Alarm(at: nat)

  /** The two clock readings and the events of one call. When the events run out the alarm
      fires. */
  datatype Course = Course(initAt: nat, startAt: nat, events: seq<Event>)

  /** The clock never goes back. */
  function Later(a: nat, b: nat): nat { if a < b then b else a }

  // ---- what a call does

  /** The static variables, the time of day, and all there ever was on the network. The sequence
      number is the number of calls, in 32 bits. */
  datatype State = State(rttinit: bool, est: Estimates, calls: nat, clock: nat,
                         sent: seq<Transmission>, accepted: seq<Accepted>)
  {
    function Seqno(): nat { calls % U32 }

    function Begin(t: nat): State {
      var now := Later(clock, t);
      var e := if rttinit then est else est.Initialised(now);
      this.(rttinit := true, est := e.(nrexmt := 0), calls := calls + 1, clock := now)
    }

    function Transmit(t: nat): State {
      var now := Later(clock, t);
      this.(clock := now, sent := sent + [Transmission(calls, Seqno(), Timestamp(est.base, now), now)])
    }

    /** The sample is now minus the timestamp echoed, in 32 bits. */
    function Accept(which: nat, t: nat): State
      requires which < |sent|
    {
      var now := Later(clock, t);
      var sample := (Timestamp(est.base, now) - sent[which].ts) % U32;
      this.(clock := now, est := est.Stopped(sample),
            accepted := accepted + [Accepted(calls, which, now, sample)])
    }

    predicate Matches(e: Event) {
      e.Reply? && e.which < |sent| && e.n >= HEADER && sent[e.which].seqno == Seqno()
    }

    /** The first event from `i` on that is an alarm or a reply to take. One that echoes a datagram
        not sent yet cannot happen. */
    function Next(events: seq<Event>, i: nat): (j: nat)
      requires i <= |events|
      ensures i <= j <= |events|
      ensures j < |events| ==> events[j].Alarm? || Matches(events[j])
      ensures forall k :: i <= k < j ==> events[k].Reply? && !Matches(events[k])
      decreases |events| - i
    {
      if i == |events| || events[i].Alarm? || Matches(events[i]) then i else Next(events, i + 1)
    }
  }

  const START := State(false, Estimates(0.0, 0.0, 0.0, 0.0, 0, 0), 0, 0, [], [])

  /** What a call leaves, returns and armed. */
  datatype Outcome = Outcome(state: State, n: int, alarms: seq<int>)

  /** From a transmission at time `t` to the end of the call. */
  function Await(s: State, t: nat, events: seq<Event>, i: nat): Outcome
    requires i <= |events| && s.est.nrexmt <= MAXNREXMT
    decreases MAXNREXMT - s.est.nrexmt
  {
    var u, secs := s.Transmit(t), s.est.Start();
    var j := u.Next(events, i);
    if j < |events| && events[j].Reply? then
      Outcome(u.Accept(events[j].which, events[j].at), events[j].n - HEADER, [secs])
    else
      var v := u.(est := u.est.TimedOut());
      if v.est.nrexmt > MAXNREXMT then Outcome(v.(rttinit := false), -1, [secs])
      else
        var r := if j < |events| then Await(v, events[j].at, events, j + 1) else Await(v, t, events, j);
        r.(alarms := [secs] + r.alarms)
  }

  function Call(s: State, c: Course): Outcome { Await(s.Begin(c.initAt), c.startAt, c.events, 0) }

  /** The state after a run of calls, and what they returned. */
  function After(s: State, cs: seq<Course>): State
    decreases cs
  {
    if cs == [] then s else After(Call(s, cs[0]).state, cs[1..])
  }

  function Returned(s: State, cs: seq<Course>): seq<int>
    decreases cs
  {
    if cs == [] then [] else [Call(s, cs[0]).n] + Returned(Call(s, cs[0]).state, cs[1..])
  }

  // ---- which reply ends a call

  /** Does event `e`, after `alarms` alarms, end a call with number `q`? `seqnos` are the numbers of
      the datagrams sent before the call, which itself has then sent `alarms + 1` more. */
  predicate Fits(e: Event, seqnos: seq<nat>, q: nat, alarms: nat)
  {
    e.Reply? && e.n >= HEADER && e.which < |seqnos| + 1 + alarms
    && (e.which < |seqnos| ==> seqnos[e.which] == q)
  }

  function AlarmsBefore(events: seq<Event>, i: nat): nat
    requires i <= |events|
  {
    if i == 0 then 0 else AlarmsBefore(events, i - 1) + if events[i - 1].Alarm? then 1 else 0
  }

  /** Could event `i` end the call, if none before it does? */
  predicate Ends(events: seq<Event>, i: nat, seqnos: seq<nat>, q: nat)
  {
    && i < |events| && AlarmsBefore(events, i) <= 3
    && Fits(events[i], seqnos, q, AlarmsBefore(events, i))
  }

  /** The event that ends a call, and the alarms before it. */
  datatype Answer = Answer(i: nat, alarms: nat)

  /** From event `i` on, with `a` alarms before it. */
  function FirstMatch(events: seq<Event>, i: nat, seqnos: seq<nat>, q: nat, a: nat): Option<Answer>
    decreases |events| - i
  {
    if i >= |events| || a > MAXNREXMT then None
    else if events[i].Alarm? then FirstMatch(events, i + 1, seqnos, q, a + 1)
    else if Fits(events[i], seqnos, q, a) then Some(Answer(i, a))
    else FirstMatch(events, i + 1, seqnos, q, a)
  }

  lemma {:induction false} AlarmsGrow(events: seq<Event>, i: nat, j: nat)
    requires i <= j <= |events|
    ensures AlarmsBefore(events, i) <= AlarmsBefore(events, j)
  {
    if i < j {
      AlarmsGrow(events, i, j - 1);
    }
  }

  lemma {:induction false} FirstMatchFrom(events: seq<Event>, k: nat, seqnos: seq<nat>, q: nat)
    requires k <= |events|
    ensures var r := FirstMatch(events, k, seqnos, q, AlarmsBefore(events, k));
            && (r.None? ==> forall j :: k <= j ==> !Ends(events, j, seqnos, q))
            && (r.Some? ==>
                 && k <= r.value.i && Ends(events, r.value.i, seqnos, q)
                 && r.value.alarms == AlarmsBefore(events, r.value.i)
                 && forall j :: k <= j < r.value.i ==> !Ends(events, j, seqnos, q))
    decreases |events| - k
  {
    if k < |events| {
      var a := AlarmsBefore(events, k);
      if a > MAXNREXMT {
        forall j | k <= j < |events| ensures !Ends(events, j, seqnos, q) {
          AlarmsGrow(events, k, j);
        }
      } else {
        FirstMatchFrom(events, k + 1, seqnos, q);
      }
    }
  }

  /** The answer is the least event that can end the call: a long enough datagram, at most three
      alarms into the call, that echoes the call's number and was sent by then. There is none
      exactly when no event can. */
  lemma {:induction false} FirstMatchMeans(events: seq<Event>, seqnos: seq<nat>, q: nat, ans: Answer)
    ensures var r := FirstMatch(events, 0, seqnos, q, 0);
            && (r == Some(ans) <==> && Ends(events, ans.i, seqnos, q)
                                    && ans.alarms == AlarmsBefore(events, ans.i)
                                    && forall j: nat :: j < ans.i ==> !Ends(events, j, seqnos, q))
            && (r == None <==> forall j: nat :: !Ends(events, j, seqnos, q))
  {
    FirstMatchFrom(events, 0, seqnos, q);
  }

  /** Datagrams that do not fit are passed over. */
  lemma {:induction false} SkipMatch(events: seq<Event>, i: nat, j: nat, seqnos: seq<nat>, q: nat, a: nat)
    requires i <= j <= |events| && a <= MAXNREXMT
    requires forall k :: i <= k < j ==> events[k].Reply? && !Fits(events[k], seqnos, q, a)
    ensures FirstMatch(events, i, seqnos, q, a) == FirstMatch(events, j, seqnos, q, a)
    decreases j - i
  {
    if i < j {
      SkipMatch(events, i + 1, j, seqnos, q, a);
    }
  }

  /** What a call should return, and how often it should send. */
  function Result(events: seq<Event>, seqnos: seq<nat>, q: nat): int
  {
    FirstMatchBounds(events, 0, seqnos, q, 0);
    var r := FirstMatch(events, 0, seqnos, q, 0);
    if r.Some? then events[r.value.i].n - HEADER else -1
  }

  function Sends(events: seq<Event>, seqnos: seq<nat>, q: nat): nat
  {
    var r := FirstMatch(events, 0, seqnos, q, 0);
    if r.Some? then r.value.alarms + 1 else 4
  }

  lemma {:induction false} FirstMatchBounds(events: seq<Event>, i: nat, seqnos: seq<nat>, q: nat, a: nat)
    ensures var r := FirstMatch(events, i, seqnos, q, a);
            r.Some? ==> i <= r.value.i < |events| && events[r.value.i].Reply? && events[r.value.i].n >= HEADER
                        && r.value.alarms <= MAXNREXMT
    decreases |events| - i
  {
    if i < |events| && a <= MAXNREXMT {
      FirstMatchBounds(events, i + 1, seqnos, q, if events[i].Alarm? then a + 1 else a);
    }
  }

  function Repeat(q: nat, k: nat): seq<nat> { seq(k, _ => q) }

  function Seqnos(sent: seq<Transmission>): seq<nat> {
    seq(|sent|, i requires 0 <= i < |sent| => sent[i].seqno)
  }

  /** One attempt: the wait ends at the first event that fits, or at an alarm. */
  lemma {:induction false} AttemptMatches(s: State, t: nat, events: seq<Event>, i: nat, was: seq<nat>)
    requires i <= |events| && s.est.nrexmt <= MAXNREXMT
    requires Seqnos(s.sent) == was + Repeat(s.Seqno(), s.est.nrexmt)
    ensures var u, q, a := s.Transmit(t), s.Seqno(), s.est.nrexmt;
            var j := u.Next(events, i);
            && Seqnos(u.sent) == was + Repeat(q, a + 1)
            && FirstMatch(events, i, was, q, a)
               == (if j == |events| then None else if events[j].Reply? then Some(Answer(j, a))
                   else FirstMatch(events, j + 1, was, q, a + 1))
  {
    var a, q, u := s.est.nrexmt, s.Seqno(), s.Transmit(t);
    SeqnosSnoc(s.sent, u.sent[|s.sent|], was, q, a);
    var j := u.Next(events, i);
    forall k | i <= k < |events| ensures u.Matches(events[k]) <==> Fits(events[k], was, q, a) {
      MatchesFits(u, events[k], was, a);
    }
    hide Seqnos, Repeat, Fits, State.Matches, Timestamp;
    SkipMatch(events, i, j, was, q, a);
  }

  lemma {:induction false} NoMore(events: seq<Event>, i: nat, was: seq<nat>, q: nat, a: nat)
    ensures FirstMatch(events, |events|, was, q, a) == FirstMatch(events, i, was, q, MAXNREXMT + 1) == None
  {
  }

  /** The answer and the attempts from an attempt on. */
  lemma {:induction false} AwaitMatches(s: State, t: nat, events: seq<Event>, i: nat, was: seq<nat>)
    requires i <= |events| && s.est.nrexmt <= MAXNREXMT
    requires Seqnos(s.sent) == was + Repeat(s.Seqno(), s.est.nrexmt)
    ensures var r, m := Await(s, t, events, i), FirstMatch(events, i, was, s.Seqno(), s.est.nrexmt);
            var k := if m.Some? then m.value.alarms + 1 else MAXNREXMT + 1;
            && (m.Some? ==> m.value.i < |events| && events[m.value.i].Reply?)
            && r.n == (if m.Some? then events[m.value.i].n - HEADER else -1)
            && |r.alarms| == k - s.est.nrexmt
            && Seqnos(r.state.sent) == was + Repeat(s.Seqno(), k)
            && r.state.calls == s.calls
    decreases MAXNREXMT - s.est.nrexmt
  {
    hide FirstMatch, Seqnos, Repeat, Fits, State.Matches, State.Next, Timestamp, Estimates.Stopped;
    AttemptMatches(s, t, events, i, was);
    var u := s.Transmit(t);
    var j := u.Next(events, i);
    NoMore(events, j + 1, was, s.Seqno(), s.est.nrexmt + 1);
    if (j == |events| || events[j].Alarm?) && s.est.nrexmt < MAXNREXMT {
      var v := u.(est := u.est.TimedOut());
      if j < |events| {
        AwaitMatches(v, events[j].at, events, j + 1, was);
      } else {
        AwaitMatches(v, t, events, j, was);
      }
    }
  }

  lemma {:induction false} SeqnosSnoc(sent: seq<Transmission>, x: Transmission, was: seq<nat>, q: nat, a: nat)
    requires Seqnos(sent) == was + Repeat(q, a) && x.seqno == q
    ensures Seqnos(sent + [x]) == was + Repeat(q, a + 1)
  {
    assert Seqnos(sent + [x]) == Seqnos(sent) + [q] && Repeat(q, a) + [q] == Repeat(q, a + 1);
  }

  lemma {:induction false} MatchesFits(s: State, e: Event, was: seq<nat>, a: nat)
    requires Seqnos(s.sent) == was + Repeat(s.Seqno(), a + 1)
    ensures s.Matches(e) <==> Fits(e, was, s.Seqno(), a)
  {
    assert |Seqnos(s.sent)| == |s.sent|;
    if e.Reply? && e.which < |s.sent| {
      assert Seqnos(s.sent)[e.which] == s.sent[e.which].seqno;
    }
  }

  /** Whatever the estimators do, a call returns the length of the first reply that fits, or -1,
      and sends accordingly. */
  lemma {:induction false} CallReturns(s: State, c: Course)
    ensures var r, was, q := Call(s, c), Seqnos(s.sent), (s.calls + 1) % U32;
            && r.n == Result(c.events, was, q)
            && |r.alarms| == Sends(c.events, was, q) <= 4
            && Seqnos(r.state.sent) == was + Repeat(q, |r.alarms|)
            && r.state.calls == s.calls + 1
  {
    hide Await, FirstMatch;
    var was := Seqnos(s.sent);
    assert was == was + Repeat((s.calls + 1) % U32, 0);
    AwaitMatches(s.Begin(c.initAt), c.startAt, c.events, 0, was);
    FirstMatchBounds(c.events, 0, was, (s.calls + 1) % U32, 0);
  }

  // ---- the alarms

  /** The timeout after `k` timeouts, and in whole seconds. */
  function Doubled(rto: real, k: nat): real
    decreases k
  {
    if k == 0 then rto else Doubled(2.0 * rto, k - 1)
  }

  function Rounded(x: real): int { (x + 0.5).Floor }

  function Schedule(rto: real, n: nat): seq<int> { seq(n, k requires 0 <= k => Rounded(Doubled(rto, k))) }

  lemma {:induction false} AwaitAlarms(s: State, t: nat, events: seq<Event>, i: nat)
    requires i <= |events| && s.est.nrexmt <= MAXNREXMT
    ensures var r := Await(s, t, events, i); r.alarms == Schedule(s.est.rto, |r.alarms|)
    decreases MAXNREXMT - s.est.nrexmt
  {
    hide State.Next, State.Matches, State.Accept, Timestamp;
    var u := s.Transmit(t);
    var j := u.Next(events, i);
    if (j == |events| || events[j].Alarm?) && s.est.nrexmt < MAXNREXMT {
      var v := u.(est := u.est.TimedOut());
      if j < |events| {
        AwaitAlarms(v, events[j].at, events, j + 1);
      } else {
        AwaitAlarms(v, t, events, j);
      }
    }
  }

  /** The timeout a call starts with. */
  function FirstRto(s: State): real { if s.rttinit then s.est.rto else 3.0 }

  /** The alarms a call arms are its first timeout, doubled each time, in whole seconds. */
  lemma {:induction false} CallAlarms(s: State, c: Course)
    ensures var r := Call(s, c); r.alarms == Schedule(FirstRto(s), |r.alarms|)
  {
    FirstTimeout(s.est, Later(s.clock, c.initAt));
    hide Await, Schedule;
    AwaitAlarms(s.Begin(c.initAt), c.startAt, c.events, 0);
  }

  function Total(alarms: seq<int>): int { if alarms == [] then 0 else alarms[0] + Total(alarms[1..]) }

  function Power(k: nat): nat { if k == 0 then 1 else 2 * Power(k - 1) }

  lemma {:induction false} DoublePower(m: nat, k: nat)
    ensures 2 * m * Power(k) == m * Power(k + 1) && Power(0) == 1
  {
    assert m * (2 * Power(k)) == 2 * m * Power(k);
  }

  lemma {:induction false} ScheduleCons(rto: real, n: nat)
    requires n > 0
    ensures Schedule(rto, n) == [Rounded(rto)] + Schedule(2.0 * rto, n - 1)
  {
  }

  /** Between two seconds and `m`, doubling: within `m` times a power of two, and in all too. */
  lemma {:induction false} ScheduleBounds(rto: real, m: nat, n: nat)
    requires RXTMIN <= rto <= m as real
    ensures Total(Schedule(rto, n)) <= m * Power(n) - m
    ensures forall k :: 0 <= k < n ==> 2 <= Schedule(rto, n)[k] <= m * Power(k)
    decreases n
  {
    DoublePower(m, n);
    if n > 0 {
      hide Schedule, Power, Rounded;
      var all, rest := Schedule(rto, n), Schedule(2.0 * rto, n - 1);
      RoundedBounds(rto, m);
      ScheduleCons(rto, n);
      ScheduleBounds(2.0 * rto, 2 * m, n - 1);
      DoublePower(m, n - 1);
      assert all[1..] == rest;
      forall k | 0 <= k < n ensures 2 <= all[k] <= m * Power(k) {
        if k > 0 {
          DoublePower(m, k - 1);
          assert all[k] == rest[k - 1];
        }
      }
    }
  }

  lemma {:induction false} RoundedBounds(rto: real, m: nat)
    requires RXTMIN <= rto <= m as real
    ensures 2 <= Rounded(rto) <= m
  {
  }

  // ---- the datagrams and their times

  /** The times of the alarms from event `i` on. */
  function AlarmTimes(events: seq<Event>, i: nat): seq<nat>
    requires i <= |events|
    decreases |events| - i
  {
    if i == |events| then []
    else if events[i].Reply? then AlarmTimes(events, i + 1)
    else [events[i].at] + AlarmTimes(events, i + 1)
  }

  /** When `n` datagrams go out, the first at `t` and each further one at an alarm. */
  function SendTimes(t: nat, alarms: seq<nat>, n: nat): seq<nat>
    decreases n
  {
    if n == 0 then []
    else if alarms == [] then [t] + SendTimes(t, [], n - 1)
    else [t] + SendTimes(Later(t, alarms[0]), alarms[1..], n - 1)
  }

  /** The datagrams of call number `call` sent at these times. */
  function Datagrams(call: nat, base: nat, times: seq<nat>): seq<Transmission> {
    seq(|times|, k requires 0 <= k < |times| => Transmission(call, call % U32, Timestamp(base, times[k]), times[k]))
  }

  lemma {:induction false} AlarmTimesSkip(events: seq<Event>, i: nat, j: nat)
    requires i <= j <= |events| && forall k :: i <= k < j ==> events[k].Reply?
    ensures AlarmTimes(events, i) == AlarmTimes(events, j)
    decreases j - i
  {
    if i < j {
      AlarmTimesSkip(events, i + 1, j);
    }
  }

  lemma {:induction false} DatagramsCons(call: nat, base: nat, t: nat, times: seq<nat>)
    ensures Datagrams(call, base, [t] + times)
         == [Transmission(call, call % U32, Timestamp(base, t), t)] + Datagrams(call, base, times)
  {
    hide Timestamp;
  }

  lemma {:induction false} AwaitSends(s: State, t: nat, events: seq<Event>, i: nat)
    requires i <= |events| && s.est.nrexmt <= MAXNREXMT
    ensures var r := Await(s, t, events, i);
            && r.state.sent == s.sent + Datagrams(s.calls, s.est.base,
                                 SendTimes(Later(s.clock, t), AlarmTimes(events, i), |r.alarms|))
    decreases MAXNREXMT - s.est.nrexmt
  {
    hide State.Next, State.Matches, Timestamp, Datagrams, AlarmTimes;
    var u := s.Transmit(t);
    var j := u.Next(events, i);
    AlarmTimesSkip(events, i, j);
    AlarmTimesAt(events, j);
    var r := Await(s, t, events, i);
    var rest := SendTimes(u.clock, AlarmTimes(events, j), |r.alarms|)[1..];
    DatagramsCons(s.calls, s.est.base, u.clock, rest);
    var x := u.sent[|s.sent|];
    if (j == |events| || events[j].Alarm?) && s.est.nrexmt < MAXNREXMT {
      var v := u.(est := u.est.TimedOut());
      if j < |events| {
        AwaitSends(v, events[j].at, events, j + 1);
      } else {
        AwaitSends(v, t, events, j);
      }
      assert s.sent + [x] + Datagrams(s.calls, s.est.base, rest)
          == s.sent + ([x] + Datagrams(s.calls, s.est.base, rest));
    } else {
      NoDatagrams(s.calls, s.est.base);
      assert rest == [] && [x] + [] == [x];
    }
  }

  lemma {:induction false} NoDatagrams(call: nat, base: nat)
    ensures Datagrams(call, base, []) == []
  {
  }

  lemma {:induction false} AlarmTimesAt(events: seq<Event>, j: nat)
    requires j <= |events|
    ensures j == |events| ==> AlarmTimes(events, j) == []
    ensures j < |events| && events[j].Alarm? ==> AlarmTimes(events, j) == [events[j].at] + AlarmTimes(events, j + 1)
  {
  }

  /** A call in closed form, part one: one datagram per alarm armed, with the call's number and the
      time of day in its header; the first goes out when the call starts, each further one when an
      alarm fires. */
  lemma {:induction false} CallSends(s: State, c: Course)
    ensures var r := Call(s, c);
            var times := SendTimes(Later(Later(s.clock, c.initAt), c.startAt), AlarmTimes(c.events, 0), |r.alarms|);
            var base := if s.rttinit then s.est.base else Later(s.clock, c.initAt) / 1_000_000 % U32;
            && r.state.calls == s.calls + 1
            && r.state.sent == s.sent + Datagrams(s.calls + 1, base, times)
  {
    CallReturns(s, c);
    hide Await, Seqnos, Repeat, Sends;
    AwaitSends(s.Begin(c.initAt), c.startAt, c.events, 0);
  }

  // ---- the reply

  /** What an answer at event `i` does to a call that has sent what `r` has sent. */
  ghost predicate Took(s: State, r: State, e: Event)
  {
    && e.Reply? && e.which < |r.sent| && |r.sent| > 0
    && r.clock == Later(r.sent[|r.sent| - 1].at, e.at)
    && var sample := (Timestamp(s.est.base, r.clock) - r.sent[e.which].ts) % U32;
       && r.accepted == s.accepted + [Accepted(s.calls, e.which, r.clock, sample)]
       && r.rttinit == s.rttinit
       && r.est == s.est.Stopped(sample).(nrexmt := r.est.nrexmt)
  }

  lemma {:induction false} AwaitTakes(s: State, t: nat, events: seq<Event>, i: nat, was: seq<nat>)
    requires i <= |events| && s.est.nrexmt <= MAXNREXMT
    requires Seqnos(s.sent) == was + Repeat(s.Seqno(), s.est.nrexmt)
    ensures var r, m := Await(s, t, events, i).state, FirstMatch(events, i, was, s.Seqno(), s.est.nrexmt);
            && (m.None? ==> r.accepted == s.accepted && !r.rttinit)
            && (m.Some? ==> m.value.i < |events| && Took(s, r, events[m.value.i]))
    decreases MAXNREXMT - s.est.nrexmt
  {
    hide FirstMatch, Seqnos, Repeat, Fits, Timestamp, Took, State.Next, State.Accept;
    AttemptMatches(s, t, events, i, was);
    var u := s.Transmit(t);
    var j := u.Next(events, i);
    NoMore(events, j + 1, was, s.Seqno(), s.est.nrexmt + 1);
    if j < |events| && events[j].Reply? {
      TookNow(s, t, events[j]);
    } else if s.est.nrexmt < MAXNREXMT {
      var v := u.(est := u.est.TimedOut());
      var t', i' := if j < |events| then events[j].at else t, if j < |events| then j + 1 else j;
      AwaitTakes(v, t', events, i', was);
      var m := FirstMatch(events, i', was, s.Seqno(), v.est.nrexmt);
      if m.Some? {
        TookLater(s, v, Await(v, t', events, i').state, events[m.value.i]);
      }
    }
  }

  lemma {:induction false} TookNow(s: State, t: nat, e: Event)
    requires var u := s.Transmit(t); e.Reply? && e.which < |u.sent|
    ensures Took(s, s.Transmit(t).Accept(e.which, e.at), e)
  {
    hide Timestamp, Estimates.Stopped;
  }

  /** A timeout makes no difference to what a reply does. */
  lemma {:induction false} TookLater(s: State, v: State, r: State, e: Event)
    requires Took(v, r, e) && v.est == s.est.TimedOut()
    requires v.calls == s.calls && v.accepted == s.accepted && v.rttinit == s.rttinit
    ensures Took(s, r, e)
  {
    hide Timestamp;
  }

  /** A call in closed form, part two: the first reply that fits is taken at the time it arrives, and
      the estimators get the time of day then minus the time in the header it echoes, in 32 bits;
      without one nothing is taken and the estimators start afresh. */
  lemma {:induction false} CallTakes(s: State, c: Course)
    ensures var r, b := Call(s, c).state, s.Begin(c.initAt);
            var m := FirstMatch(c.events, 0, Seqnos(s.sent), b.Seqno(), 0);
            && (m.None? ==> r.accepted == s.accepted && !r.rttinit)
            && (m.Some? ==> m.value.i < |c.events| && Took(b, r, c.events[m.value.i]))
  {
    hide Await, FirstMatch, Took;
    var was := Seqnos(s.sent);
    assert was == was + Repeat((s.calls + 1) % U32, 0);
    AwaitTakes(s.Begin(c.initAt), c.startAt, c.events, 0, was);
  }

  // ---- every run

  /** What is known of every accepted reply. */
  ghost predicate Sound(sent: seq<Transmission>, a: Accepted)
  {
    && a.which < |sent|
    && var s := sent[a.which];
       && s.seqno == s.call % U32 == a.call % U32
       && s.call <= a.call && s.at <= a.at
       && (s.call == a.call ==> a.sample == (Millis(a.at) - Millis(s.at)) % U32)
  }

  /** A reply echoes a transmission of its own call, unless the sequence number came round
      after 2^32 further calls; then the sample is the true elapsed time of that very
      transmission, exactly when that time is below 2^32 ms. */
  lemma {:induction false} AcceptedIsCurrent(sent: seq<Transmission>, a: Accepted)
    requires Sound(sent, a)
    ensures var s := sent[a.which];
            && (s.call == a.call <==> a.call - s.call < U32)
            && (a.call < U32 ==> s.call == a.call)
            && (s.call == a.call ==>
                  (a.sample == Millis(a.at) - Millis(s.at) <==> Millis(a.at) - Millis(s.at) < U32))
  {
  }

  /** The largest sample, in seconds. */
  ghost function Largest(accepted: seq<Accepted>): (m: real)
    ensures m >= 0.0
  {
    if accepted == [] then 0.0
    else Larger(Largest(accepted[..|accepted| - 1]), accepted[|accepted| - 1].sample as real / 1000.0)
  }

  lemma {:induction false} LargestSnoc(accepted: seq<Accepted>, a: Accepted)
    ensures Largest(accepted + [a]) == Larger(Largest(accepted), a.sample as real / 1000.0)
  {
    assert (accepted + [a])[..|accepted|] == accepted;
  }

  lemma {:induction false} LargestIsLeast(accepted: seq<Accepted>, m: real)
    requires m >= 0.0 && forall k :: 0 <= k < |accepted| ==> accepted[k].sample as real / 1000.0 <= m
    ensures Largest(accepted) <= m
  {
    if accepted != [] {
      LargestIsLeast(accepted[..|accepted| - 1], m);
    }
  }

  /** Numbers follow calls and no datagram is from the future; every reply taken is sound. */
  ghost predicate Log(s: State)
  {
    && (forall i {:trigger s.sent[i]} :: 0 <= i < |s.sent| ==>
          s.sent[i].call <= s.calls && s.sent[i].seqno == s.sent[i].call % U32 && s.sent[i].at <= s.clock)
    && (forall k {:trigger s.accepted[k]} :: 0 <= k < |s.accepted| ==>
          Sound(s.sent, s.accepted[k]) && s.accepted[k].call <= s.calls)
  }

  ghost predicate Inv(s: State)
  {
    Log(s) && (s.rttinit ==> s.est.Bounded(Largest(s.accepted)) && s.est.rto == RtoOf(s.est.srtt, s.est.rttvar))
  }

  /** Inside a call, which has sent everything from `first` on by the present base. */
  ghost predicate InCall(s: State, first: nat)
  {
    && Log(s) && s.rttinit && s.est.Bounded(Largest(s.accepted))
    && forall i {:trigger s.sent[i]} :: 0 <= i < |s.sent| ==>
         if i < first then s.sent[i].call < s.calls
         else s.sent[i].call == s.calls && s.sent[i].ts == Timestamp(s.est.base, s.sent[i].at)
  }

  lemma {:induction false} BeginKeeps(s: State, t: nat)
    requires Inv(s)
    ensures InCall(s.Begin(t), |s.sent|)
  {
    hide Timestamp, Largest, Sound, MinMax;
  }

  lemma {:induction false} TransmitKeeps(s: State, t: nat, first: nat)
    requires InCall(s, first) && first <= |s.sent|
    ensures var u := s.Transmit(t); InCall(u, first) && u.est == s.est && first <= |u.sent|
  {
    hide Timestamp, Largest;
  }

  lemma {:induction false} AcceptIsSound(s: State, which: nat, t: nat, first: nat)
    requires InCall(s, first) && which < |s.sent| && s.sent[which].seqno == s.Seqno()
    ensures var r := s.Accept(which, t); Sound(r.sent, r.accepted[|s.accepted|])
  {
    hide Timestamp, Largest;
    if s.sent[which].call == s.calls {
      SampleIsElapsed(s.est.base, s.sent[which].at, Later(s.clock, t));
    }
  }

  lemma {:induction false} AcceptKeeps(s: State, which: nat, t: nat, first: nat)
    requires InCall(s, first) && which < |s.sent| && s.sent[which].seqno == s.Seqno()
    ensures Inv(s.Accept(which, t))
  {
    hide Timestamp, Largest, Sound, Estimates.Stopped;
    AcceptIsSound(s, which, t, first);
    var r := s.Accept(which, t);
    var a := r.accepted[|s.accepted|];
    LargestSnoc(s.accepted, a);
    StoppedMeans(s.est, a.sample, Largest(r.accepted));
  }

  lemma {:induction false} TimeoutKeeps(s: State, first: nat)
    requires InCall(s, first)
    ensures var v := s.(est := s.est.TimedOut()); InCall(v, first) && Inv(v.(rttinit := false))
  {
    hide Timestamp, Largest, Sound;
  }

  lemma {:induction false} AwaitKeeps(s: State, t: nat, events: seq<Event>, i: nat, first: nat)
    requires i <= |events| && s.est.nrexmt <= MAXNREXMT && InCall(s, first) && first <= |s.sent|
    ensures Inv(Await(s, t, events, i).state)
    decreases MAXNREXMT - s.est.nrexmt
  {
    hide InCall, Inv, State.Transmit, State.Next, State.Accept, Timestamp;
    TransmitKeeps(s, t, first);
    var u := s.Transmit(t);
    var j := u.Next(events, i);
    var v := u.(est := u.est.TimedOut());
    TimeoutKeeps(u, first);
    if j < |events| && events[j].Reply? {
      AcceptKeeps(u, events[j].which, events[j].at, first);
    } else if s.est.nrexmt < MAXNREXMT {
      if j < |events| {
        AwaitKeeps(v, events[j].at, events, j + 1, first);
      } else {
        AwaitKeeps(v, t, events, j, first);
      }
    }
  }

  lemma {:induction false} AfterKeeps(s: State, cs: seq<Course>)
    requires Inv(s)
    ensures Inv(After(s, cs)) && After(s, cs).calls == s.calls + |cs|
    ensures Returned(s, cs) == Results(cs, Seqnos(s.sent), s.calls)
    decreases cs
  {
    hide Inv, InCall, Await, Seqnos, Repeat, Sends, Result;
    if cs != [] {
      BeginKeeps(s, cs[0].initAt);
      AwaitKeeps(s.Begin(cs[0].initAt), cs[0].startAt, cs[0].events, 0, |s.sent|);
      CallReturns(s, cs[0]);
      AfterKeeps(Call(s, cs[0]).state, cs[1..]);
    }
  }

  /** What the calls of a run should return, after `calls` calls that sent datagrams numbered
      `seqnos`: no clock or estimator comes into it. */
  function Results(cs: seq<Course>, seqnos: seq<nat>, calls: nat): seq<int>
    decreases cs
  {
    if cs == [] then [] else
    var events, q := cs[0].events, (calls + 1) % U32;
    [Result(events, seqnos, q)]
    + Results(cs[1..], seqnos + Repeat(q, Sends(events, seqnos, q)), calls + 1)
  }

  /** An accepted reply echoes a transmission of the call that accepted it unless 2^32 calls lie
      between, and then the sample is the time it took modulo 2^32 ms, hence exactly that time if
      and only if it is below. */
  ghost predicate Genuine(sent: seq<Transmission>, a: Accepted)
  {
    && a.which < |sent|
    && var s := sent[a.which];
       && s.call <= a.call && s.at <= a.at && (s.call == a.call <==> a.call - s.call < U32)
       && var took := Millis(a.at) - Millis(s.at);
          s.call == a.call ==> a.sample == took % U32 && (a.sample == took <==> took < U32)
  }

  /** Any run of calls, whatever the network does and however often calls give up and start
      afresh: each call returns the first reply that fits, or gives up; every accepted reply is
      genuine; and the estimators are bounded by any bound on the samples. */
  lemma {:induction false} EveryRun(cs: seq<Course>, m: real)
    ensures var s := After(START, cs);
            && Returned(START, cs) == Results(cs, [], 0)
            && (forall k :: 0 <= k < |s.accepted| ==>
                  Genuine(s.sent, s.accepted[k]) && s.accepted[k].call <= |cs|)
            && (s.rttinit && m >= 0.0
                && (forall k :: 0 <= k < |s.accepted| ==> s.accepted[k].sample as real / 1000.0 <= m)
                ==> s.est.Bounded(m))
            && (s.rttinit ==> s.est.rto == RtoOf(s.est.srtt, s.est.rttvar))
  {
    AfterKeeps(START, cs);
    assert Seqnos([]) == [];
    hide After, Returned, Results, Seqnos, Sound, Genuine, RtoOf;
    var s := After(START, cs);
    forall k | 0 <= k < |s.accepted| ensures Genuine(s.sent, s.accepted[k]) {
      SoundIsGenuine(s.sent, s.accepted[k]);
    }
    if m >= 0.0 && forall k :: 0 <= k < |s.accepted| ==> s.accepted[k].sample as real / 1000.0 <= m {
      LargestIsLeast(s.accepted, m);
    }
  }

  lemma {:induction false} SoundIsGenuine(sent: seq<Transmission>, a: Accepted)
    requires Sound(sent, a)
    ensures Genuine(sent, a)
  {
    AcceptedIsCurrent(sent, a);
  }

  /** The alarms of any call of any run: the k-th between 2 and 60 times 2^k seconds, all of them at
      most 900 seconds. */
  lemma {:induction false} EveryAlarm(cs: seq<Course>, c: Course)
    ensures var r := Call(After(START, cs), c);
            && |r.alarms| <= 4 && Total(r.alarms) <= 900
            && forall k :: 0 <= k < |r.alarms| ==> 2 <= r.alarms[k] <= 60 * Power(k)
  {
    var s := After(START, cs);
    AfterKeeps(START, cs);
    CallReturns(s, c);
    CallAlarms(s, c);
    hide After, Call, Schedule, Log, Seqnos, Repeat, Sends, Result;
    ScheduleBounds(FirstRto(s), 60, |Call(s, c).alarms|);
    Powers(|Call(s, c).alarms|);
  }

  /** The first alarm of any call of any run: three seconds if the estimators start afresh, and
      otherwise the mean plus four deviations, within 2 and 60, to the nearest second. */
  lemma {:induction false} FirstAlarm(cs: seq<Course>, c: Course)
    ensures var s, r := After(START, cs), Call(After(START, cs), c);
            var rto := s.est.srtt + 4.0 * s.est.rttvar;
            && |r.alarms| > 0
            && (!s.rttinit ==> r.alarms[0] == 3)
            && (s.rttinit && rto < 2.0 ==> r.alarms[0] == 2)
            && (s.rttinit && rto > 60.0 ==> r.alarms[0] == 60)
            && (s.rttinit && 2.0 <= rto <= 60.0 ==>
                 r.alarms[0] as real <= rto + 0.5 < r.alarms[0] as real + 1.0)
  {
    var s := After(START, cs);
    AfterKeeps(START, cs);
    CallReturns(s, c);
    CallAlarms(s, c);
    hide After, Call, Log, Seqnos, Repeat, Result;
  }

  lemma {:induction false} Powers(n: nat)
    requires n <= 4
    ensures 60 * Power(n) - 60 <= 900
  {
    assert Power(4) == 2 * Power(3) == 4 * Power(2) == 8 * Power(1) == 16;
  }

  /** For instance: a request at five seconds past midnight, answered a second later. */
  lemma {:induction false} OneSecond()
    ensures var r := Call(START, Course(5_000_000, 5_000_000, [Reply(0, 8, 6_000_000)]));
            && r.n == 0 && r.alarms == [3] && r.state.sent == [Transmission(1, 1, 0, 5_000_000)]
            && r.state.accepted == [Accepted(1, 0, 6_000_000, 1000)] && r.state.est.srtt == 0.125
  {
    var s := START.Begin(5_000_000);
    assert s.est.base == 5 && s.est.rto == 3.0 && s.est.Start() == 3;
    var u := s.Transmit(5_000_000);
    assert u.sent == [Transmission(1, 1, 0, 5_000_000)];
    var e := Reply(0, 8, 6_000_000);
    assert u.Next([e], 0) == 0;
    assert Timestamp(5, 6_000_000) == 1000;
  }

  // ---- the program

  class Client {
    const info: RttInfo
    var rttinit: bool
    var seqno: nat
    // the environment: the time of day and every datagram ever given to the network
    var calls: nat
    var clock: nat
    var sent: seq<Transmission>
    ghost var accepted: seq<Accepted>

    constructor ()
      ensures Valid() && fresh(info) && View() == START
    {
      info := new RttInfo();
      rttinit := false;
      seqno := 0;
      calls, clock, sent, accepted := 0, 0, [], [];
    }

    ghost predicate Valid()
      reads this
    {
      seqno == calls % U32
    }

    ghost function View(): State
      reads this, info
    {
      State(rttinit, info.View(), calls, clock, sent, accepted)
    }

    /** Entry: initialise the estimators if need be, and take the next sequence number. */
    method Begin(t: nat)
      requires Valid()
      modifies this, info
      ensures Valid() && View() == old(View()).Begin(t)
    {
      clock := if t < clock then clock else t;
      if !rttinit {
        info.Init(clock);
        rttinit := true;
      }
      seqno := (seqno + 1) % U32;
      calls := calls + 1;
      info.NewPack();
    }

    /** Stamp the header and hand the datagram to the network. */
    method Transmit(t: nat)
      requires Valid()
      modifies this
      ensures Valid() && View() == old(View()).Transmit(t)
    {
      hide Timestamp;
      clock := if t < clock then clock else t;
      sent := sent + [Transmission(calls, seqno, info.Ts(clock), clock)];
    }

    /** The receive loop: skip datagrams that are too short or belong to another call. */
    method Receive(events: seq<Event>, from: nat) returns (i: nat)
      requires Valid() && from <= |events|
      ensures i == View().Next(events, from)
    {
      i := from;
      while i < |events| && events[i].Reply? &&
            (events[i].n < HEADER || events[i].which >= |sent| || sent[events[i].which].seqno != seqno)
        invariant from <= i <= |events| && View().Next(events, i) == View().Next(events, from)
      {
        i := i + 1;
      }
    }

    /** A matching reply, with the timestamp `ts`: feed the estimators. */
    method Accept(t: nat, ts: nat, ghost which: nat)
      requires Valid() && which < |sent| && ts == sent[which].ts
      modifies this, info
      ensures Valid() && View() == old(View()).Accept(which, t)
    {
      hide Timestamp, Estimates.Stopped;
      clock := if t < clock then clock else t;
      var sample := (info.Ts(clock) - ts) % U32;
      info.Stop(sample);
      accepted := accepted + [Accepted(calls, which, clock, sample)];
    }

    /** Send, arm the alarm and wait. */
    method Attempt(t: nat, events: seq<Event>, from: nat) returns (secs: int, i: nat)
      requires Valid() && from <= |events|
      modifies this
      ensures Valid() && View() == old(View()).Transmit(t)
      ensures secs == old(View()).est.Start() && i == View().Next(events, from)
    {
      hide State.Next, Timestamp;
      Transmit(t);
      secs := info.Start();
      i := Receive(events, from);
    }

    /** One call of `dg_send_recv`, and the alarms it armed. */
    method DgSendRecv(c: Course) returns (n: int, alarms: seq<int>)
      requires Valid()
      modifies this, info
      ensures Valid() && Outcome(View(), n, alarms) == Call(old(View()), c)
    {
      hide State.Begin, State.Next, State.Accept, State.Transmit, Timestamp, Await, Continues, Estimates.Start;
      Begin(c.initAt);
      BeginCount(old(View()), c.initAt);
      var t, i: nat, rc := c.startAt, 0, 0;
      alarms := [];
      ghost var all := Call(old(View()), c);
      ContinuesStart(all);
      while rc == 0
        invariant Valid() && i <= |c.events|
        invariant rc == if info.nrexmt > MAXNREXMT then -1 else 0
        invariant rc == 0 ==> Continues(all, alarms, Await(View(), t, c.events, i))
        invariant rc == -1 ==> all == Outcome(View().(rttinit := false), -1, alarms)
        decreases MAXNREXMT + 1 - info.nrexmt
      {
        ContinuesStep(all, alarms, View(), t, c.events, i);
        var secs;
        secs, i := Attempt(t, c.events, i);
        alarms := alarms + [secs];
        if i < |c.events| && c.events[i].Reply? {
          Accept(c.events[i].at, sent[c.events[i].which].ts, c.events[i].which);
          return c.events[i].n - HEADER, alarms;
        }
        if i < |c.events| {
          t := c.events[i].at;
          i := i + 1;
        }
        rc := info.Timeout();
      }
      rttinit := false;
      n := -1;
    }
  }

  /** A call that armed `done` so far and goes on like `rest` ends like `all`. */
  ghost predicate Continues(all: Outcome, done: seq<int>, rest: Outcome) {
    all == Outcome(rest.state, rest.n, done + rest.alarms)
  }

  lemma {:induction false} ContinuesStart(all: Outcome)
    ensures Continues(all, [], all)
  {
  }

  lemma {:induction false} ContinuesStep(all: Outcome, done: seq<int>, s: State, t: nat, events: seq<Event>, i: nat)
    requires i <= |events| && s.est.nrexmt <= MAXNREXMT && Continues(all, done, Await(s, t, events, i))
    ensures var u, more := s.Transmit(t), done + [s.est.Start()];
            var j, v := u.Next(events, i), u.(est := u.est.TimedOut());
            && u.est == s.est
            && (j < |events| && events[j].Reply? ==>
                 events[j].which < |u.sent|
                 && all == Outcome(u.Accept(events[j].which, events[j].at), events[j].n - HEADER, more))
            && (j == |events| || events[j].Alarm? ==>
                 if v.est.nrexmt > MAXNREXMT then all == Outcome(v.(rttinit := false), -1, more)
                 else if j < |events| then Continues(all, more, Await(v, events[j].at, events, j + 1))
                 else Continues(all, more, Await(v, t, events, j)))
  {
    hide State.Next, State.Accept, Timestamp, Estimates.Start;
  }

  lemma {:induction false} BeginCount(s: State, t: nat)
    ensures s.Begin(t).est.nrexmt == 0
  {
  }

  /** Any run of calls. */
  method Run(cs: seq<Course>) returns (c: Client, results: seq<int>)
    ensures fresh(c) && c.View() == After(START, cs) && results == Returned(START, cs)
    ensures results == Results(cs, [], 0)
    ensures forall k :: 0 <= k < |c.accepted| ==> Genuine(c.sent, c.accepted[k])
    ensures c.rttinit ==>
              forall m: real ::
                m >= 0.0 && (forall k :: 0 <= k < |c.accepted| ==> c.accepted[k].sample as real / 1000.0 <= m)
                ==> c.info.View().Bounded(m)
  {
    hide Await, Genuine, Results;
    c := new Client();
    results := [];
    assert cs[0..] == cs;
    for i := 0 to |cs|
      invariant fresh(c) && fresh(c.info) && c.Valid()
      invariant After(c.View(), cs[i..]) == After(START, cs)
      invariant results + Returned(c.View(), cs[i..]) == Returned(START, cs)
    {
      assert cs[i..][0] == cs[i] && cs[i..][1..] == cs[i + 1..];
      var n, alarms := c.DgSendRecv(cs[i]);
      results := results + [n];
    }
    assert cs[|cs|..] == [];
    hide After, Returned, Estimates.Bounded;
    EveryRun(cs, 0.0);
    forall m: real | c.rttinit && m >= 0.0
                     && forall k :: 0 <= k < |c.accepted| ==> c.accepted[k].sample as real / 1000.0 <= m
      ensures c.info.View().Bounded(m)
    {
      EveryRun(cs, m);
    }
  }
}
