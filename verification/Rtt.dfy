/** The round-trip estimators of lib/rtt.c, over `real` where the source uses float. */
module Rtt {
  import opened Basics

  const RXTMIN := 2.0
  const RXTMAX := 60.0
  const MAXNREXMT := 3

  function MinMax(rto: real): (r: real)
    ensures RXTMIN <= r <= RXTMAX
    ensures r == if rto < 2.0 then 2.0 else if rto > 60.0 then 60.0 else rto
  {
    if rto < RXTMIN then RXTMIN else if rto > RXTMAX then RXTMAX else rto
  }

  function RtoCalc(srtt: real, rttvar: real): real { srtt + 4.0 * rttvar }

  /** The source's `ts`: milliseconds since `base` seconds, in 32 bits, at a time of day
      given in microseconds. */
  function Timestamp(base: nat, t: nat): (ts: nat)
    ensures ts < U32
  {
    ((t / 1_000_000 - base) * 1000 + t % 1_000_000 / 1000) % U32
  }

  /** The millisecond clock that the timestamps read. */
  function Millis(t: nat): nat { t / 1000 }

  function Larger(a: real, b: real): real { if a < b then b else a }

  /** The estimators, with the count of retransmissions and the base of the timestamps. */
  datatype Estimates = Estimates(rtt: real, srtt: real, rttvar: real, rto: real, nrexmt: nat, base: nat)
  {
    function Initialised(t: nat): Estimates {
      Estimates(0.0, 0.0, 0.75, MinMax(RtoCalc(0.0, 0.75)), nrexmt, t / 1_000_000 % U32)
    }

    function Stopped(ms: nat): Estimates {
      var r := ms as real / 1000.0;
      var delta := r - srtt;
      var s := srtt + delta / 8.0;
      var v := rttvar + ((if delta < 0.0 then -delta else delta) - rttvar) / 4.0;
      Estimates(r, s, v, MinMax(RtoCalc(s, v)), nrexmt, base)
    }

    function TimedOut(): Estimates { this.(rto := rto * 2.0, nrexmt := nrexmt + 1) }

    /** The timeout rounded to whole seconds. */
    function Start(): (secs: int)
      ensures secs as real <= rto + 0.5 < secs as real + 1.0
    {
      (rto + 0.5).Floor
    }

    /** The estimators' bounds when no sample exceeded `m` seconds. */
    predicate Bounded(m: real) { 0.0 <= srtt <= m && 0.0 <= rttvar <= Larger(0.75, m) }
  }

  /** The first timeout is three seconds. */
  lemma {:induction false} FirstTimeout(e: Estimates, t: nat)
    ensures e.Initialised(t).rto == 3.0 && e.Initialised(t).Start() == 3
  {
  }

  /** The timeout the estimators call for: the mean plus four deviations, from 2 to 60 seconds. */
  function RtoOf(srtt: real, rttvar: real): (t: real)
    ensures 2.0 <= t <= 60.0 && (2.0 <= srtt + 4.0 * rttvar <= 60.0 ==> t == srtt + 4.0 * rttvar)
    ensures srtt + 4.0 * rttvar < 2.0 ==> t == 2.0
    ensures srtt + 4.0 * rttvar > 60.0 ==> t == 60.0
  {
    MinMax(RtoCalc(srtt, rttvar))
  }

  /** Jacobson's update: weighted means with gains 1/8 and 1/4, which no bound on the samples is
      lost by. */
  lemma {:induction false} StoppedMeans(e: Estimates, ms: nat, m: real)
    ensures var r := e.Stopped(ms);
            && r.rtt == ms as real / 1000.0
            && r.srtt == 0.875 * e.srtt + 0.125 * r.rtt
            && r.rttvar == 0.75 * e.rttvar + 0.25 * (if r.rtt < e.srtt then e.srtt - r.rtt else r.rtt - e.srtt)
            && r.rto == RtoOf(r.srtt, r.rttvar)
            && (e.Bounded(m) && r.rtt <= m ==> r.Bounded(m))
  {
  }

  class RttInfo {
    var rtt: real
    var srtt: real
    var rttvar: real
    var rto: real
    var nrexmt: nat
    var base: nat

    /** Static storage starts out as zero. */
    constructor ()
      ensures View() == Estimates(0.0, 0.0, 0.0, 0.0, 0, 0)
    {
      rtt, srtt, rttvar, rto, nrexmt, base := 0.0, 0.0, 0.0, 0.0, 0, 0;
    }

    function View(): Estimates
      reads this
    {
      Estimates(rtt, srtt, rttvar, rto, nrexmt, base)
    }

    /** `rtt_init` at time `t`; the base is the time of day in seconds, in 32 bits. */
    method Init(t: nat)
      modifies this
      ensures View() == old(View()).Initialised(t)
      ensures srtt == 0.0 && rttvar == 0.75 && rto == 3.0
    {
      base := t / 1_000_000 % U32;
      rtt := 0.0;
      srtt := 0.0;
      rttvar := 0.75;
      rto := MinMax(RtoCalc(srtt, rttvar));
    }

    function Ts(t: nat): (ts: nat)
      reads this
      ensures ts < U32
    {
      Timestamp(base, t)
    }

    /** `rtt_start` */
    function Start(): (secs: int)
      reads this
      ensures secs == View().Start()
    {
      (rto + 0.5).Floor
    }

    method NewPack()
      modifies this`nrexmt
      ensures nrexmt == 0
    {
      nrexmt := 0;
    }

    /** `rtt_stop` with a sample of `ms` milliseconds. */
    method Stop(ms: nat)
      modifies this
      ensures View() == old(View()).Stopped(ms)
      ensures rtt == ms as real / 1000.0 && srtt == 0.875 * old(srtt) + 0.125 * rtt
      ensures rttvar == 0.75 * old(rttvar) + 0.25 * if rtt < old(srtt) then old(srtt) - rtt else rtt - old(srtt)
      ensures rto == RtoOf(srtt, rttvar)
    {
      rtt := ms as real / 1000.0;
      var delta := rtt - srtt;
      srtt := srtt + delta / 8.0;
      if delta < 0.0 {
        delta := -delta;
      }
      rttvar := rttvar + (delta - rttvar) / 4.0;
      rto := MinMax(RtoCalc(srtt, rttvar));
    }

    /** `rtt_timeout`: doubles the timeout, without a bound, and counts. */
    method Timeout() returns (rc: int)
      modifies this`rto, this`nrexmt
      ensures View() == old(View()).TimedOut() && rto == 2.0 * old(rto)
      ensures rc == if nrexmt > MAXNREXMT then -1 else 0
    {
      rto := rto * 2.0;
      nrexmt := nrexmt + 1;
      rc := if nrexmt > MAXNREXMT then -1 else 0;
    }
  }

  lemma {:induction false} TimestampIsMillis(base: nat, t: nat)
    ensures Timestamp(base, t) == (Millis(t) - 1000 * base) % U32
  {
  }

  lemma {:induction false} SubtractMod(x: int, y: int)
    ensures (x % U32 - y % U32) % U32 == (x - y) % U32
  {
  }

  /** Two timestamps from the same base differ, in 32 bits, by the time between them:
      exactly by it if and only if that time is below 2^32 ms. */
  lemma {:induction false} SampleIsElapsed(base: nat, sent: nat, now: nat)
    requires sent <= now
    ensures var sample := (Timestamp(base, now) - Timestamp(base, sent)) % U32;
            && sample == (Millis(now) - Millis(sent)) % U32
            && (sample == Millis(now) - Millis(sent) <==> Millis(now) - Millis(sent) < U32)
  {
    hide Timestamp;
    TimestampIsMillis(base, now);
    TimestampIsMillis(base, sent);
    SubtractMod(Millis(now) - 1000 * base, Millis(sent) - 1000 * base);
  }
}
