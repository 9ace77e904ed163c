/** The bookkeeping of `bsdping`: a table with one bit per sequence number, cleared when a request
    goes out and set when its reply comes in, and the counters of the final statistics.

    Requests are sent, and statistics printed, by signal handlers, so a request can come in anywhere
    inside `pr_pack`, where a reply is first counted, then looked up, then booked; and statistics
    there and inside `pinger`, where a request is first counted and then loses its bit. */
module PingTable {
  import opened Basics

  const MAX_DUP_CHK: nat := 65536
  const TABLE: nat := 8192

  /** The 16-bit sequence number of a packet. */
  type Seq = x: nat | x < 65536

  /** A request is counted; an ICMP message is read, an echo reply with our identifier or anything
      else; the program goes on to its next step, in `pinger` if it is there and otherwise in
      `pr_pack`. */
  datatype Event = Send | Reply(ours: bool, seqno: Seq) | Resume

  /** Where `pr_pack` is: not running; reply counted as received; found to be a repeat; counted
      as a repeat too; found to be new. */
  datatype Pc = Idle | Counted(seqno: Seq) | Repeat | Repeated | Fresh(seqno: Seq)

  // ---- the counters over a plain set

  /** `marked`: the sequence numbers whose bit is set; `sending`: the one `pinger` is about to
      clear. */
  datatype State = State(marked: set<nat>, ntransmitted: nat, nreceived: int, nrepeats: nat, pc: Pc,
                         sending: Option<Seq>)
  {
    /** The sequence number of the next request. */
    function Next(): Seq { ntransmitted % 65536 }

    /** Does `pinger` start? It does not interrupt itself. */
    predicate Sends(e: Event) { sending.None? && e.Send? }

    /** Is this a reply that `pr_pack` starts to work on? */
    predicate Takes(e: Event) { sending.None? && pc == Idle && e.Reply? && e.ours }

    function ResumeStep(): State {
      if sending.Some? then this.(marked := marked - {sending.value as nat}, sending := None) else
      match pc
      case Idle => this
      case Counted(q) => this.(pc := if q in marked then Repeat else Fresh(q))
      case Repeat => this.(nrepeats := nrepeats + 1, pc := Repeated)
      case Repeated => this.(nreceived := nreceived - 1, pc := Idle)
      case Fresh(q) => this.(marked := marked + {q as nat}, pc := Idle)
    }

    function Step(e: Event): State {
      match e
      case Send => if Sends(e) then this.(ntransmitted := ntransmitted + 1, sending := Some(Next())) else this
      case Reply(_, q) => if Takes(e) then this.(nreceived := nreceived + 1, pc := Counted(q)) else this
      case Resume => ResumeStep()
    }
  }

  const START := State({}, 0, 0, 0, Idle, None)

  function Run(s: State, es: seq<Event>): State
    decreases es
  {
    if es == [] then s else Run(s.Step(es[0]), es[1..])
  }

  /** A reply nobody interrupts is received the first time and a repeat from then on. */
  lemma {:induction false} Uninterrupted(s: State, q: Seq)
    requires s.pc == Idle && s.sending.None?
    ensures Run(s, [Reply(true, q), Resume, Resume, Resume])
         == if q in s.marked then s.(nrepeats := s.nrepeats + 1)
            else s.(nreceived := s.nreceived + 1, marked := s.marked + {q as nat})
    ensures Run(s, [Reply(false, q)]) == s
  {
    var es := [Reply(true, q), Resume, Resume, Resume];
    assert es[1..] == [Resume, Resume, Resume] && es[1..][1..] == [Resume, Resume];
    assert [Resume, Resume][1..] == [Resume] && [Resume][1..] == [] == [Reply(false, q)][1..];
    var t := s.Step(Reply(true, q));
    assert Run(s, es) == Run(t, [Resume, Resume, Resume]) == Run(t.ResumeStep(), [Resume, Resume]);
    assert Run(t.ResumeStep(), [Resume, Resume]) == Run(t.ResumeStep().ResumeStep(), [Resume]);
  }

  /** How many replies for us were taken up. */
  function Accepted(s: State, es: seq<Event>): nat
    decreases es
  {
    if es == [] then 0 else One(s.Takes(es[0])) + Accepted(s.Step(es[0]), es[1..])
  }

  /** Every reply for us counts once, as received or as a repeat; in the step between the two
      updates of a repeat it counts as both. */
  lemma {:induction false} RepliesCounted(s: State, es: seq<Event>)
    ensures var r := Run(s, es);
            && r.nreceived + r.nrepeats - One(r.pc == Repeated)
               == s.nreceived + s.nrepeats - One(s.pc == Repeated) + Accepted(s, es)
    decreases es
  {
    if es != [] {
      RepliesCounted(s.Step(es[0]), es[1..]);
    }
  }

  // ---- where every request went

  /** The sequence numbers answered since they were last sent. */
  function Answered(s: State): set<nat> {
    if s.sending.Some? then s.marked - {s.sending.value as nat} else s.marked
  }

  /** The sequence numbers sent and not answered since. */
  function Outstanding(s: State): set<nat> {
    set b: nat | b < 65536 && b < s.ntransmitted && b !in Answered(s)
  }

  /** A reply that is counted and not yet booked. */
  function Pending(s: State): nat { One(s.pc != Idle) }

  /** Replies booked as received, and requests not answered yet. */
  function Settled(s: State): int { s.nreceived - Pending(s) + |Outstanding(s)| }

  predicate Valid(s: State) { s.pc.Fresh? ==> s.pc.seqno !in s.marked }

  /** Does a request go out with a number whose last use is still unanswered? */
  predicate Reuses(s: State, e: Event) { s.Sends(e) && s.Next() in Outstanding(s) }

  /** Is a reply booked to a number never sent? */
  predicate Stray(s: State, e: Event) {
    e.Resume? && s.sending.None? && s.pc.Fresh? && s.pc.seqno >= s.ntransmitted
  }

  function Reused(s: State, es: seq<Event>): nat
    decreases es
  {
    if es == [] then 0 else One(Reuses(s, es[0])) + Reused(s.Step(es[0]), es[1..])
  }

  function Strays(s: State, es: seq<Event>): nat
    decreases es
  {
    if es == [] then 0 else One(Stray(s, es[0])) + Strays(s.Step(es[0]), es[1..])
  }

  lemma {:induction false} SendOutstanding(s: State, x: Seq)
    requires x == s.Next() && s.sending.None?
    ensures |Outstanding(s.Step(Send))| == |Outstanding(s)| + One(x !in Outstanding(s))
  {
    assert if s.ntransmitted < 65536 then x == s.ntransmitted else x < s.ntransmitted;
    hide State.Next;
    var o := Outstanding(s);
    assert Outstanding(s.Step(Send)) == o + {x as nat};
    assert x in o ==> o + {x as nat} == o;
  }

  lemma {:induction false} StepBalance(s: State, e: Event)
    requires Valid(s)
    ensures var r := s.Step(e);
            && Valid(r)
            && Settled(r) + One(Reuses(s, e)) - One(Stray(s, e)) == Settled(s) + One(s.Sends(e))
  {
    match e
    case Send =>
      if s.sending.None? {
        SendOutstanding(s, s.Next());
      }
      hide Outstanding;
    case Reply(_, _) => assert Outstanding(s.Step(e)) == Outstanding(s);
    case Resume =>
      ResumeOutstanding(s);
      hide Outstanding;
  }

  lemma {:induction false} ResumeOutstanding(s: State)
    requires Valid(s)
    ensures |Outstanding(s.ResumeStep())|
         == |Outstanding(s)| - One(s.sending.None? && s.pc.Fresh? && s.pc.seqno < s.ntransmitted)
  {
    var r := s.ResumeStep();
    if s.sending.None? && s.pc.Fresh? && s.pc.seqno < s.ntransmitted {
      var q: nat := s.pc.seqno;
      assert Outstanding(s) == Outstanding(r) + {q} && q !in Outstanding(r);
    } else {
      assert Outstanding(s) == Outstanding(r);
    }
  }

  /** In every run: the requests sent are those answered, those unanswered and those whose number
      was taken over while unanswered, if replies to numbers never sent are taken off. */
  lemma {:induction false} Balance(s: State, es: seq<Event>)
    requires Valid(s)
    ensures var r := Run(s, es);
            && Settled(r) + Reused(s, es) - Strays(s, es) - r.ntransmitted == Settled(s) - s.ntransmitted
    decreases es
  {
    if es != [] {
      StepBalance(s, es[0]);
      Balance(s.Step(es[0]), es[1..]);
    }
  }

  lemma {:induction false} NotNegative(s: State, es: seq<Event>)
    requires s.nreceived >= Pending(s)
    ensures var r := Run(s, es); r.nreceived >= Pending(r)
    decreases es
  {
    if es != [] {
      NotNegative(s.Step(es[0]), es[1..]);
    }
  }

  /** No more is received than was sent, at any moment of any run, exactly if the strays and the
      reply in progress are no more than what is unanswered or was taken over. */
  lemma {:induction false} ReceivedExactly(es: seq<Event>)
    ensures var r := Run(START, es);
            && r.nreceived >= 0
            && (r.nreceived <= r.ntransmitted
                <==> Strays(START, es) + Pending(r) <= |Outstanding(r)| + Reused(START, es))
  {
    Balance(START, es);
    NotNegative(START, es);
    assert Outstanding(START) == {};
  }

  // ---- the statistics

  /** What `summary` prints of the loss. */
  datatype Loss = Nothing | TooMany | Percent(p: int)

  function Summary(s: State): Loss {
    if s.ntransmitted == 0 then Nothing
    else if s.nreceived > s.ntransmitted then TooMany
    else Percent(((s.ntransmitted - s.nreceived) * 100) / s.ntransmitted)
  }

  /** A percentage printed is between 0 and 100, and one is printed, once something was sent,
      under the exact condition above. */
  lemma {:induction false} LossIsPercentage(es: seq<Event>)
    ensures var r := Run(START, es);
            && (Summary(r).Percent? ==> 0 <= Summary(r).p <= 100)
            && (r.ntransmitted > 0 ==>
                 (Summary(r).Percent?
                  <==> Strays(START, es) + Pending(r) <= |Outstanding(r)| + Reused(START, es)))
  {
    var r := Run(START, es);
    ReceivedExactly(es);
    if Summary(r).Percent? {
      Percentage(r.ntransmitted - r.nreceived, r.ntransmitted);
    }
    hide Run, Outstanding;
  }

  lemma {:induction false} Percentage(a: nat, n: nat)
    requires a <= n && n > 0
    ensures 0 <= (a * 100) / n <= 100
  {
    var q := (a * 100) / n;
    assert q * n <= a * 100;
    assert (q - 100) * n <= 0;
  }

  /** Replies are taken up only for packets that were sent. */
  predicate Honest(s: State, es: seq<Event>)
    decreases es
  {
    es == [] || ((s.Takes(es[0]) ==> es[0].seqno < s.ntransmitted) && Honest(s.Step(es[0]), es[1..]))
  }

  predicate InProgressSent(s: State) { s.pc.Counted? || s.pc.Fresh? ==> s.pc.seqno < s.ntransmitted }

  lemma {:induction false} HonestHasNoStrays(s: State, es: seq<Event>)
    requires Honest(s, es) && InProgressSent(s)
    ensures Strays(s, es) == 0
    decreases es
  {
    if es != [] {
      HonestHasNoStrays(s.Step(es[0]), es[1..]);
    }
  }

  /** When replies come only for packets sent, the count is too high by one at most, and exactly
      when the statistics are printed in the middle of a reply with no request unanswered and
      none ever taken over. */
  lemma {:induction false} HonestLoss(es: seq<Event>)
    requires Honest(START, es)
    ensures var r := Run(START, es);
            && r.nreceived <= r.ntransmitted + Pending(r)
            && (r.nreceived > r.ntransmitted
                <==> r.pc != Idle && Outstanding(r) == {} && Reused(START, es) == 0)
  {
    Balance(START, es);
    HonestHasNoStrays(START, es);
    assert Outstanding(START) == {};
    var o := Outstanding(Run(START, es));
    assert |o| == 0 <==> o == {};
    hide Run, Outstanding;
  }

  const FIRST: seq<Event> := [Send, Resume, Reply(true, 0), Resume, Resume]

  /** One request sent and answered. */
  const ANSWERED := State({0}, 1, 1, 0, Idle, None)

  lemma {:induction false} StepTwice(s: State, e: Event, f: Event, rest: seq<Event>)
    ensures Run(s, [e, f] + rest) == Run(s.Step(e).Step(f), rest)
    ensures Honest(s, [e, f] + rest)
       <==> && (s.Takes(e) ==> e.seqno < s.ntransmitted)
            && (s.Step(e).Takes(f) ==> f.seqno < s.Step(e).ntransmitted)
            && Honest(s.Step(e).Step(f), rest)
  {
    hide State.Step;
    var es := [e, f] + rest;
    assert es[1..] == [f] + rest && es[1..][1..] == rest;
    assert Run(s, es) == Run(s.Step(e), es[1..]);
  }

  lemma {:induction false} AfterFirst(rest: seq<Event>)
    ensures Run(START, FIRST + rest) == Run(ANSWERED, rest)
    ensures Honest(START, FIRST + rest) == Honest(ANSWERED, rest)
  {
    var s := START.Step(Send).Step(Resume);
    assert s == State({}, 1, 0, 0, Idle, None);
    var t := s.Step(Reply(true, 0)).Step(Resume);
    assert t == State({}, 1, 1, 0, Fresh(0), None) && t.Step(Resume) == ANSWERED;
    assert FIRST + rest == [Send, Resume] + ([Reply(true, 0), Resume] + ([Resume] + rest));
    StepTwice(START, Send, Resume, [Reply(true, 0), Resume] + ([Resume] + rest));
    StepTwice(s, Reply(true, 0), Resume, [Resume] + rest);
    assert ([Resume] + rest)[1..] == rest;
  }

  /** One request, its reply, and a reply to a number never sent: 2 received of 1. */
  lemma {:induction false} StrayReply()
    ensures Summary(Run(START, FIRST + [Reply(true, 7), Resume, Resume])) == TooMany
  {
    AfterFirst([Reply(true, 7), Resume, Resume]);
    var s := ANSWERED;
    var t := s.Step(Reply(true, 7));
    assert [Reply(true, 7), Resume, Resume][1..] == [Resume, Resume] && [Resume, Resume][1..] == [Resume];
    assert Run(s, [Reply(true, 7), Resume, Resume]) == Run(t, [Resume, Resume]);
    assert Run(t, [Resume, Resume]) == Run(t.ResumeStep(), [Resume]) == t.ResumeStep().ResumeStep();
  }

  /** One request and its reply twice, with the statistics asked for inside the second: all
      replies are to a packet sent, and yet 2 are received of 1. */
  lemma {:induction false} SummaryInsideReply()
    ensures var es := FIRST + [Reply(true, 0)];
            Honest(START, es) && Summary(Run(START, es)) == TooMany
  {
    AfterFirst([Reply(true, 0)]);
    var s := ANSWERED;
    assert [Reply(true, 0)][1..] == [];
    assert Run(s, [Reply(true, 0)]) == s.Step(Reply(true, 0));
  }

  // ---- the bit table

  function Mask(k: nat): bv8
    requires k < 8
  {
    1 << k
  }

  predicate HasBit(x: bv8, k: nat)
    requires k < 8
  {
    x & Mask(k) != 0
  }

  function SetBit(x: bv8, k: nat): bv8
    requires k < 8
  {
    x | Mask(k)
  }

  function ClrBit(x: bv8, k: nat): bv8
    requires k < 8
  {
    x & !Mask(k)
  }

  lemma {:induction false} SetBitMeans(x: bv8, k: nat, j: nat)
    requires k < 8 && j < 8
    ensures HasBit(SetBit(x, k), j) <==> j == k || HasBit(x, j)
  {
  }

  lemma {:induction false} ClrBitMeans(x: bv8, k: nat, j: nat)
    requires k < 8 && j < 8
    ensures HasBit(ClrBit(x, k), j) <==> j != k && HasBit(x, j)
  {
  }

  predicate Bit(tbl: seq<bv8>, b: nat)
    requires |tbl| == TABLE && b < MAX_DUP_CHK
  {
    HasBit(tbl[b / 8], b % 8)
  }

  /** The set a table stands for. */
  function Marks(tbl: seq<bv8>): set<nat>
    requires |tbl| == TABLE
  {
    set b: nat | b < MAX_DUP_CHK && Bit(tbl, b)
  }

  // ---- the program

  class Ping {
    const rcvdTbl: array<bv8>
    var ntransmitted: nat
    var nreceived: int
    var nrepeats: nat
    var pc: Pc
    var sending: Option<Seq>

    constructor ()
      ensures Valid() && fresh(rcvdTbl) && View() == START
    {
      rcvdTbl := new bv8[TABLE](_ => 0);
      ntransmitted, nreceived, nrepeats, pc, sending := 0, 0, 0, Idle, None;
      new;
      assert forall b: nat :: b < MAX_DUP_CHK ==> !Bit(rcvdTbl[..], b);
    }

    ghost predicate Valid() { rcvdTbl.Length == TABLE }

    ghost function View(): State
      requires Valid()
      reads this, rcvdTbl
    {
      State(Marks(rcvdTbl[..]), ntransmitted, nreceived, nrepeats, pc, sending)
    }

    method Set(b: Seq)
      requires Valid()
      modifies rcvdTbl
      ensures Marks(rcvdTbl[..]) == old(Marks(rcvdTbl[..])) + {b as nat}
    {
      hide HasBit, SetBit;
      var x := rcvdTbl[b / 8];
      rcvdTbl[b / 8] := SetBit(x, b % 8);
      forall j: nat | j < 8
        ensures HasBit(rcvdTbl[b / 8], j) <==> j == b % 8 || HasBit(x, j)
      {
        SetBitMeans(x, b % 8, j);
      }
    }

    method Clr(b: Seq)
      requires Valid()
      modifies rcvdTbl
      ensures Marks(rcvdTbl[..]) == old(Marks(rcvdTbl[..])) - {b as nat}
    {
      hide HasBit, ClrBit;
      var x := rcvdTbl[b / 8];
      rcvdTbl[b / 8] := ClrBit(x, b % 8);
      forall j: nat | j < 8
        ensures HasBit(rcvdTbl[b / 8], j) <==> j != b % 8 && HasBit(x, j)
      {
        ClrBitMeans(x, b % 8, j);
      }
    }

    method Tst(b: Seq) returns (isSet: bool)
      requires Valid()
      ensures isSet <==> b in Marks(rcvdTbl[..])
    {
      hide HasBit;
      isSet := HasBit(rcvdTbl[b / 8], b % 8);
    }

    /** `pinger` up to where the statistics may be printed. */
    method Pinger()
      requires Valid() && sending.None?
      modifies this
      ensures View() == old(View()).Step(Send)
    {
      hide Marks;
      sending := Some(ntransmitted % 65536);
      ntransmitted := ntransmitted + 1;
    }

    /** The rest of `pinger`, or `pr_pack` up to its next point where a handler may come in. */
    method Resume()
      requires Valid()
      modifies this, rcvdTbl
      ensures View() == old(View()).ResumeStep()
    {
      hide Marks;
      if sending.Some? {
        Clr(sending.value % MAX_DUP_CHK);
        sending := None;
        return;
      }
      match pc
      case Idle =>
      case Counted(q) =>
        var dup := Tst(q % MAX_DUP_CHK);
        pc := if dup then Repeat else Fresh(q);
      case Repeat =>
        nrepeats := nrepeats + 1;
        pc := Repeated;
      case Repeated =>
        nreceived := nreceived - 1;
        pc := Idle;
      case Fresh(q) =>
        Set(q % MAX_DUP_CHK);
        pc := Idle;
    }

    /** Any interleaving of `pr_pack`, `pinger` and the handlers: the table is the set of the model. */
    method Interleave(es: seq<Event>)
      requires Valid()
      modifies this, rcvdTbl
      ensures View() == Run(old(View()), es)
    {
      hide Marks;
      var i := 0;
      while i < |es|
        invariant 0 <= i <= |es| && Run(old(View()), es) == Run(View(), es[i..])
      {
        assert es[i..][0] == es[i] && es[i..][1..] == es[i + 1..];
        match es[i] {
          case Send =>
            if sending.None? {
              Pinger();
            }
          case Reply(ours, q) =>
            if ours && pc == Idle && sending.None? {
              nreceived := nreceived + 1;
              pc := Counted(q);
            }
          case Resume => Resume();
        }
        i := i + 1;
      }
    }
  }
}
