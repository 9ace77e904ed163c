/** The addrinfo list of libgai: `ga_aistruct` builds it, `ga_port` and `ga_clone` expand it
    while walking it, `ga_serv` drives the passes. */
module AddrInfo {
  import opened Basics

  datatype Family = Inet | Inet6 | Local

  /** What one list element means: everything but its place in memory. */
  datatype Entry = Entry(clone: bool, family: Family, socktype: nat, protocol: int, addr: seq<Octet>, port: nat)

  /** One pass of ga_port: a nonzero socket type and the port of the service for it. */
  datatype Pass = Pass(socktype: nat, port: nat)

  // ---- what a pass computes

  /** Give an entry the pass's socket type and, in an Internet address, its port. */
  function Fill(e: Entry, p: Pass): Entry
  {
    e.(socktype := p.socktype, port := if e.family.Local? then e.port else p.port)
  }

  /** The entries that take the place of `e`. */
  function PassOne(e: Entry, p: Pass): (r: seq<Entry>)
  {
    if e.clone && e.socktype != 0 then [e, Fill(e.(clone := false), p)]
    else if !e.clone && e.socktype != p.socktype then [e]
    else [Fill(e, p)]
  }

  function PassAll(es: seq<Entry>, p: Pass): (r: seq<Entry>)
  {
    if es == [] then [] else PassAll(es[..|es| - 1], p) + PassOne(es[|es| - 1], p)
  }

  predicate Counted(e: Entry, p: Pass)
  {
    (e.clone || e.socktype == p.socktype) && !e.family.Local?
  }

  /** The number of entries that got the port. */
  function Found(es: seq<Entry>, p: Pass): (n: nat)
    ensures n <= |es|
  {
    if es == [] then 0 else Found(es[..|es| - 1], p) + if Counted(es[|es| - 1], p) then 1 else 0
  }

  /** The number of entries that have to be cloned. */
  function Clones(es: seq<Entry>): (n: nat)
  {
    if es == [] then 0
    else
      var e := es[|es| - 1];
      Clones(es[..|es| - 1]) + if e.clone && e.socktype != 0 then 1 else 0
  }

  /** One step of the walk: the entry numbered `k` is replaced in place. */
  lemma {:induction false} PassStep(es: seq<Entry>, p: Pass, k: nat)
    requires k < |es|
    ensures var pre, post, e := PassAll(es[..k], p), es[k + 1..], es[k];
            && PassAll(es[..k], p) + es[k..] == pre + [e] + post
            && PassAll(es[..k + 1], p) + es[k + 1..] == pre + PassOne(e, p) + post
            && |PassAll(es[..k + 1], p)| == |pre| + |PassOne(e, p)|
            && Found(es[..k + 1], p) == Found(es[..k], p) + (if Counted(e, p) then 1 else 0)
            && Clones(es[..k + 1]) == Clones(es[..k]) + (if e.clone && e.socktype != 0 then 1 else 0)
  {
    assert es[..k + 1][..k] == es[..k];
    assert es[k..] == [es[k]] + es[k + 1..];
  }

  /** The allocations an entry will take. */
  function Needed(e: Entry): nat
  {
    if e.clone && e.socktype != 0 then 2 else 0
  }

  lemma {:induction false} ClonesMonotone(es: seq<Entry>, k: nat)
    requires k <= |es|
    ensures Clones(es[..k]) <= Clones(es)
  {
    if k < |es| {
      ClonesMonotone(es[..|es| - 1], k);
      assert es[..|es| - 1][..k] == es[..k];
    } else {
      assert es[..k] == es;
    }
  }

  /** What one step adds to the counts. */
  lemma {:induction false} Tally(es: seq<Entry>, p: Pass, k: nat)
    requires k < |es|
    ensures Found(es[..k + 1], p) == Found(es[..k], p) + if Counted(es[k], p) then 1 else 0
    ensures 2 * Clones(es[..k + 1]) == 2 * Clones(es[..k]) + Needed(es[k]) <= 2 * Clones(es)
  {
    PassStep(es, p, k);
    ClonesMonotone(es, k + 1);
  }

  // ---- the list in memory

  /** A socket address buffer: an address and a port. */
  class SockAddr {
    var addr: seq<Octet>
    var port: nat

    constructor (addr: seq<Octet>, port: nat)
      ensures this.addr == addr && this.port == port
    {
      this.addr, this.port := addr, port;
    }
  }

  class Node {
    var next: Node?
    var clone: bool
    var family: Family
    var socktype: nat
    var protocol: int
    var sa: SockAddr?

    constructor (next: Node?, clone: bool, family: Family, socktype: nat, protocol: int)
      ensures this.next == next && this.clone == clone && sa == null
      ensures this.family == family && this.socktype == socktype && this.protocol == protocol
    {
      this.next, this.clone, this.sa := next, clone, null;
      this.family, this.socktype, this.protocol := family, socktype, protocol;
    }
  }

  /** The node `n`, followed by `next` and with its buffer `b`, means `e`. */
  ghost predicate Shows(n: Node, b: SockAddr, next: Node?, e: Entry)
    reads n, b
  {
    n.next == next && n.sa == b && e == Entry(n.clone, n.family, n.socktype, n.protocol, b.addr, b.port)
  }

  /** `s` with `x` inserted after index `m`. */
  ghost function Insert<T>(s: seq<T>, m: nat, x: T): (r: seq<T>)
    requires m < |s|
    ensures |r| == |s| + 1 && r[m + 1] == x
    ensures forall i {:trigger r[i]} :: 0 <= i <= m ==> r[i] == s[i]
    ensures forall i {:trigger r[i]} :: m + 1 < i < |r| ==> r[i] == s[i - 1]
  {
    s[..m + 1] + [x] + s[m + 1..]
  }

  ghost predicate Distinct<T>(s: seq<T>)
  {
    forall i, j :: 0 <= i < j < |s| ==> s[i] != s[j]
  }

  lemma {:induction false} InsertMiddle<T>(pre: seq<T>, e: T, post: seq<T>, x: T)
    ensures Insert(pre + [e] + post, |pre|, x) == pre + [e, x] + post
  {
  }

  lemma {:induction false} UpdateMiddle<T>(pre: seq<T>, e: T, post: seq<T>, x: T)
    ensures (pre + [e] + post)[|pre| := x] == pre + [x] + post
  {
  }

  lemma {:induction false} DistinctAt<T>(s: seq<T>, m: nat)
    requires Distinct(s) && m < |s|
    ensures forall i :: 0 <= i < |s| && i != m ==> s[i] != s[m]
  {
  }

  lemma {:induction false} DistinctSnoc<T>(s: seq<T>, x: T)
    requires Distinct(s) && x !in s
    ensures Distinct(s + [x])
  {
  }

  /** The node after index `i`. */
  ghost function After(nodes: seq<Node>, i: nat): Node?
    requires i < |nodes|
  {
    if i + 1 < |nodes| then nodes[i + 1] else null
  }

  /** Splicing changes who follows index `m`, and nobody else's successor. */
  lemma {:induction false} AfterInsert(nodes: seq<Node>, m: nat, x: Node)
    requires m < |nodes|
    ensures var r := Insert(nodes, m, x);
            && After(r, m) == x && After(r, m + 1) == After(nodes, m)
            && (forall i {:trigger After(r, i)} :: 0 <= i < m ==> After(r, i) == After(nodes, i))
            && (forall i {:trigger After(r, i)} :: m + 1 < i < |r| ==> After(r, i) == After(nodes, i - 1))
  {
  }

  /** The assignments of ga_port to the entry at the cursor. */
  method FillNode(ai: Node, p: Pass, ghost b: SockAddr, ghost next: Node?, ghost e: Entry)
    requires Shows(ai, b, next, e)
    modifies ai, b
    ensures Shows(ai, b, next, Fill(e, p)) && ai.family == e.family
  {
    ai.socktype := p.socktype;
    match ai.family {
      case Inet => ai.sa.port := p.port;
      case Inet6 => ai.sa.port := p.port;
      case Local =>
    }
  }

  /** A copy of `ai`, still without a buffer, linked in after it. */
  method SpliceNode(ai: Node, ghost b: SockAddr, ghost next: Node?, ghost e: Entry) returns (copy: Node)
    requires Shows(ai, b, next, e)
    modifies ai
    ensures fresh(copy) && ai.next == copy && copy.next == next
    ensures Shows(ai, b, copy, e)
    ensures copy.family == ai.family && copy.socktype == ai.socktype && copy.protocol == ai.protocol && !copy.clone
  {
    copy := new Node(ai.next, false, ai.family, ai.socktype, ai.protocol);
    ai.next := copy;
  }

  /** The copy's own buffer, with the address and port of the original. */
  method AttachBuffer(ai: Node, copy: Node, ghost b: SockAddr, ghost mid: Node?, ghost next: Node?, ghost e: Entry)
    returns (buf: SockAddr)
    requires Shows(ai, b, mid, e) && copy != ai && copy.next == next
    requires copy.family == ai.family && copy.socktype == ai.socktype && copy.protocol == ai.protocol && !copy.clone
    modifies copy
    ensures fresh(buf) && Shows(copy, buf, next, e.(clone := false))
  {
    buf := new SockAddr(ai.sa.addr, ai.sa.port);
    copy.sa := buf;
  }

  ghost predicate Owned(repr: set<object>, nodes: seq<Node>, bufs: seq<SockAddr>)
  {
    && (forall i :: 0 <= i < |nodes| ==> nodes[i] in repr)
    && (forall i :: 0 <= i < |bufs| ==> bufs[i] in repr)
  }

  lemma {:induction false} OwnedInsert(repr: set<object>, nodes: seq<Node>, bufs: seq<SockAddr>, m: nat, n: Node, b: SockAddr)
    requires Owned(repr, nodes, bufs) && m < |nodes| == |bufs|
    ensures Owned(repr + {n, b}, Insert(nodes, m, n), Insert(bufs, m, b))
  {
  }

  /** All but the node at index `m` mean their entries. */
  ghost predicate OthersShow(repr: set<object>, nodes: seq<Node>, bufs: seq<SockAddr>, es: seq<Entry>, m: nat)
    requires |nodes| == |bufs| == |es|
    reads repr
  {
    Owned(repr, nodes, bufs) && forall i {:trigger es[i]} :: 0 <= i < |nodes| && i != m ==> Shows(nodes[i], bufs[i], After(nodes, i), es[i])
  }

  class AddrList {
    var head: Node?
    var tail: Node?   // the node whose ai_next the source's *paipnext designates
    var mem: nat      // how many more allocations will succeed
    ghost var nodes: seq<Node>
    ghost var bufs: seq<SockAddr>
    ghost var repr: set<object>   // every node and buffer allocated for the list

    /** The nodes are linked in order. */
    ghost predicate Linked()
      reads this`head, this`nodes, this`repr, repr
    {
      && head == (if nodes == [] then null else nodes[0])
      && forall i {:trigger After(nodes, i)} :: 0 <= i < |nodes| ==> nodes[i] in repr && nodes[i].next == After(nodes, i)
    }

    /** The list means `es`: distinct nodes, linked in order, each with a buffer of its own. */
    ghost predicate Holds(es: seq<Entry>)
      reads this`head, this`nodes, this`bufs, this`repr, repr
    {
      && head == (if nodes == [] then null else nodes[0])
      && |es| == |nodes| == |bufs| && Distinct(nodes) && Distinct(bufs) && Owned(repr, nodes, bufs) && this !in repr
      && forall i {:trigger es[i]} :: 0 <= i < |nodes| ==> Shows(nodes[i], bufs[i], After(nodes, i), es[i])
    }

    constructor (mem: nat)
      ensures Holds([]) && tail == null && this.mem == mem && repr == {}
    {
      head, tail, this.mem := null, null, mem;
      nodes, bufs, repr := [], [], {};
    }

    /** The cursor's entry is filled in; no other entry shares its node or its buffer. */
    method FillIn(ai: Node, p: Pass, ghost es: seq<Entry>, ghost m: nat)
      requires Holds(es) && m < |nodes| && ai == nodes[m]
      modifies nodes[m], bufs[m]
      ensures Holds(es[m := Fill(es[m], p)]) && ai.family == es[m].family
    {
      DistinctAt(nodes, m);
      DistinctAt(bufs, m);
      hide Distinct, After, Shows, Fill;
      FillNode(ai, p, bufs[m], After(nodes, m), es[m]);
    }

    /** The list after a splice at index `m`: the copy is linked in but has no buffer yet. */
    ghost predicate Halfway(es: seq<Entry>, was: seq<Node>, m: nat, copy: Node)
      reads this`head, this`nodes, this`bufs, this`repr, repr
    {
      && m < |was| == |bufs| == |es| && nodes == Insert(was, m, copy)
      && head == was[0] && Distinct(was) && Distinct(bufs) && copy !in was && copy in repr && Owned(repr, was, bufs) && this !in repr
      && OthersShow(repr, was, bufs, es, m) && Shows(was[m], bufs[m], copy, es[m])
      && copy.next == After(was, m) && !copy.clone
      && copy.family == was[m].family && copy.socktype == was[m].socktype && copy.protocol == was[m].protocol
    }

    method LinkCopy(ai: Node, ghost es: seq<Entry>, ghost m: nat) returns (copy: Node)
      requires Holds(es) && m < |nodes| && ai == nodes[m]
      modifies this`nodes, this`repr, nodes[m]
      ensures fresh(copy) && Halfway(es, old(nodes), m, copy) && nodes == Insert(old(nodes), m, copy)
      ensures repr == old(repr) + {copy}
    {
      DistinctAt(nodes, m);
      ghost var was, next := nodes, After(nodes, m);
      assert OthersShow(repr, was, bufs, es, m) && Shows(ai, bufs[m], next, es[m]);
      hide Distinct, After, Insert, Shows, Holds;
      copy := SpliceNode(ai, bufs[m], next, es[m]);
      assert OthersShow(repr, was, bufs, es, m);
      hide OthersShow;
      nodes := Insert(nodes, m, copy);
      repr := repr + {copy};
    }

    method BufferCopy(ai: Node, copy: Node, ghost es: seq<Entry>, ghost was: seq<Node>, ghost m: nat)
      requires Halfway(es, was, m, copy) && ai == was[m]
      modifies this`bufs, this`repr, copy
      ensures nodes == old(nodes) && Holds(Insert(es, m, es[m].(clone := false)))
      ensures |bufs| == |nodes| && fresh(bufs[m + 1]) && repr == old(repr) + {bufs[m + 1]}
    {
      hide Distinct, After, Insert, Shows;
      ghost var wasBufs := bufs;
      ghost var b := AttachBuffer(ai, copy, bufs[m], copy, After(was, m), es[m]);
      bufs := Insert(bufs, m, b);
      OwnedInsert(repr, was, wasBufs, m, copy, b);
      assert repr + {copy, b} == repr + {b};
      repr := repr + {b};
      Inserted(es, was, wasBufs, m, copy, b);
    }

    /** `ga_clone`: a copy of `ai`, with a buffer of its own and AI_CLONE off, spliced in after
        it. When the second allocation fails the copy stays in the list without a buffer. */
    method GaClone(ai: Node, ghost es: seq<Entry>, ghost m: nat) returns (copy: Node?)
      requires Holds(es) && m < |nodes| && ai == nodes[m]
      modifies this`mem, this`nodes, this`bufs, this`repr, nodes[m]
      ensures copy != null <==> old(mem) >= 2
      ensures copy == null ==> mem == 0 && Linked()
      ensures copy != null ==>
                && mem == old(mem) - 2 && |bufs| == |nodes| == |old(nodes)| + 1
                && copy == nodes[m + 1] && fresh(copy) && fresh(bufs[m + 1])
                && Holds(Insert(es, m, es[m].(clone := false)))
      ensures fresh(repr - old(repr))
    {
      HoldsSize(es);
      hide Distinct, After, Insert, Shows, OthersShow, Holds, Halfway, Linked;
      if mem == 0 {
        HoldsLinked(es);
        return null;
      }
      mem := mem - 1;
      ghost var was := nodes;
      var c := LinkCopy(ai, es, m);
      if mem == 0 {
        Relinked(es, was, m, c);
        return null;
      }
      mem := mem - 1;
      BufferCopy(ai, c, es, was, m);
      copy := c;
    }

    lemma {:induction false} Inserted(es: seq<Entry>, was: seq<Node>, wasBufs: seq<SockAddr>, m: nat, copy: Node, b: SockAddr)
      requires m < |was| == |wasBufs| == |es| && nodes == Insert(was, m, copy) && bufs == Insert(wasBufs, m, b)
      requires head == was[0] && Distinct(was) && Distinct(wasBufs) && copy !in was && b !in wasBufs
      requires Owned(repr, nodes, bufs) && this !in repr
      requires OthersShow(repr, was, wasBufs, es, m)
      requires Shows(was[m], wasBufs[m], copy, es[m])
      requires Shows(copy, b, After(was, m), es[m].(clone := false))
      ensures Holds(Insert(es, m, es[m].(clone := false)))
    {
    }

    lemma {:induction false} HoldsSize(es: seq<Entry>)
      requires Holds(es)
      ensures |es| == |nodes| == |bufs|
    {
    }

    lemma {:induction false} HoldsLinked(es: seq<Entry>)
      requires Holds(es)
      ensures Linked()
    {
      forall i | 0 <= i < |nodes| ensures nodes[i] in repr && nodes[i].next == After(nodes, i) {
        assert Shows(nodes[i], bufs[i], After(nodes, i), es[i]);
      }
    }

    lemma {:induction false} Relinked(es: seq<Entry>, was: seq<Node>, m: nat, copy: Node)
      requires Halfway(es, was, m, copy)
      ensures Linked()
    {
      AfterInsert(was, m, copy);
      forall i | 0 <= i < |nodes| ensures nodes[i] in repr && nodes[i].next == After(nodes, i) {
        var j := if i <= m then i else i - 1;
        assert i != m && i != m + 1 ==> Shows(was[j], bufs[j], After(was, j), es[j]);
      }
    }

    /** The cursor of ga_port stands at the entry numbered `k` of the original list, which is at
        index `m` by now; everything before it has been dealt with. */
    ghost predicate Cursor(es: seq<Entry>, p: Pass, k: nat, m: nat, ai: Node?)
      reads this`head, this`nodes, this`bufs, this`repr, repr
    {
      && k <= |es| && m == |PassAll(es[..k], p)|
      && Holds(PassAll(es[..k], p) + es[k..])
      && ai == (if m < |nodes| then nodes[m] else null)
    }

    /** What the cursor sees, and where it is after each kind of step. */
    lemma {:induction false} CursorSteps(es: seq<Entry>, p: Pass, k: nat, m: nat, ai: Node)
      requires Cursor(es, p, k, m, ai)
      ensures k < |es| && m == |PassAll(es[..k], p)| < |nodes| && ai == nodes[m] && ai in repr
      ensures |bufs| == |nodes| && bufs[m] in repr
      ensures var e, cur := es[k], PassAll(es[..k], p) + es[k..];
              && Holds(cur) && |cur| == |nodes| && cur[m] == e
              && ai.clone == e.clone && ai.socktype == e.socktype && ai.family == e.family
    {
    }

    lemma {:induction false} Advance(es: seq<Entry>, p: Pass, k: nat, cur: seq<Entry>, m: nat)
      requires k < |es| && cur == PassAll(es[..k + 1], p) + es[k + 1..] && m + 1 == |PassAll(es[..k + 1], p)|
      requires Holds(cur) && m < |nodes|
      ensures Cursor(es, p, k + 1, m + 1, nodes[m].next)
    {
      assert Shows(nodes[m], bufs[m], After(nodes, m), cur[m]);
    }

    /** The cloning branch: the new entry, right behind the cursor's, is filled in. */
    method CloneAndFill(ai: Node, p: Pass, ghost cur: seq<Entry>, ghost m: nat) returns (copy: Node?)
      requires Holds(cur) && m < |nodes| == |cur| && ai == nodes[m]
      modifies this`mem, this`nodes, this`bufs, this`repr, nodes[m]
      ensures copy != null <==> old(mem) >= 2
      ensures copy == null ==> Linked()
      ensures copy != null ==>
                && mem == old(mem) - 2 && m + 1 < |nodes| && copy == nodes[m + 1] && copy.family == cur[m].family
                && Holds(Insert(cur, m, Fill(cur[m].(clone := false), p)))
      ensures fresh(repr - old(repr))
    {
      hide Holds, Linked, Fill;
      copy := GaClone(ai, cur, m);
      if copy == null {
        return;
      }
      ghost var more := Insert(cur, m, cur[m].(clone := false));
      FillIn(copy, p, more, m + 1);
      assert more[m + 1 := Fill(more[m + 1], p)] == Insert(cur, m, Fill(cur[m].(clone := false), p));
    }

    /** One turn of ga_port's loop: -1 if memory ran out, else whether the entry was counted. */
    method Visit(ai: Node, p: Pass, ghost es: seq<Entry>, ghost k: nat, ghost m: nat)
      returns (found: int, next: Node?)
      requires Cursor(es, p, k, m, ai) && k < |es|
      modifies this, repr
      ensures fresh(repr - old(repr))
      ensures found < 0 <==> old(mem) < Needed(es[k])
      ensures found < 0 ==> found == -1 && Linked()
      ensures found >= 0 ==>
                && found == (if Counted(es[k], p) then 1 else 0) && mem == old(mem) - Needed(es[k])
                && Cursor(es, p, k + 1, |PassAll(es[..k + 1], p)|, next)
    {
      hide Holds, Linked, PassAll, Insert, Fill, Cursor;
      CursorSteps(es, p, k, m, ai);
      PassStep(es, p, k);
      ghost var pre, post, e := PassAll(es[..k], p), es[k + 1..], es[k];
      ghost var cur := pre + [e] + post;
      HoldsSize(cur);
      UpdateMiddle(pre, e, post, Fill(e, p));
      InsertMiddle(pre, e, post, Fill(e.(clone := false), p));
      if ai.clone && ai.socktype != 0 {
        var copy := CloneAndFill(ai, p, cur, m);
        if copy == null {
          return -1, null;
        }
        Advance(es, p, k, Insert(cur, m, Fill(e.(clone := false), p)), m + 1);
        found, next := if copy.family.Local? then 0 else 1, copy.next;
      } else if !ai.clone && ai.socktype != p.socktype {
        Advance(es, p, k, cur, m);
        found, next := 0, ai.next;
      } else {
        FillIn(ai, p, cur, m);
        Advance(es, p, k, cur[m := Fill(e, p)], m);
        found, next := if ai.family.Local? then 0 else 1, ai.next;
      }
    }

    /** `ga_port`. The walk ends although entries are inserted ahead of it, because the cursor
        steps over each entry it inserts. */
    method GaPort(p: Pass, ghost es: seq<Entry>) returns (nfound: int)
      requires Holds(es)
      modifies this, repr
      ensures fresh(repr - old(repr))
      ensures nfound < 0 <==> old(mem) < 2 * Clones(es)
      ensures nfound < 0 ==> nfound == -1 && Linked()
      ensures nfound >= 0 ==>
                && nfound == Found(es, p) && mem == old(mem) - 2 * Clones(es) && Holds(PassAll(es, p))
    {
      hide Cursor, Linked, Holds, PassAll, Found, Clones, Needed, Counted;
      nfound := 0;
      var ai := head;
      ghost var k: nat, m: nat := 0, 0;
      CursorStart(es, p);
      while ai != null
        invariant fresh(repr - old(repr)) && k <= |es| && Cursor(es, p, k, m, ai)
        invariant nfound == Found(es[..k], p) && mem == old(mem) - 2 * Clones(es[..k])
        decreases |es| - k
      {
        CursorSteps(es, p, k, m, ai);
        Tally(es, p, k);
        assert mem < Needed(es[k]) ==> old(mem) < 2 * Clones(es);
        var found, next := Visit(ai, p, es, k, m);
        if found < 0 {
          return -1;
        }
        nfound, ai := nfound + found, next;
        k, m := k + 1, |PassAll(es[..k + 1], p)|;
      }
      CursorEnd(es, p, k, m);
    }

    lemma {:induction false} CursorStart(es: seq<Entry>, p: Pass)
      requires Holds(es)
      ensures Cursor(es, p, 0, 0, head) && Found(es[..0], p) == Clones(es[..0]) == 0
    {
    }

    lemma {:induction false} CursorEnd(es: seq<Entry>, p: Pass, k: nat, m: nat)
      requires Cursor(es, p, k, m, null)
      ensures k == |es| && es[..k] == es && Holds(PassAll(es, p))
    {
      assert k == |es|;
      assert es[..k] == es && PassAll(es, p) + es[k..] == PassAll(es, p);
    }

    /** `*paipnext` designates the end of the list, as it does until ga_serv is called. */
    ghost predicate AtEnd()
      reads this
    {
      tail == if nodes == [] then null else nodes[|nodes| - 1]
    }

    /** Link a new node in at the end. */
    method LinkTail(ai: Node, ghost es: seq<Entry>)
      requires Holds(es) && AtEnd() && ai.next == null && ai !in repr
      modifies this`head, this`tail, this`nodes, this`repr, repr
      ensures nodes == old(nodes) + [ai] && repr == old(repr) + {ai} && AtEnd() && head == nodes[0]
      ensures |es| == |bufs| == |nodes| - 1 && Owned(repr, nodes, bufs) && Distinct(nodes) && Distinct(bufs) && this !in repr
      ensures ai.next == null && ai.sa == old(ai.sa) && ai.clone == old(ai.clone)
      ensures ai.family == old(ai.family) && ai.socktype == old(ai.socktype) && ai.protocol == old(ai.protocol)
      ensures forall i {:trigger es[i]} :: 0 <= i < |es| ==> Shows(nodes[i], bufs[i], After(nodes, i), es[i])
    {
      ghost var last := |nodes| - 1;
      if tail == null {
        head := ai;
      } else {
        DistinctAt(nodes, last);
        assert Shows(tail, bufs[last], After(nodes, last), es[last]);
        tail.next := ai;
      }
      DistinctSnoc(nodes, ai);
      tail := ai;
      nodes, repr := nodes + [ai], repr + {ai};
      hide Distinct;
      forall i {:trigger es[i]} | 0 <= i < |es| ensures Shows(nodes[i], bufs[i], After(nodes, i), es[i]) {
        assert old(Shows(nodes[i], bufs[i], After(nodes, i), es[i]));
      }
    }

    /** `ga_aistruct`: append an entry through the tail pointer, with AI_CLONE set if the caller
        gave no socket type. A Unix-domain path has to fit `sunPath` characters with its NUL. When
        it does not, or no buffer can be had, the new entry stays in the list without one. */
    method GaAistruct(hint: nat, protocol: int, family: Family, addr: seq<Octet>, sunPath: nat, ghost es: seq<Entry>)
      returns (rc: Code)
      requires Holds(es) && AtEnd()
      modifies this, repr
      ensures fresh(repr - old(repr))
      ensures rc == if old(mem) == 0 then Memory
                    else if family.Local? && |addr| >= sunPath then Service
                    else if old(mem) == 1 then Memory else Ok
      ensures !rc.Ok? ==> Linked() && AtEnd()
      ensures rc.Ok? ==>
                && mem == old(mem) - 2 && AtEnd()
                && Holds(es + [Entry(hint == 0, family, hint, protocol, addr, 0)])
    {
      if mem == 0 {
        HoldsLinked(es);
        return Memory;
      }
      mem := mem - 1;
      var ai := new Node(null, hint == 0, family, hint, protocol);
      assert ai !in repr;
      LinkTail(ai, es);
      hide Distinct, Owned;
      if family.Local? && |addr| >= sunPath {
        LastLinked(es);
        return Service;
      }
      if mem == 0 {
        LastLinked(es);
        return Memory;
      }
      mem := mem - 1;
      AttachLast(addr, es);
      return Ok;
    }

    /** A list with a node more than it has buffers is linked all the same. */
    lemma {:induction false} LastLinked(es: seq<Entry>)
      requires |es| == |bufs| == |nodes| - 1 && head == nodes[0] && Owned(repr, nodes, bufs)
      requires nodes[|es|].next == null
      requires forall i {:trigger es[i]} :: 0 <= i < |es| ==> Shows(nodes[i], bufs[i], After(nodes, i), es[i])
      ensures Linked()
    {
      forall i {:trigger After(nodes, i)} | 0 <= i < |nodes|
        ensures nodes[i] in repr && nodes[i].next == After(nodes, i)
      {
        if i < |es| {
          assert Shows(nodes[i], bufs[i], After(nodes, i), es[i]);
        }
      }
    }

    /** The last node gets its buffer. */
    method AttachLast(addr: seq<Octet>, ghost es: seq<Entry>)
      requires |es| == |bufs| == |nodes| - 1 && head == nodes[0] && AtEnd() && this !in repr
      requires Owned(repr, nodes, bufs) && Distinct(nodes) && Distinct(bufs)
      requires nodes[|es|].next == null && tail != null
      requires forall i {:trigger es[i]} :: 0 <= i < |es| ==> Shows(nodes[i], bufs[i], After(nodes, i), es[i])
      modifies this`bufs, this`repr, repr
      ensures nodes == old(nodes) && fresh(repr - old(repr)) && AtEnd()
      ensures var n := old(tail);
              Holds(es + [Entry(old(n.clone), old(n.family), old(n.socktype), old(n.protocol), addr, 0)])
    {
      var sin := new SockAddr(addr, 0);
      DistinctSnoc(bufs, sin);
      DistinctAt(nodes, |es|);
      tail.sa := sin;
      bufs, repr := bufs + [sin], repr + {sin};
      hide Distinct;
      forall i {:trigger es[i]} | 0 <= i < |es| ensures Shows(nodes[i], bufs[i], After(nodes, i), es[i]) {
        assert old(Shows(nodes[i], bufs[i], After(nodes, i), es[i]));
      }
    }

    /** What ga_serv has done after the passes `ps`. */
    ghost predicate Done(es: seq<Entry>, ps: seq<Pass>, mem0: nat, nfound: int)
      reads this, repr
    {
      && Holds(Passes(es, ps)) && nfound == TotalFound(es, ps)
      && mem0 == mem + 2 * TotalClones(es, ps)
    }

    lemma {:induction false} DoneStart(es: seq<Entry>)
      requires Holds(es)
      ensures Done(es, [], mem, 0)
    {
    }

    lemma {:induction false} DoneMeans(es: seq<Entry>, ps: seq<Pass>, mem0: nat, nfound: int)
      requires Done(es, ps, mem0, nfound)
      ensures Holds(Passes(es, ps)) && nfound == TotalFound(es, ps) && mem0 >= 2 * TotalClones(es, ps)
    {
    }

    /** A call of ga_port from ga_serv; the new total, or -1. */
    method OnePass(p: Pass, nfound: int, ghost es: seq<Entry>, ghost ps: seq<Pass>, ghost mem0: nat)
      returns (total: int)
      requires Done(es, ps, mem0, nfound) && nfound >= 0
      modifies this, repr
      ensures fresh(repr - old(repr))
      ensures total < 0 <==> mem0 < 2 * TotalClones(es, ps + [p])
      ensures total < 0 ==> Linked()
      ensures total >= 0 ==> Done(es, ps + [p], mem0, total)
    {
      TotalsSnoc(es, ps, p);
      hide Holds, Linked, Passes, TotalFound, TotalClones, PassAll, Found, Clones;
      var rc := GaPort(p, Passes(es, ps));
      total := if rc < 0 then -1 else nfound + rc;
    }

    /** The same if there is a call to make. */
    method NextPass(p: Option<Pass>, nfound: int, ghost es: seq<Entry>, ghost ps: seq<Pass>, ghost mem0: nat)
      returns (total: int)
      requires Done(es, ps, mem0, nfound) && nfound >= 0
      modifies this, repr
      ensures fresh(repr - old(repr))
      ensures total < 0 <==> mem0 < 2 * TotalClones(es, Then(ps, p))
      ensures total < 0 ==> Linked()
      ensures total >= 0 ==> Done(es, Then(ps, p), mem0, total)
    {
      DoneMeans(es, ps, mem0, nfound);
      hide Done, Holds, Linked, Passes, TotalFound, TotalClones;
      if p == None {
        return nfound;
      }
      total := OnePass(p.value, nfound, es, ps, mem0);
    }

    /** `ga_serv`: one or two passes, and an error if nothing was found. */
    method GaServ(hint: nat, serv: ServiceText, ghost es: seq<Entry>) returns (rc: Code)
      requires Holds(es)
      modifies this, repr
      ensures fresh(repr - old(repr))
      ensures rc == if old(mem) < 2 * TotalClones(es, PassesFor(hint, serv)) then Memory
                    else if TotalFound(es, PassesFor(hint, serv)) > 0 then Ok
                    else if hint == 0 then NoName else Service
      ensures if rc.Memory? then Linked() else Holds(Passes(es, PassesFor(hint, serv)))
    {
      hide Done, Passes, TotalFound, TotalClones, Holds, Linked, FirstPass, SecondPass, PassesFor, Then;
      var first, second := FirstPass(hint, serv), SecondPass(hint, serv);
      ghost var mem0, ps := mem, Then([], first);
      PassesForSplit(es, hint, serv);
      DoneStart(es);
      var n := NextPass(first, 0, es, [], mem0);
      if n < 0 {
        return Memory;
      }
      n := NextPass(second, n, es, ps, mem0);
      if n < 0 {
        return Memory;
      }
      DoneMeans(es, PassesFor(hint, serv), mem0, n);
      if n == 0 {
        return if hint == 0 then NoName else Service;
      }
      return Ok;
    }
  }

  datatype Code = Ok | Memory | NoName | Service

  /** The service string: a port number, or a name with what getservbyname finds for it. */
  datatype ServiceText = Number(port: nat) | Name(tcp: Option<nat>, udp: Option<nat>)

  const SOCK_STREAM := 1
  const SOCK_DGRAM := 2

  /** The first call of ga_port that ga_serv makes, the caller's type being `hint`, zero for
      any: with the caller's own type, or for TCP. */
  function FirstPass(hint: nat, serv: ServiceText): Option<Pass>
  {
    match serv
    case Number(port) => Some(Pass(if hint != 0 then hint else SOCK_STREAM, port))
    case Name(tcp, _) =>
      if tcp.Some? && (hint == 0 || hint == SOCK_STREAM) then Some(Pass(SOCK_STREAM, tcp.value)) else None
  }

  /** The second one, for UDP. */
  function SecondPass(hint: nat, serv: ServiceText): Option<Pass>
  {
    match serv
    case Number(port) => if hint != 0 then None else Some(Pass(SOCK_DGRAM, port))
    case Name(_, udp) =>
      if udp.Some? && (hint == 0 || hint == SOCK_DGRAM) then Some(Pass(SOCK_DGRAM, udp.value)) else None
  }

  function Then(ps: seq<Pass>, p: Option<Pass>): seq<Pass>
  {
    if p.Some? then ps + [p.value] else ps
  }

  function PassesFor(hint: nat, serv: ServiceText): seq<Pass>
  {
    Then(Then([], FirstPass(hint, serv)), SecondPass(hint, serv))
  }

  function Passes(es: seq<Entry>, ps: seq<Pass>): (r: seq<Entry>)
  {
    if ps == [] then es else PassAll(Passes(es, ps[..|ps| - 1]), ps[|ps| - 1])
  }

  /** All the entries counted, and cloned, by the passes. */
  function TotalFound(es: seq<Entry>, ps: seq<Pass>): nat
  {
    if ps == [] then 0
    else TotalFound(es, ps[..|ps| - 1]) + Found(Passes(es, ps[..|ps| - 1]), ps[|ps| - 1])
  }

  function TotalClones(es: seq<Entry>, ps: seq<Pass>): nat
  {
    if ps == [] then 0
    else TotalClones(es, ps[..|ps| - 1]) + Clones(Passes(es, ps[..|ps| - 1]))
  }

  lemma {:induction false} TotalsSnoc(es: seq<Entry>, ps: seq<Pass>, p: Pass)
    ensures Passes(es, ps + [p]) == PassAll(Passes(es, ps), p)
    ensures TotalFound(es, ps + [p]) == TotalFound(es, ps) + Found(Passes(es, ps), p)
    ensures TotalClones(es, ps + [p]) == TotalClones(es, ps) + Clones(Passes(es, ps))
  {
  }

  /** The first pass alone never needs more memory than both. */
  lemma {:induction false} PassesForSplit(es: seq<Entry>, hint: nat, serv: ServiceText)
    ensures var f, s, all := FirstPass(hint, serv), SecondPass(hint, serv), PassesFor(hint, serv);
            all == Then(Then([], f), s) && TotalClones(es, Then([], f)) <= TotalClones(es, all)
  {
    var s := SecondPass(hint, serv);
    if s.Some? {
      TotalsSnoc(es, Then([], FirstPass(hint, serv)), s.value);
    }
  }

  // ---- what the passes add up to

  /** An entry as ga_aistruct makes it when the caller gave no socket type. */
  predicate Cloneable(e: Entry)
  {
    e.clone && e.socktype == 0 && !e.family.Local?
  }

  predicate DistinctTypes(ps: seq<Pass>)
  {
    && (forall i :: 0 <= i < |ps| ==> ps[i].socktype != 0)
    && (forall i, j :: 0 <= i < j < |ps| ==> ps[i].socktype != ps[j].socktype)
  }

  /** The entries of one address after the passes `ps`: the original with the first type, then
      a clone for each further one, latest first, since each is put right behind the original. */
  function Group(e: Entry, ps: seq<Pass>): (g: seq<Entry>)
    requires ps != []
    ensures |g| == |ps|
  {
    if |ps| == 1 then [Fill(e, ps[0])]
    else
      var g := Group(e, ps[..|ps| - 1]);
      [g[0], Fill(g[0].(clone := false), ps[|ps| - 1])] + g[1..]
  }

  /** Explicitly: every entry is the same address with one pass's type and that type's port. */
  lemma {:induction false} GroupEntries(e: Entry, ps: seq<Pass>, j: nat)
    requires ps != [] && !e.family.Local? && j < |ps|
    ensures Group(e, ps)[if j == 0 then 0 else |ps| - j]
         == e.(clone := e.clone && j == 0, socktype := ps[j].socktype, port := ps[j].port)
    decreases |ps|
  {
    if |ps| > 1 {
      var init := ps[..|ps| - 1];
      GroupEntries(e, init, 0);
      if j < |ps| - 1 {
        GroupEntries(e, init, j);
      }
    }
  }

  lemma {:induction false} PassAllAppend(a: seq<Entry>, b: seq<Entry>, p: Pass)
    ensures PassAll(a + b, p) == PassAll(a, p) + PassAll(b, p)
    decreases |b|
  {
    if b == [] {
      assert a + b == a;
    } else {
      var init, last := b[..|b| - 1], b[|b| - 1];
      assert (a + b)[..|a + b| - 1] == a + init;
      PassAllAppend(a, init, p);
    }
  }

  /** Entries of other types that are not to be cloned are left alone. */
  lemma {:induction false} PassAllSkips(es: seq<Entry>, p: Pass)
    requires forall i :: 0 <= i < |es| ==> !es[i].clone && es[i].socktype != p.socktype
    ensures PassAll(es, p) == es
  {
    if es != [] {
      PassAllSkips(es[..|es| - 1], p);
    }
  }

  lemma {:induction false} PassAllSingle(e: Entry, p: Pass)
    ensures PassAll([e], p) == PassOne(e, p)
  {
  }

  /** One more pass extends each group by one. */
  lemma {:induction false} PassGroup(e: Entry, ps: seq<Pass>)
    requires Cloneable(e) && |ps| >= 2 && DistinctTypes(ps)
    ensures PassAll(Group(e, ps[..|ps| - 1]), ps[|ps| - 1]) == Group(e, ps)
  {
    var init, p := ps[..|ps| - 1], ps[|ps| - 1];
    var g := Group(e, init);
    forall i | 0 <= i < |g| ensures g[i].clone == (i == 0) && g[i].socktype != p.socktype && g[i].socktype != 0 {
      GroupEntries(e, init, if i == 0 then 0 else |init| - i);
    }
    assert g == [g[0]] + g[1..];
    PassAllAppend([g[0]], g[1..], p);
    PassAllSingle(g[0], p);
    PassAllSkips(g[1..], p);
  }

  /** The groups of all addresses, in the order of the addresses. */
  function Groups(es: seq<Entry>, ps: seq<Pass>): (r: seq<Entry>)
    requires ps != []
    ensures |r| == |ps| * |es|
  {
    if es == [] then [] else Groups(es[..|es| - 1], ps) + Group(es[|es| - 1], ps)
  }

  lemma {:induction false} PassGroups(es: seq<Entry>, ps: seq<Pass>)
    requires |ps| >= 1 && DistinctTypes(ps) && forall i :: 0 <= i < |es| ==> Cloneable(es[i])
    ensures |ps| == 1 ==> PassAll(es, ps[0]) == Groups(es, ps)
    ensures |ps| >= 2 ==> PassAll(Groups(es, ps[..|ps| - 1]), ps[|ps| - 1]) == Groups(es, ps)
    decreases |es|
  {
    if es != [] {
      var init, e := es[..|es| - 1], es[|es| - 1];
      PassGroups(init, ps);
      if |ps| >= 2 {
        var qs, p := ps[..|ps| - 1], ps[|ps| - 1];
        PassAllAppend(Groups(init, qs), Group(e, qs), p);
        PassGroup(e, ps);
      }
    }
  }

  /** The whole expansion: after k passes with distinct socket types over n cloneable
      addresses the list has k * n entries, grouped by address in the original order. */
  lemma {:induction false} PassesGrouped(es: seq<Entry>, ps: seq<Pass>)
    requires ps != [] && DistinctTypes(ps) && forall i :: 0 <= i < |es| ==> Cloneable(es[i])
    ensures Passes(es, ps) == Groups(es, ps) && |Passes(es, ps)| == |ps| * |es|
    decreases |ps|
  {
    PassGroups(es, ps);
    if |ps| == 1 {
      assert ps[..0] == [];
    } else {
      PassesGrouped(es, ps[..|ps| - 1]);
    }
  }

  lemma {:induction false} FoundAppend(a: seq<Entry>, b: seq<Entry>, p: Pass)
    ensures Found(a + b, p) == Found(a, p) + Found(b, p)
    decreases |b|
  {
    if b == [] {
      assert a + b == a;
    } else {
      assert (a + b)[..|a + b| - 1] == a + b[..|b| - 1];
      FoundAppend(a, b[..|b| - 1], p);
    }
  }

  lemma {:induction false} FoundNone(es: seq<Entry>, p: Pass)
    requires forall i :: 0 <= i < |es| ==> !Counted(es[i], p)
    ensures Found(es, p) == 0
  {
    if es != [] {
      FoundNone(es[..|es| - 1], p);
    }
  }

  /** In each group only the original counts for a new socket type. */
  lemma {:induction false} FoundGroup(e: Entry, ps: seq<Pass>, p: Pass)
    requires Cloneable(e) && ps != [] && DistinctTypes(ps + [p])
    ensures Found(Group(e, ps), p) == 1
  {
    var g := Group(e, ps);
    forall i | 0 <= i < |g| ensures Counted(g[i], p) <==> i == 0 {
      var j := if i == 0 then 0 else |ps| - i;
      GroupEntries(e, ps, j);
      assert (ps + [p])[j] == ps[j] && (ps + [p])[|ps|] == p;
    }
    assert g == [g[0]] + g[1..];
    FoundAppend([g[0]], g[1..], p);
    FoundNone(g[1..], p);
    assert [g[0]][..0] == [];
  }

  lemma {:induction false} FoundGroups(es: seq<Entry>, ps: seq<Pass>, p: Pass)
    requires ps != [] && DistinctTypes(ps + [p]) && forall i :: 0 <= i < |es| ==> Cloneable(es[i])
    ensures Found(Groups(es, ps), p) == |es|
  {
    if es != [] {
      var init, e := es[..|es| - 1], es[|es| - 1];
      FoundGroups(init, ps, p);
      FoundAppend(Groups(init, ps), Group(e, ps), p);
      FoundGroup(e, ps, p);
    }
  }

  lemma {:induction false} FoundCloneable(es: seq<Entry>, p: Pass)
    requires forall i :: 0 <= i < |es| ==> Cloneable(es[i])
    ensures Found(es, p) == |es|
  {
    if es != [] {
      FoundCloneable(es[..|es| - 1], p);
    }
  }

  lemma {:induction false} DistinctPrefix(ps: seq<Pass>)
    requires ps != [] && DistinctTypes(ps)
    ensures DistinctTypes(ps[..|ps| - 1])
  {
  }

  /** Every pass counts every address once, so ga_serv succeeds if there is an address and a
      service for it. */
  lemma {:induction false} FoundEverywhere(es: seq<Entry>, ps: seq<Pass>)
    requires DistinctTypes(ps) && forall i :: 0 <= i < |es| ==> Cloneable(es[i])
    ensures TotalFound(es, ps) == |ps| * |es|
    decreases |ps|
  {
    if ps != [] {
      var init, p := ps[..|ps| - 1], ps[|ps| - 1];
      DistinctPrefix(ps);
      assert init + [p] == ps;
      hide DistinctTypes, Passes, PassAll, Found, TotalFound, Cloneable;
      FoundEverywhere(es, init);
      FoundStep(es, init, p);
      TotalsSnoc(es, init, p);
      TimesSucc(|init|, |es|);
    }
  }

  lemma {:induction false} TimesSucc(a: nat, b: nat)
    ensures (a + 1) * b == a * b + b
  {
  }

  lemma {:induction false} FoundStep(es: seq<Entry>, init: seq<Pass>, p: Pass)
    requires DistinctTypes(init + [p]) && forall i :: 0 <= i < |es| ==> Cloneable(es[i])
    ensures Found(Passes(es, init), p) == |es|
  {
    if init == [] {
      FoundCloneable(es, p);
    } else {
      assert forall i :: 0 <= i < |init| ==> init[i] == (init + [p])[i];
      PassesGrouped(es, init);
      FoundGroups(es, init, p);
    }
  }
}
