/** The end of `getaddrinfo`: the addresses found go into the list one by one, and the service
    goes over the list. What the caller gets is stated entry by entry. */
module AddrLookup {
  import opened Basics
  import opened AddrInfo

  type Internet = f: Family | !f.Local? witness Inet

  /** An Internet address that the host name or the text stands for. */
  datatype Host = Host(family: Internet, addr: seq<Octet>)

  // ---- a pass over entries with a socket type of their own

  /** Without AI_CLONE a pass changes the port of the Internet entries of its type and nothing else,
      and finds something exactly if there is one. */
  lemma {:induction false} PassPlain(es: seq<Entry>, p: Pass)
    requires forall i :: 0 <= i < |es| ==> !es[i].clone
    ensures |PassAll(es, p)| == |es| && Clones(es) == 0
    ensures forall i {:trigger es[i]} :: 0 <= i < |es| ==>
              PassAll(es, p)[i] == if es[i].socktype == p.socktype && !es[i].family.Local?
                                   then es[i].(port := p.port) else es[i]
    ensures Found(es, p) > 0 <==> exists i :: 0 <= i < |es| && es[i].socktype == p.socktype && !es[i].family.Local?
  {
    if es != [] {
      var init, e := es[..|es| - 1], es[|es| - 1];
      PassPlain(init, p);
      assert PassAll(es, p) == PassAll(init, p) + PassOne(e, p);
      forall i {:trigger es[i]} | 0 <= i < |es|
        ensures PassAll(es, p)[i] == if es[i].socktype == p.socktype && !es[i].family.Local?
                                     then es[i].(port := p.port) else es[i]
      {
        if i < |init| {
          assert init[i] == es[i];
        }
      }
      FoundLast(es, p);
    }
  }

  lemma {:induction false} FoundLast(es: seq<Entry>, p: Pass)
    requires es != [] && !es[|es| - 1].clone
    requires var init := es[..|es| - 1];
             Found(init, p) > 0 <==>
               exists i :: 0 <= i < |init| && init[i].socktype == p.socktype && !init[i].family.Local?
    ensures Found(es, p) > 0 <==> exists i :: 0 <= i < |es| && es[i].socktype == p.socktype && !es[i].family.Local?
  {
    var init, last := es[..|es| - 1], |es| - 1;
    if Found(init, p) > 0 {
      var i :| 0 <= i < |init| && init[i].socktype == p.socktype && !init[i].family.Local?;
      assert es[i] == init[i];
    } else if Counted(es[last], p) {
      assert es[last].socktype == p.socktype && !es[last].family.Local?;
    } else {
      assert forall i :: 0 <= i < |init| ==> init[i] == es[i];
    }
  }

  // ---- which passes there are

  /** With a number one pass of the caller's type, or one of each type; with a name one for each
      protocol that has the service and that the caller wants, TCP first. */
  lemma {:induction false} PassesForMeans(hint: nat, serv: ServiceText)
    ensures serv.Number? && hint != 0 ==> PassesFor(hint, serv) == [Pass(hint, serv.port)]
    ensures serv.Number? && hint == 0 ==> PassesFor(hint, serv) == [Pass(1, serv.port), Pass(2, serv.port)]
    ensures serv.Name? ==>
              var tcp := if serv.tcp.Some? && hint in {0, 1} then [Pass(1, serv.tcp.value)] else [];
              var udp := if serv.udp.Some? && hint in {0, 2} then [Pass(2, serv.udp.value)] else [];
              PassesFor(hint, serv) == tcp + udp
    ensures DistinctTypes(PassesFor(hint, serv)) && |PassesFor(hint, serv)| <= if hint == 0 then 2 else 1
    ensures hint != 0 ==> forall p :: p in PassesFor(hint, serv) ==> p.socktype == hint
  {
  }

  // ---- the whole lookup

  /** The list as `ga_aistruct` builds it. */
  function Listed(hint: nat, protocol: int, hosts: seq<Host>): seq<Entry> {
    seq(|hosts|, i requires 0 <= i < |hosts| => Entry(hint == 0, hosts[i].family, hint, protocol, hosts[i].addr, 0))
  }

  /** The list the caller should get: for each address in order one entry per pass, with the type and
      the port of the pass. */
  function Resolved(hint: nat, protocol: int, hosts: seq<Host>, ps: seq<Pass>): seq<Entry>
    requires 1 <= |ps| <= 2
  {
    seq(|ps| * |hosts|, k requires 0 <= k < |ps| * |hosts| =>
      var h, j := if |ps| == 1 then k else k / 2, if |ps| == 1 then 0 else k % 2;
      Entry(hint == 0 && j == 0, hosts[h].family, ps[j].socktype, protocol, hosts[h].addr, ps[j].port))
  }

  lemma {:induction false} ListedSnoc(hint: nat, protocol: int, hosts: seq<Host>, k: nat)
    requires k < |hosts|
    ensures Listed(hint, protocol, hosts[..k + 1])
         == Listed(hint, protocol, hosts[..k])
            + [Entry(hint == 0, hosts[k].family, hint, protocol, hosts[k].addr, 0)]
  {
  }

  /** Where an address's group stands among the groups. */
  lemma {:induction false} GroupsAt(es: seq<Entry>, ps: seq<Pass>, h: nat, j: nat)
    requires 1 <= |ps| <= 2 && h < |es| && j < |ps|
    ensures |ps| * h + j < |ps| * |es| && Groups(es, ps)[|ps| * h + j] == Group(es[h], ps)[j]
  {
    hide Group;
    if h < |es| - 1 {
      GroupsAt(es[..|es| - 1], ps, h, j);
    }
  }

  lemma {:induction false} ResolvedFree(protocol: int, hosts: seq<Host>, ps: seq<Pass>)
    requires 1 <= |ps| <= 2 && DistinctTypes(ps)
    ensures Passes(Listed(0, protocol, hosts), ps) == Resolved(0, protocol, hosts, ps)
  {
    hide Passes, Groups, Group, DistinctTypes;
    var es, want := Listed(0, protocol, hosts), Resolved(0, protocol, hosts, ps);
    PassesGrouped(es, ps);
    forall k | 0 <= k < |ps| * |hosts| ensures Groups(es, ps)[k] == want[k] {
      ResolvedAt(protocol, hosts, ps, k);
    }
    assert Groups(es, ps) == want;
  }

  lemma {:induction false} ResolvedAt(protocol: int, hosts: seq<Host>, ps: seq<Pass>, k: nat)
    requires 1 <= |ps| <= 2 && k < |ps| * |hosts|
    ensures Groups(Listed(0, protocol, hosts), ps)[k] == Resolved(0, protocol, hosts, ps)[k]
  {
    hide Groups, Group;
    var es := Listed(0, protocol, hosts);
    var h, j := if |ps| == 1 then k else k / 2, if |ps| == 1 then 0 else k % 2;
    GroupsAt(es, ps, h, j);
    GroupEntries(es[h], ps, j);
  }

  lemma {:induction false} OnePassOnly(es: seq<Entry>, p: Pass)
    ensures Passes(es, [p]) == PassAll(es, p)
    ensures TotalFound(es, [p]) == Found(es, p) && TotalClones(es, [p]) == Clones(es)
  {
    TotalsSnoc(es, [], p);
  }

  lemma {:induction false} ResolvedHinted(hint: nat, protocol: int, hosts: seq<Host>, p: Pass)
    requires hint != 0 && p.socktype == hint
    ensures Passes(Listed(hint, protocol, hosts), [p]) == Resolved(hint, protocol, hosts, [p])
    ensures TotalClones(Listed(hint, protocol, hosts), [p]) == 0
    ensures TotalFound(Listed(hint, protocol, hosts), [p]) > 0 <==> hosts != []
  {
    var es := Listed(hint, protocol, hosts);
    OnePassOnly(es, p);
    PassPlain(es, p);
    hide Passes, PassAll, TotalFound, TotalClones, Found, Clones;
    assert hosts != [] ==> es[0].socktype == p.socktype;
    forall k | 0 <= k < |hosts| ensures PassAll(es, p)[k] == Resolved(hint, protocol, hosts, [p])[k] {
      assert es[k].socktype == hint;
    }
  }

  lemma {:induction false} NoClones(es: seq<Entry>)
    requires forall i :: 0 <= i < |es| ==> es[i].socktype == 0
    ensures Clones(es) == 0
  {
    if es != [] {
      NoClones(es[..|es| - 1]);
    }
  }

  lemma {:induction false} AllClones(es: seq<Entry>)
    requires forall i :: 0 <= i < |es| ==> es[i].clone && es[i].socktype != 0
    ensures Clones(es) == |es|
  {
    if es != [] {
      AllClones(es[..|es| - 1]);
    }
  }

  /** The clones that are made: one for each address for the second type, if there are two. */
  lemma {:induction false} ClonesFree(protocol: int, hosts: seq<Host>, ps: seq<Pass>)
    requires 1 <= |ps| <= 2 && DistinctTypes(ps)
    ensures TotalClones(Listed(0, protocol, hosts), ps) == if |ps| == 2 then |hosts| else 0
  {
    var es := Listed(0, protocol, hosts);
    NoClones(es);
    var first := ps[..1];
    assert first == [ps[0]];
    OnePassOnly(es, ps[0]);
    if |ps| == 2 {
      assert ps == first + [ps[1]];
      ResolvedFree(protocol, hosts, first);
      TotalsSnoc(es, first, ps[1]);
      hide Passes, TotalClones, Clones;
      AllClones(Passes(es, first));
    }
  }

  lemma {:induction false} FoundFree(protocol: int, hosts: seq<Host>, ps: seq<Pass>)
    requires ps != [] && DistinctTypes(ps)
    ensures TotalFound(Listed(0, protocol, hosts), ps) > 0 <==> hosts != []
  {
    hide TotalFound;
    FoundEverywhere(Listed(0, protocol, hosts), ps);
  }

  lemma {:induction false} NoPasses(es: seq<Entry>)
    ensures TotalFound(es, []) == TotalClones(es, []) == 0
  {
  }

  /** What the passes make of the list and find in it. */
  lemma {:induction false} ServiceMeans(hint: nat, protocol: int, hosts: seq<Host>, serv: ServiceText)
    ensures var es, ps := Listed(hint, protocol, hosts), PassesFor(hint, serv);
            && (ps == [] ==> TotalFound(es, ps) == TotalClones(es, ps) == 0)
            && (ps != [] ==>
                 && |ps| <= 2 && Passes(es, ps) == Resolved(hint, protocol, hosts, ps)
                 && TotalClones(es, ps) == (if |ps| == 2 then |hosts| else 0)
                 && (TotalFound(es, ps) > 0 <==> hosts != []))
  {
    hide PassesFor, Passes, TotalClones, TotalFound, Resolved, Listed, DistinctTypes;
    var es, ps := Listed(hint, protocol, hosts), PassesFor(hint, serv);
    PassesForMeans(hint, serv);
    if ps == [] {
      NoPasses(es);
    } else if hint != 0 {
      assert ps == [ps[0]] && ps[0] in ps;
      ResolvedHinted(hint, protocol, hosts, ps[0]);
    } else {
      ResolvedFree(protocol, hosts, ps);
      ClonesFree(protocol, hosts, ps);
      FoundFree(protocol, hosts, ps);
    }
  }

  /** `getaddrinfo` once the addresses are known, with `serv` if a service was given. */
  method Lookup(hint: nat, protocol: int, hosts: seq<Host>, serv: Option<ServiceText>, mem: nat)
    returns (list: AddrList, rc: Code)
    ensures var ps := if serv.Some? then PassesFor(hint, serv.value) else [];
            rc == if mem < 2 * |hosts| then Memory
                  else if hosts == [] then NoName
                  else if serv == None then Ok
                  else if |ps| == 2 && mem < 4 * |hosts| then Memory
                  else if ps != [] then Ok
                  else if hint == 0 then NoName else Service
    ensures rc.Ok? && serv == None ==> list.Holds(Listed(hint, protocol, hosts))
    ensures rc.Ok? && serv.Some? ==>
              var ps := PassesFor(hint, serv.value);
              1 <= |ps| <= 2 && list.Holds(Resolved(hint, protocol, hosts, ps))
  {
    hide PassesFor, Passes, TotalFound, TotalClones, Resolved;
    list := new AddrList(mem);
    ghost var es := [];
    for k := 0 to |hosts|
      invariant fresh(list) && fresh(list.repr) && list.AtEnd() && list.mem == mem - 2 * k
      invariant es == Listed(hint, protocol, hosts[..k]) && list.Holds(es)
    {
      ListedSnoc(hint, protocol, hosts, k);
      var e := list.GaAistruct(hint, protocol, hosts[k].family, hosts[k].addr, 0, es);
      if !e.Ok? {
        return list, e;
      }
      es := Listed(hint, protocol, hosts[..k + 1]);
    }
    assert hosts[..|hosts|] == hosts;
    if list.head == null {
      return list, NoName;
    }
    if serv == None {
      return list, Ok;
    }
    ServiceMeans(hint, protocol, hosts, serv.value);
    rc := list.GaServ(hint, serv.value, es);
  }
}
