/** The tunnel pool as one pass at a time changes it. */
module TunnelPool {
  import opened Agents

  datatype PoolState = PoolState(conns: Conns, claims: set<string>, next: nat)

  // One establish: refused or failed dials leave no entry, an entry already there
  // stays, and the claim is released however it ends.
  function EstablishStep(ps: PoolState, ai: AgentPod, dialled: bool, dialler: string): PoolState {
    var k := PodKeyOf(ai);
    var upNow := Dialable(ai) && dialled;
    PoolState(if upNow && k !in ps.conns then ps.conns[k := Tunnel(ai, ps.next, dialler)] else ps.conns,
              ps.claims - {k},
              if upNow then ps.next + 1 else ps.next)
  }

  // The dialling half of a pass: dials holds the outcome of each attempt made
  // before the pass's context ended, so it is as long as the queue exactly when
  // the pass ran to its end.
  function RunQueue(ps: PoolState, queue: seq<Todo>, dials: seq<bool>, dialler: string): PoolState
    requires |dials| <= |queue|
    decreases |dials|
  {
    if dials == [] then ps
    else RunQueue(EstablishStep(ps, queue[0].ai, dials[0], dialler), queue[1..], dials[1..], dialler)
  }

  lemma RunQueueNext(ps: PoolState, queue: seq<Todo>, dials: seq<bool>, i: nat, dialler: string)
    requires i < |dials| <= |queue|
    ensures RunQueue(ps, queue[i..], dials[i..], dialler)
         == RunQueue(EstablishStep(ps, queue[i].ai, dials[i], dialler), queue[i + 1..], dials[i + 1..], dialler)
  {
  }

  class AgentPool {
    var conns: Conns
    var latest: Latest
    var establishing: set<string>
    var next: nat

    constructor ()
      ensures conns == map[] && latest == map[] && establishing == {} && next == 0
    {
      conns, latest, establishing, next := map[], map[], {}, 0;
    }

    function State(): PoolState
      reads this
    {
      PoolState(conns, establishing, next)
    }

    method ReplaceNamespace(ns: string, agents: seq<AgentPod>)
      modifies this`latest
      ensures latest == Replaced(old(latest), ns, agents)
    {
      ForgetNamespace(ns);
      var base := latest;
      for i := 0 to |agents|
        invariant latest == base + SnapshotMap(agents[..i])
      {
        assert agents[..i + 1][..i] == agents[..i];
        latest := latest[PodKeyOf(agents[i]) := agents[i]];
      }
      assert agents[..|agents|] == agents;
    }

    // Deletes the entries of one namespace while walking the map.
    method ForgetNamespace(ns: string)
      modifies this`latest
      ensures latest == Agents.Without(old(latest), ns)
    {
      ghost var was := latest;
      var walk := latest.Keys;
      while walk != {}
        invariant walk <= was.Keys
        invariant latest == map k | k in was && (k in walk || was[k].ns != ns) :: was[k]
      {
        var k :| k in walk;
        walk := walk - {k};
        if latest[k].ns == ns {
          latest := latest - {k};
        }
      }
    }

    /** A session ending: its namespace's tunnels and pods go, all others stay. */
    method CloseNamespace(ns: string) returns (closed: seq<AgentConn>)
      modifies this`latest, this`conns
      ensures conns == ConnsWithout(old(conns), ns) && latest == Agents.Without(old(latest), ns)
      ensures forall ac :: ac in closed <==> exists k :: k in old(conns) && old(conns)[k] == ac && ac.ns == ns
    {
      ghost var was := conns;
      var walk := conns.Keys;
      closed := [];
      while walk != {}
        invariant walk <= was.Keys && latest == old(latest)
        invariant conns == map k | k in was && (k in walk || was[k].ns != ns) :: was[k]
        invariant forall ac :: ac in closed <==> exists k :: k in was && k !in walk && was[k] == ac && ac.ns == ns
      {
        var k :| k in walk;
        walk := walk - {k};
        var ac := conns[k];
        if ac.ns == ns {
          closed := closed + [ac];
          conns := conns - {k};
        }
      }
      ForgetNamespace(ns);
    }

    /** The locked half of a pass: what to drop, what to dial again because its
        address changed, what to dial because nothing holds it - and the claims. */
    method Decide(wanted: set<string>) returns (drop: seq<AgentConn>, rebuilt: seq<string>, missing: seq<string>)
      modifies this
      ensures conns == Kept(old(conns), old(latest), wanted) && latest == old(latest) && next == old(next)
      ensures establishing == old(establishing) + (set k | k in rebuilt) + (set k | k in missing)
      ensures Enumerates(rebuilt, Changed(old(conns), latest, wanted))
      ensures Enumerates(missing, Missing(old(conns), latest, wanted, old(establishing)))
      ensures forall ac :: ac in drop <==> exists k :: k in old(conns) && k !in conns && old(conns)[k] == ac
    {
      ghost var was := conns;
      drop, rebuilt := DecideDrops(wanted);
      missing := [];
      var walk := latest.Keys;
      while walk != {}
        invariant walk <= latest.Keys
        invariant Enumerates(missing, Missing(was, latest, wanted, establishing) - walk)
      {
        var k :| k in walk;
        walk := walk - {k};
        if AgentKeyOf(latest[k]) in wanted && k !in conns && k !in establishing {
          missing := missing + [k];
        }
      }
      Claim(rebuilt + missing);
    }

    method DecideDrops(wanted: set<string>) returns (drop: seq<AgentConn>, rebuilt: seq<string>)
      modifies this`conns
      ensures conns == Kept(old(conns), latest, wanted)
      ensures Enumerates(rebuilt, Changed(old(conns), latest, wanted))
      ensures forall ac :: ac in drop <==> exists k :: k in old(conns) && k !in conns && old(conns)[k] == ac
    {
      ghost var was := conns;
      var walk := conns.Keys;
      drop, rebuilt := [], [];
      while walk != {}
        invariant walk <= was.Keys
        invariant conns == map k | k in was && (k in walk || Keep(was, latest, wanted, k)) :: was[k]
        invariant Enumerates(rebuilt, Changed(was, latest, wanted) - walk)
        invariant forall ac :: ac in drop <==> exists k :: k in was && k !in conns && was[k] == ac
      {
        var k :| k in walk;
        walk := walk - {k};
        var ac := conns[k];
        if ac.agentKey !in wanted || k !in latest {
          drop := drop + [ac];
          conns := conns - {k};
        } else if AgentIdentity(latest[k]) != ConnIdentity(ac) {
          drop := drop + [ac];
          conns := conns - {k};
          rebuilt := rebuilt + [k];
        }
      }
    }

    method Claim(ks: seq<string>)
      modifies this`establishing
      ensures establishing == old(establishing) + (set k | k in ks)
    {
      for i := 0 to |ks|
        invariant establishing == old(establishing) + (set k | k in ks[..i])
      {
        establishing := establishing + {ks[i]};
      }
      assert ks[..|ks|] == ks;
    }

    /** Dials one pod. The last look before installing is the branch that should be
        unreachable: another entry is already there. */
    method Establish(ai: AgentPod, dialled: bool, dialler: string)
      modifies this`conns, this`establishing, this`next
      ensures State() == EstablishStep(old(State()), ai, dialled, dialler)
    {
      var podKey := PodKeyOf(ai);
      if AddrFromSlice(ai.ip) != NoAddr && ai.apiPort != 0 && dialled {
        var entry := Tunnel(ai, next, dialler);
        next := next + 1;
        if podKey !in conns {
          conns := conns[podKey := entry];
        }
      }
      establishing := establishing - {podKey};
    }

    /** One pass by one namespace's watcher. dials says how its attempts end; the
        watcher's context is over once they are used up. */
    method Reconcile(wanted: set<string>, dialler: string, dials: seq<bool>)
      returns (drop: seq<AgentConn>, rebuilt: seq<string>, missing: seq<string>)
      modifies this
      ensures latest == old(latest)
      ensures forall ac :: ac in drop <==>
                exists k :: k in old(conns) && k !in Kept(old(conns), latest, wanted) && old(conns)[k] == ac
      ensures Enumerates(rebuilt, Changed(old(conns), latest, wanted))
      ensures Enumerates(missing, Missing(old(conns), latest, wanted, old(establishing)))
      ensures var queue := Todos(rebuilt + missing, latest);
        State() == RunQueue(PoolState(Kept(old(conns), latest, wanted),
                                      old(establishing) + (set k | k in rebuilt + missing), old(next)),
                            queue, if |dials| < |queue| then dials else dials[..|queue|], dialler)
    {
      drop, rebuilt, missing := Decide(wanted);
      var queue := Todos(rebuilt + missing, latest);
      ghost var start := State();
      ghost var used := if |dials| < |queue| then dials else dials[..|queue|];
      assert establishing == old(establishing) + (set k | k in rebuilt + missing);
      var i := 0;
      while i < |queue| && i < |dials|
        invariant 0 <= i <= |used| && latest == old(latest)
        invariant RunQueue(start, queue, used, dialler) == RunQueue(State(), queue[i..], used[i..], dialler)
      {
        RunQueueNext(State(), queue, used, i, dialler);
        Establish(queue[i].ai, dials[i], dialler);
        i := i + 1;
      }
    }
  }
}
