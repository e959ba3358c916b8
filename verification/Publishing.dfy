/** Telling the registry, at the end of every pass, which agent pods carry a tunnel and how
    many there should be - and what that makes of a schedule's health check. */
module Publishing {
  import opened Agents
  import opened TunnelPool
  import opened PassLaws
  import opened Registry
  import opened Handlers
  import opened PostLaws
  import HandlerInvariant
  import OrphanSweep
  import Text

  // These pods' names, each as often as it occurs.
  ghost predicate ListsPods(pods: seq<string>, conns: Conns, ks: set<string>)
    requires ks <= conns.Keys
  {
    |pods| == |ks| && forall n :: n in pods <==> exists k :: k in ks && conns[k].podName == n
  }

  ghost predicate ToldEntry(e: Entry, e': Entry, conns: Conns, latest: Latest) {
    var key := AgentKey(e);
    && e' == e.(agentPods := e'.agentPods, reported := |ReportedPods(latest, key)|)
    && ListsPods(e'.agentPods, conns, LivePods(conns, key)) && Alphabetical(e'.agentPods)
  }

  predicate Alphabetical(names: seq<string>) {
    forall i, j :: 0 <= i < j < |names| ==> !OrphanSweep.Less(names[j], names[i])
  }

  // sort.Strings: each name goes before the first one that has to come after it.
  function SortNames(names: seq<string>): seq<string> {
    if names == [] then [] else InsertName(SortNames(names[..|names| - 1]), names[|names| - 1])
  }

  function InsertName(names: seq<string>, n: string): seq<string> {
    if names == [] || OrphanSweep.Less(n, names[0]) then [n] + names else [names[0]] + InsertName(names[1..], n)
  }

  lemma {:induction false} InsertKeeps(names: seq<string>, n: string)
    ensures multiset(InsertName(names, n)) == multiset(names) + multiset{n}
  {
    if names != [] && !OrphanSweep.Less(n, names[0]) {
      InsertKeeps(names[1..], n);
      assert names == [names[0]] + names[1..];
    }
  }

  lemma {:induction false} InsertSorts(names: seq<string>, n: string)
    requires Alphabetical(names)
    ensures Alphabetical(InsertName(names, n))
  {
    if names == [] || OrphanSweep.Less(n, names[0]) {
      forall j | 0 <= j < |names| ensures !OrphanSweep.Less(names[j], n) {
        OrphanSweep.LessOrders(n, names[0], names[j]);
      }
    } else {
      var rest, out := names[1..], InsertName(names[1..], n);
      InsertSorts(rest, n);
      InsertKeeps(rest, n);
      forall j | 0 <= j < |out| ensures !OrphanSweep.Less(out[j], names[0]) {
        assert out[j] in multiset(out);
      }
    }
  }

  lemma {:induction false} SortNamesIs(names: seq<string>)
    ensures Alphabetical(SortNames(names)) && multiset(SortNames(names)) == multiset(names)
  {
    if names != [] {
      SortNamesIs(names[..|names| - 1]);
      InsertSorts(SortNames(names[..|names| - 1]), names[|names| - 1]);
      InsertKeeps(SortNames(names[..|names| - 1]), names[|names| - 1]);
      assert names == names[..|names| - 1] + [names[|names| - 1]];
    }
  }

  lemma SortedLists(pods: seq<string>, conns: Conns, ks: set<string>)
    requires ks <= conns.Keys && ListsPods(pods, conns, ks)
    ensures ListsPods(SortNames(pods), conns, ks) && Alphabetical(SortNames(pods))
  {
    SortNamesIs(pods);
    assert |SortNames(pods)| == |multiset(SortNames(pods))| == |pods|;
    forall n ensures n in SortNames(pods) <==> n in pods {
      assert n in multiset(SortNames(pods)) <==> n in multiset(pods);
    }
  }

  // Every entry has been told of its workload's tunnels and pods, and nothing else.
  ghost predicate Told(r: Table, r': Table, conns: Conns, latest: Latest) {
    r'.Keys == r.Keys && forall k :: k in r ==> ToldEntry(r[k], r'[k], conns, latest)
  }

  function AgentKeys(r: Table): set<string> { set k | k in r :: AgentKey(r[k]) }

  function PodsOf(live: map<string, seq<string>>, key: string): seq<string> { if key in live then live[key] else [] }

  function CountOf(reported: map<string, nat>, key: string): nat { if key in reported then reported[key] else 0 }

  // What the walk over the tunnels has gathered of one workload, with these to come.
  ghost predicate Gathered(pods: seq<string>, conns: Conns, key: string, rest: set<string>) {
    ListsPods(pods, conns, LivePods(conns, key) - rest)
  }

  lemma GatherOne(pods: seq<string>, conns: Conns, key: string, rest: set<string>, k: string)
    requires Gathered(pods, conns, key, rest) && k in rest && rest <= conns.Keys
    ensures Gathered(if conns[k].agentKey == key then pods + [conns[k].podName] else pods, conns, key, rest - {k})
  {
    var had, now := LivePods(conns, key) - rest, LivePods(conns, key) - (rest - {k});
    assert now == if conns[k].agentKey == key then had + {k} else had;
  }

  // The pods of each workload with a tunnel.
  method GatherLive(conns: Conns) returns (live: map<string, seq<string>>)
    ensures forall key :: ListsPods(PodsOf(live, key), conns, LivePods(conns, key))
  {
    var walk := conns.Keys;
    live := map[];
    while walk != {}
      invariant walk <= conns.Keys && forall key :: Gathered(PodsOf(live, key), conns, key, walk)
    {
      var k :| k in walk;
      ghost var had := live;
      live := live[conns[k].agentKey := PodsOf(live, conns[k].agentKey) + [conns[k].podName]];
      forall key ensures Gathered(PodsOf(live, key), conns, key, walk - {k}) {
        GatherOne(PodsOf(had, key), conns, key, walk, k);
      }
      walk := walk - {k};
    }
    forall key ensures ListsPods(PodsOf(live, key), conns, LivePods(conns, key)) {
      assert Gathered(PodsOf(live, key), conns, key, {}) && LivePods(conns, key) - {} == LivePods(conns, key);
    }
  }

  ghost predicate Counted(n: nat, latest: Latest, key: string, rest: set<string>) {
    n == |ReportedPods(latest, key) - rest|
  }

  lemma CountOne(n: nat, latest: Latest, key: string, rest: set<string>, k: string)
    requires Counted(n, latest, key, rest) && k in rest && rest <= latest.Keys
    ensures Counted(if AgentKeyOf(latest[k]) == key then n + 1 else n, latest, key, rest - {k})
  {
    var had, now := ReportedPods(latest, key) - rest, ReportedPods(latest, key) - (rest - {k});
    assert now == if AgentKeyOf(latest[k]) == key then had + {k} else had;
  }

  lemma CountAll(had: map<string, nat>, now: map<string, nat>, latest: Latest, rest: set<string>, k: string)
    requires (forall key :: Counted(CountOf(had, key), latest, key, rest)) && k in rest && rest <= latest.Keys
    requires now == had[AgentKeyOf(latest[k]) := CountOf(had, AgentKeyOf(latest[k])) + 1]
    ensures forall key :: Counted(CountOf(now, key), latest, key, rest - {k})
  {
    forall key ensures Counted(CountOf(now, key), latest, key, rest - {k}) {
      CountOne(CountOf(had, key), latest, key, rest, k);
    }
  }

  // How many pods the manager reports of each workload.
  method CountReported(latest: Latest) returns (reported: map<string, nat>)
    ensures forall key :: CountOf(reported, key) == |ReportedPods(latest, key)|
  {
    var walk := latest.Keys;
    reported := map[];
    while walk != {}
      invariant walk <= latest.Keys && forall key :: Counted(CountOf(reported, key), latest, key, walk)
    {
      var k :| k in walk;
      ghost var had := reported;
      reported := reported[AgentKeyOf(latest[k]) := CountOf(reported, AgentKeyOf(latest[k])) + 1];
      CountAll(had, reported, latest, walk, k);
      walk := walk - {k};
    }
    AllCounted(reported, latest);
  }

  lemma AllCounted(reported: map<string, nat>, latest: Latest)
    requires forall key :: Counted(CountOf(reported, key), latest, key, {})
    ensures forall key :: CountOf(reported, key) == |ReportedPods(latest, key)|
  {
    forall key ensures CountOf(reported, key) == |ReportedPods(latest, key)| {
      assert ReportedPods(latest, key) - {} == ReportedPods(latest, key);
    }
  }

  // The table with these workloads told.
  function Telling(r: Table, live: map<string, seq<string>>, reported: map<string, nat>, keys: set<string>): Table {
    map k | k in r :: TellingEntry(r[k], live, reported, keys)
  }

  function TellingEntry(e: Entry, live: map<string, seq<string>>, reported: map<string, nat>,
                        keys: set<string>): Entry {
    var key := AgentKey(e);
    if key in keys then e.(agentPods := SortNames(PodsOf(live, key)), reported := CountOf(reported, key)) else e
  }

  lemma TellingNext(r: Table, live: map<string, seq<string>>, reported: map<string, nat>, keys: set<string>,
                    key: string)
    requires key !in keys
    ensures Tunnelled(Telling(r, live, reported, keys), key, SortNames(PodsOf(live, key)), CountOf(reported, key))
         == Telling(r, live, reported, keys + {key})
  {
  }

  method WorkloadList(reg: Registry) returns (keys: set<string>)
    requires reg.Valid()
    ensures keys == AgentKeys(reg.Contents())
  {
    keys := reg.AgentKeyList();
    ghost var r := reg.Contents();
    assert r.Keys == reg.byKey.Keys && forall k | k in r :: r[k] == reg.byKey[k].Value();
  }

  method TellOne(reg: Registry, key: string, live: map<string, seq<string>>, reported: map<string, nat>,
                 ghost was: Table, ghost told: set<string>)
    requires reg.Valid() && reg.Contents() == Telling(was, live, reported, told) && key !in told
    modifies reg.byKey.Values`agentPods, reg.byKey.Values`reported
    ensures reg.Contents() == Telling(was, live, reported, told + {key})
  {
    TellingNext(was, live, reported, told, key);
    reg.SetAgentPods(key, SortNames(PodsOf(live, key)), CountOf(reported, key));
  }

  method Tell(reg: Registry, live: map<string, seq<string>>, reported: map<string, nat>)
    requires reg.Valid()
    modifies reg.byKey.Values`agentPods, reg.byKey.Values`reported
    ensures reg.Contents() == Telling(old(reg.Contents()), live, reported, AgentKeys(old(reg.Contents())))
  {
    ghost var was, told := reg.Contents(), {};
    var rest := WorkloadList(reg);
    assert was == Telling(was, live, reported, {});
    while rest != {}
      invariant AgentKeys(was) == told + rest && told !! rest
      invariant reg.Contents() == Telling(was, live, reported, told)
    {
      var key :| key in rest;
      TellOne(reg, key, live, reported, was, told);
      rest, told := rest - {key}, told + {key};
    }
  }

  /** Tells every workload the registry knows of. */
  method Publish(pool: AgentPool, reg: Registry)
    requires reg.Valid()
    modifies reg.byKey.Values`agentPods, reg.byKey.Values`reported
    ensures Told(old(reg.Contents()), reg.Contents(), pool.conns, pool.latest)
  {
    var live, reported := Gather(pool.conns, pool.latest, reg.Contents());
    Tell(reg, live, reported);
  }

  // What there is to tell, whatever table it is told to.
  method Gather(conns: Conns, latest: Latest, ghost r: Table)
    returns (live: map<string, seq<string>>, reported: map<string, nat>)
    ensures Told(r, Telling(r, live, reported, AgentKeys(r)), conns, latest)
  {
    live := GatherLive(conns);
    reported := CountReported(latest);
    AllTold(r, conns, latest, live, reported);
  }

  lemma AllTold(r: Table, conns: Conns, latest: Latest, live: map<string, seq<string>>, reported: map<string, nat>)
    requires forall key :: ListsPods(PodsOf(live, key), conns, LivePods(conns, key))
    requires forall key :: CountOf(reported, key) == |ReportedPods(latest, key)|
    ensures Told(r, Telling(r, live, reported, AgentKeys(r)), conns, latest)
  {
    var r' := Telling(r, live, reported, AgentKeys(r));
    forall k | k in r ensures ToldEntry(r[k], r'[k], conns, latest) {
      assert AgentKey(r[k]) in AgentKeys(r);
      SortedLists(PodsOf(live, AgentKey(r[k])), conns, LivePods(conns, AgentKey(r[k])));
    }
  }

  // --- pods and previews, by their own fields --------------------------------------------------

  // A pod of the workload and the namespace that this entry previews.
  predicate PodOf(ai: AgentPod, e: Entry) { ai.workload == e.workload && ai.ns == e.ns }

  function PodsFor(latest: Latest, e: Entry): set<string> { set k | k in latest && PodOf(latest[k], e) }

  /** The key the pool knows a pod's workload by is the one the registry knows an entry's
      by, exactly if the pod is of the entry's workload and namespace. */
  lemma KeysMatch(ai: AgentPod, e: Entry)
    requires '.' !in ai.ns && '.' !in e.ns
    ensures AgentKeyOf(ai) == AgentKey(e) <==> PodOf(ai, e)
  {
    if AgentKeyOf(ai) == AgentKey(e) {
      Text.LastDot(ai.workload, ai.ns, e.workload, e.ns);
    }
  }

  lemma PodsByKey(latest: Latest, e: Entry)
    requires Keyed(latest) && '.' !in e.ns
    ensures ReportedPods(latest, AgentKey(e)) == PodsFor(latest, e)
  {
    forall k | k in latest ensures AgentKeyOf(latest[k]) == AgentKey(e) <==> PodOf(latest[k], e) {
      KeysMatch(latest[k], e);
    }
  }

  predicate Reachable(latest: Latest) {
    forall k :: k in latest ==> (|latest[k].ip| == 4 || |latest[k].ip| == 16) && latest[k].apiPort != 0
  }

  /** A full pass over what the registry wants, whose dials work, leaves tunnels to exactly
      the reported pods of some entry's workload and namespace, each to the pod of that
      name at the address and port reported. */
  lemma PassServes(conns: Conns, latest: Latest, next: nat, rebuilt: seq<string>, missing: seq<string>,
                   dialler: string, r: Table)
    requires Keyed(latest) && DotFree(r) && Decided(conns, latest, AgentKeys(r), {}, rebuilt, missing)
    requires Reachable(latest) && SameWorkload(conns, latest)
    ensures var c := FullPass(conns, latest, AgentKeys(r), {}, next, rebuilt + missing, dialler).conns;
      && (forall p :: p in c <==> p in latest && exists k :: k in r && PodOf(latest[p], r[k]))
      && (forall p :: p in c ==> c[p].podName == latest[p].podName && c[p].podIP == Addr(latest[p].ip)
                                 && c[p].apiPort == latest[p].apiPort)
  {
    PassCompletes(conns, latest, AgentKeys(r), next, rebuilt, missing, dialler);
    forall p, k | p in latest && k in r ensures AgentKeyOf(latest[p]) == AgentKey(r[k]) <==> PodOf(latest[p], r[k]) {
      KeysMatch(latest[p], r[k]);
    }
  }

  /** And its telling tells each entry of exactly those pods, by name, and of their number. */
  lemma PassTells(conns: Conns, latest: Latest, next: nat, rebuilt: seq<string>, missing: seq<string>,
                  dialler: string, r: Table, r': Table, k: ServiceKey)
    requires Keyed(latest) && DotFree(r) && Decided(conns, latest, AgentKeys(r), {}, rebuilt, missing)
    requires Reachable(latest) && SameWorkload(conns, latest) && k in r
    requires Told(r, r', FullPass(conns, latest, AgentKeys(r), {}, next, rebuilt + missing, dialler).conns, latest)
    ensures var pods := PodsFor(latest, r[k]);
      && r'[k].reported == |r'[k].agentPods| == |pods|
      && (forall i, j :: 0 <= i < j < |pods| ==> !OrphanSweep.Less(r'[k].agentPods[j], r'[k].agentPods[i]))
      && (forall n :: n in r'[k].agentPods <==> exists p :: p in pods && latest[p].podName == n)
      && r'[k] == r[k].(agentPods := r'[k].agentPods, reported := r'[k].reported)
  {
    var c := FullPass(conns, latest, AgentKeys(r), {}, next, rebuilt + missing, dialler).conns;
    PassServes(conns, latest, next, rebuilt, missing, dialler, r);
    PassLeavesNoShortfall(conns, latest, AgentKeys(r), next, rebuilt, missing, dialler, AgentKey(r[k]));
    PodsByKey(latest, r[k]);
    assert ToldEntry(r[k], r'[k], c, latest);
  }

  /** After a full pass over what the registry wants, whose dials work, and its telling,
      no schedule's check can alarm on tunnels: if the manager calls an intercept active
      and any pod of its workload is reported, it is up, however late. */
  lemma PassThenCheck(conns: Conns, latest: Latest, next: nat, rebuilt: seq<string>, missing: seq<string>,
                      dialler: string, r: Table, r': Table, sc: Scheduled, st: IState, w: TickWorld, now: int)
    requires Keyed(latest) && DotFree(r) && Decided(conns, latest, AgentKeys(r), {}, rebuilt, missing)
    requires Reachable(latest) && SameWorkload(conns, latest) && HandlerInvariant.Keyed(r)
    requires Told(r, r', FullPass(conns, latest, AgentKeys(r), {}, next, rebuilt + missing, dialler).conns, latest)
    requires ScheduleKey(sc) in r && r[ScheduleKey(sc)].raisedAt == st.raisedAt
    requires w.session && w.answer.Got? && w.answer.disposition.Active?
    ensures var p := r[ScheduleKey(sc)];
      CheckedWindow(r', st, sc, w, now).1.up <==> InGrace(p, now) || PodsFor(latest, p) != {}
  {
    var k := ScheduleKey(sc);
    PassTells(conns, latest, next, rebuilt, missing, dialler, r, r', k);
    forall j | j in r' ensures KeyOf(r'[j]) == j {
      PassTells(conns, latest, next, rebuilt, missing, dialler, r, r', j);
    }
    CheckMeans(r', st, sc, w, now);
  }
}
