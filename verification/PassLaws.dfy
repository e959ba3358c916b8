/** What a reconcile pass achieves, what it may leave behind, and when it dials a
    pod that already has a tunnel. */
module PassLaws {
  import opened Agents
  import opened TunnelPool

  // A queue built from the picture: every entry under its own key.
  predicate QueueKeyed(queue: seq<Todo>) {
    forall i :: 0 <= i < |queue| ==> queue[i].podKey == PodKeyOf(queue[i].ai)
  }

  // --- the dialling half, for any outcomes and any cancellation -------------------------

  /** Every tunnel that was there is still the same object, every new one was dialled
      in this pass for that pod, and every dial that could succeed left a tunnel. */
  lemma {:induction false} RunQueueConns(ps: PoolState, queue: seq<Todo>, dials: seq<bool>, dialler: string)
    requires |dials| <= |queue| && QueueKeyed(queue)
    ensures var r := RunQueue(ps, queue, dials, dialler);
      && ps.next <= r.next
      && (forall k :: k in ps.conns ==> k in r.conns && r.conns[k] == ps.conns[k])
      && (forall k :: k in r.conns && k !in ps.conns ==>
            exists i :: 0 <= i < |dials| && queue[i].podKey == k
                        && r.conns[k] == Tunnel(queue[i].ai, r.conns[k].serial, dialler)
                        && ps.next <= r.conns[k].serial)
      && (forall i :: 0 <= i < |dials| && dials[i] && Dialable(queue[i].ai) ==> queue[i].podKey in r.conns)
    decreases |dials|
  {
    if dials != [] {
      var ps1 := EstablishStep(ps, queue[0].ai, dials[0], dialler);
      var q1, d1 := queue[1..], dials[1..];
      RunQueueConns(ps1, q1, d1, dialler);
      var r := RunQueue(ps1, q1, d1, dialler);
      forall k | k in r.conns && k !in ps.conns
        ensures exists i :: 0 <= i < |dials| && queue[i].podKey == k
                            && r.conns[k] == Tunnel(queue[i].ai, r.conns[k].serial, dialler)
                            && ps.next <= r.conns[k].serial
      {
        if k in ps1.conns {
          assert queue[0].podKey == k;
        } else {
          var i :| 0 <= i < |d1| && q1[i].podKey == k && r.conns[k] == Tunnel(q1[i].ai, r.conns[k].serial, dialler);
          assert queue[i + 1] == q1[i];
        }
      }
      forall i | 0 <= i < |dials| && dials[i] && Dialable(queue[i].ai)
        ensures queue[i].podKey in r.conns
      {
        if i > 0 {
          assert q1[i - 1] == queue[i] && d1[i - 1] == dials[i];
        }
      }
    }
  }

  /** The claims afterwards: those of the keys that were attempted are released,
      and those of the rest of the queue are not. */
  lemma {:induction false} RunQueueClaims(ps: PoolState, queue: seq<Todo>, dials: seq<bool>, dialler: string)
    requires |dials| <= |queue| && QueueKeyed(queue)
    ensures RunQueue(ps, queue, dials, dialler).claims == ps.claims - KeysOf(queue[..|dials|])
    decreases |dials|
  {
    if dials != [] {
      RunQueueClaims(EstablishStep(ps, queue[0].ai, dials[0], dialler), queue[1..], dials[1..], dialler);
      assert queue[..|dials|] == [queue[0]] + queue[1..][..|dials| - 1];
    }
  }

  // --- a pass that runs to its end and whose dials all succeed ---------------------------

  function Trues(n: nat): seq<bool> { seq(n, i => true) }

  // The state after the locked half, with this pass's claims taken.
  function Started(conns: Conns, latest: Latest, wanted: set<string>, claims: set<string>, next: nat,
                   ks: seq<string>): PoolState {
    PoolState(Kept(conns, latest, wanted), claims + (set k | k in ks), next)
  }

  ghost predicate Decided(conns: Conns, latest: Latest, wanted: set<string>, claims: set<string>,
                          rebuilt: seq<string>, missing: seq<string>) {
    Enumerates(rebuilt, Changed(conns, latest, wanted)) && Enumerates(missing, Missing(conns, latest, wanted, claims))
  }

  function FullPass(conns: Conns, latest: Latest, wanted: set<string>, claims: set<string>, next: nat,
                    ks: seq<string>, dialler: string): PoolState
    requires forall k :: k in ks ==> k in latest
  {
    RunQueue(Started(conns, latest, wanted, claims, next, ks), Todos(ks, latest), Trues(|ks|), dialler)
  }

  // A pod's workload never changes under its key.
  predicate SameWorkload(conns: Conns, latest: Latest) {
    forall k :: k in conns && k in latest ==> conns[k].agentKey == AgentKeyOf(latest[k])
  }

  function Target(latest: Latest, wanted: set<string>): set<string> {
    set k | k in latest && AgentKeyOf(latest[k]) in wanted
  }

  predicate AllDialable(latest: Latest, ks: seq<string>) {
    forall k :: k in ks && k in latest ==> Dialable(latest[k])
  }

  lemma FullPassClaims(conns: Conns, latest: Latest, wanted: set<string>, claims: set<string>, next: nat,
                       ks: seq<string>, dialler: string)
    requires Keyed(latest) && forall k :: k in ks ==> k in latest
    ensures FullPass(conns, latest, wanted, claims, next, ks, dialler).claims == claims - (set k | k in ks)
  {
    var queue := Todos(ks, latest);
    RunQueueClaims(Started(conns, latest, wanted, claims, next, ks), queue, Trues(|ks|), dialler);
    assert queue[..|ks|] == queue;
    assert forall i :: 0 <= i < |ks| ==> queue[i] in queue && queue[i].podKey == ks[i];
    assert KeysOf(queue) == set k | k in ks;
  }

  lemma FullPassConns(conns: Conns, latest: Latest, wanted: set<string>, claims: set<string>, next: nat,
                      ks: seq<string>, dialler: string)
    requires Keyed(latest) && (forall k :: k in ks ==> k in latest) && AllDialable(latest, ks)
    ensures var r := FullPass(conns, latest, wanted, claims, next, ks, dialler);
      && r.conns.Keys == Kept(conns, latest, wanted).Keys + (set k | k in ks)
      && (forall k :: k in Kept(conns, latest, wanted) ==> r.conns[k] == conns[k])
      && (forall k :: k in ks && k !in Kept(conns, latest, wanted) ==>
            r.conns[k] == Tunnel(latest[k], r.conns[k].serial, dialler))
  {
    var ps := Started(conns, latest, wanted, claims, next, ks);
    var queue := Todos(ks, latest);
    RunQueueConns(ps, queue, Trues(|ks|), dialler);
    var r := FullPass(conns, latest, wanted, claims, next, ks, dialler);
    forall k | k in ks ensures k in r.conns {
      var i :| 0 <= i < |ks| && ks[i] == k;
      assert queue[i] == Todo(k, latest[k]) && Trues(|ks|)[i];
    }
  }

  lemma FullPassShape(conns: Conns, latest: Latest, wanted: set<string>, claims: set<string>, next: nat,
                      rebuilt: seq<string>, missing: seq<string>, dialler: string)
    requires Keyed(latest) && Decided(conns, latest, wanted, claims, rebuilt, missing)
    requires AllDialable(latest, rebuilt + missing)
    ensures var ks := rebuilt + missing;
      var r := FullPass(conns, latest, wanted, claims, next, ks, dialler);
      && r.claims == claims - (set k | k in ks)
      && r.conns.Keys == Kept(conns, latest, wanted).Keys + (set k | k in ks)
      && (forall k :: k in Kept(conns, latest, wanted) ==> r.conns[k] == conns[k])
      && (forall k :: k in ks && k !in Kept(conns, latest, wanted) ==>
            r.conns[k] == Tunnel(latest[k], r.conns[k].serial, dialler))
  {
    FullPassClaims(conns, latest, wanted, claims, next, rebuilt + missing, dialler);
    FullPassConns(conns, latest, wanted, claims, next, rebuilt + missing, dialler);
  }

  /** From no claims, a pass that runs to its end and whose dials all succeed ends
      with tunnels for exactly the reported pods of wanted workloads, at their
      reported identities, the correct ones being the same objects as before, and
      with no claims left. */
  lemma PassCompletes(conns: Conns, latest: Latest, wanted: set<string>, next: nat,
                      rebuilt: seq<string>, missing: seq<string>, dialler: string)
    requires Keyed(latest) && Decided(conns, latest, wanted, {}, rebuilt, missing)
    requires AllDialable(latest, rebuilt + missing) && SameWorkload(conns, latest)
    ensures var r := FullPass(conns, latest, wanted, {}, next, rebuilt + missing, dialler);
      && r.claims == {}
      && r.conns.Keys == Target(latest, wanted)
      && (forall k :: k in r.conns ==> ConnIdentity(r.conns[k]) == AgentIdentity(latest[k])
                                       && r.conns[k].agentKey == AgentKeyOf(latest[k]))
      && (forall k :: k in r.conns && k in conns && ConnIdentity(conns[k]) == AgentIdentity(latest[k]) ==>
            r.conns[k] == conns[k])
  {
    FullPassShape(conns, latest, wanted, {}, next, rebuilt, missing, dialler);
    var kept := Kept(conns, latest, wanted);
    var ks := rebuilt + missing;
    assert forall k :: k in ks <==> k in Changed(conns, latest, wanted) || k in Missing(conns, latest, wanted, {});
    assert forall k :: k in Changed(conns, latest, wanted) ==> k !in kept;
  }

  /** The order in which the maps were walked does not matter: two passes over the
      same state end with the same tunnels, up to which object each new one is. */
  lemma PassOrderFree(conns: Conns, latest: Latest, wanted: set<string>, claims: set<string>, next: nat,
                      rebuilt: seq<string>, missing: seq<string>,
                      rebuilt': seq<string>, missing': seq<string>, dialler: string)
    requires Keyed(latest) && Decided(conns, latest, wanted, claims, rebuilt, missing)
    requires Decided(conns, latest, wanted, claims, rebuilt', missing')
    requires AllDialable(latest, rebuilt + missing)
    ensures var r := FullPass(conns, latest, wanted, claims, next, rebuilt + missing, dialler);
      var r' := FullPass(conns, latest, wanted, claims, next, rebuilt' + missing', dialler);
      && r'.claims == r.claims && r'.conns.Keys == r.conns.Keys
      && (forall k :: k in r.conns ==> r'.conns[k] == r.conns[k].(serial := r'.conns[k].serial))
      && (forall k :: k in r.conns && k in Kept(conns, latest, wanted) ==> r'.conns[k] == r.conns[k])
  {
    assert forall k :: k in rebuilt + missing <==> k in rebuilt' + missing';
    FullPassShape(conns, latest, wanted, claims, next, rebuilt, missing, dialler);
    FullPassShape(conns, latest, wanted, claims, next, rebuilt', missing', dialler);
  }

  /** A second pass over the same picture changes nothing: it drops no tunnel and
      has nothing to dial. */
  lemma SecondPassIdle(conns: Conns, latest: Latest, wanted: set<string>, next: nat,
                       rebuilt: seq<string>, missing: seq<string>, dialler: string)
    requires Keyed(latest) && Decided(conns, latest, wanted, {}, rebuilt, missing)
    requires AllDialable(latest, rebuilt + missing) && SameWorkload(conns, latest)
    ensures var r := FullPass(conns, latest, wanted, {}, next, rebuilt + missing, dialler);
      && Kept(r.conns, latest, wanted) == r.conns
      && Changed(r.conns, latest, wanted) == {}
      && Missing(r.conns, latest, wanted, r.claims) == {}
  {
    PassCompletes(conns, latest, wanted, next, rebuilt, missing, dialler);
    var r := FullPass(conns, latest, wanted, {}, next, rebuilt + missing, dialler);
    assert forall k :: k in r.conns ==> Keep(r.conns, latest, wanted, k);
    assert Kept(r.conns, latest, wanted) == r.conns;
  }

  // What publish reports of one workload: who holds a tunnel, and who was reported.
  function LivePods(conns: Conns, agentKey: string): set<string> {
    set k | k in conns && conns[k].agentKey == agentKey
  }

  function ReportedPods(latest: Latest, agentKey: string): set<string> {
    set k | k in latest && AgentKeyOf(latest[k]) == agentKey
  }

  /** After such a pass every wanted workload has a tunnel for each pod the manager
      reported for it: the shortfall a schedule alarms on is gone. */
  lemma PassLeavesNoShortfall(conns: Conns, latest: Latest, wanted: set<string>, next: nat,
                              rebuilt: seq<string>, missing: seq<string>, dialler: string, agentKey: string)
    requires Keyed(latest) && Decided(conns, latest, wanted, {}, rebuilt, missing)
    requires AllDialable(latest, rebuilt + missing) && SameWorkload(conns, latest) && agentKey in wanted
    ensures var r := FullPass(conns, latest, wanted, {}, next, rebuilt + missing, dialler);
      LivePods(r.conns, agentKey) == ReportedPods(latest, agentKey)
  {
    PassCompletes(conns, latest, wanted, next, rebuilt, missing, dialler);
  }

  // --- whose context a tunnel lives under ----------------------------------------------------

  // A namespace's session ending: its own tunnels are closed, and every dial loop
  // running under its watcher's context ends and takes its entry out.
  function SessionEnded(conns: Conns, ns: string): Conns {
    map k | k in conns && conns[k].ns != ns && conns[k].dialler != ns :: conns[k]
  }

  /** After a full pass by one namespace's watcher, the end of its session takes only
      its own namespace's tunnels if and only if every pod the pass had to dial was its
      own namespace's - given that it had dialled none of the others that were kept. */
  lemma SessionEndSpares(conns: Conns, latest: Latest, wanted: set<string>, claims: set<string>, next: nat,
                         rebuilt: seq<string>, missing: seq<string>, dialler: string)
    requires Keyed(latest) && Decided(conns, latest, wanted, claims, rebuilt, missing)
    requires AllDialable(latest, rebuilt + missing)
    requires forall k :: k in Kept(conns, latest, wanted) && conns[k].ns != dialler ==> conns[k].dialler != dialler
    ensures var r := FullPass(conns, latest, wanted, claims, next, rebuilt + missing, dialler);
      SessionEnded(r.conns, dialler) == ConnsWithout(r.conns, dialler)
      <==> forall k :: k in Changed(conns, latest, wanted) + Missing(conns, latest, wanted, claims) ==>
                       latest[k].ns == dialler
  {
    var r := FullPass(conns, latest, wanted, claims, next, rebuilt + missing, dialler);
    FullPassShape(conns, latest, wanted, claims, next, rebuilt, missing, dialler);
    QueuedNotKept(conns, latest, wanted, claims, rebuilt, missing);
    var queued := Changed(conns, latest, wanted) + Missing(conns, latest, wanted, claims);
    assert forall k :: k in queued <==> k in rebuilt + missing;
    if SessionEnded(r.conns, dialler) == ConnsWithout(r.conns, dialler) {
      forall k | k in queued ensures latest[k].ns == dialler {
        assert r.conns[k] == Tunnel(latest[k], r.conns[k].serial, dialler);
        assert k !in SessionEnded(r.conns, dialler);
      }
    }
  }

  /** And a watcher does dial other namespaces' pods: whatever a pass dials, in any
      namespace, goes down with that watcher's session. */
  lemma DialledTunnelsDieWithTheirWatcher(conns: Conns, latest: Latest, wanted: set<string>, next: nat,
                                          rebuilt: seq<string>, missing: seq<string>, dialler: string)
    requires Keyed(latest) && Decided(conns, latest, wanted, {}, rebuilt, missing)
    requires AllDialable(latest, rebuilt + missing) && SameWorkload(conns, latest)
    ensures var r := FullPass(conns, latest, wanted, {}, next, rebuilt + missing, dialler);
      SessionEnded(r.conns, dialler).Keys !! ((set k | k in missing) + (set k | k in rebuilt))
  {
    FullPassShape(conns, latest, wanted, {}, next, rebuilt, missing, dialler);
    assert forall k :: k in Changed(conns, latest, wanted) ==> k !in Kept(conns, latest, wanted);
  }

  // --- the double dial --------------------------------------------------------------------------

  // Whether the pass starts a dial for a pod that has a tunnel by then.
  predicate Redials(ps: PoolState, queue: seq<Todo>, dials: seq<bool>, dialler: string)
    requires |dials| <= |queue|
    decreases |dials|
  {
    dials != [] && (queue[0].podKey in ps.conns
                    || Redials(EstablishStep(ps, queue[0].ai, dials[0], dialler), queue[1..], dials[1..], dialler))
  }

  lemma {:induction false} RedialsWhen(ps: PoolState, queue: seq<Todo>, dialler: string)
    requires QueueKeyed(queue) && forall i :: 0 <= i < |queue| ==> Dialable(queue[i].ai)
    ensures Redials(ps, queue, Trues(|queue|), dialler)
            <==> exists j :: 0 <= j < |queue| && (queue[j].podKey in ps.conns
                                                  || exists i :: 0 <= i < j && queue[i].podKey == queue[j].podKey)
    decreases |queue|
  {
    if queue != [] {
      var rest := queue[1..];
      var ps1 := EstablishStep(ps, queue[0].ai, true, dialler);
      RedialsWhen(ps1, rest, dialler);
      assert Trues(|queue|)[1..] == Trues(|rest|);
      if queue[0].podKey !in ps.conns {
        assert ps1.conns.Keys == ps.conns.Keys + {queue[0].podKey};
        if j :| 0 <= j < |rest| && (rest[j].podKey in ps1.conns
                                    || exists i :: 0 <= i < j && rest[i].podKey == rest[j].podKey) {
          assert queue[j + 1] == rest[j];
          if rest[j].podKey !in ps1.conns {
            var i :| 0 <= i < j && rest[i].podKey == rest[j].podKey;
            assert queue[i + 1] == rest[i];
          }
        }
        if j :| 0 <= j < |queue| && (queue[j].podKey in ps.conns
                                     || exists i :: 0 <= i < j && queue[i].podKey == queue[j].podKey) {
          assert j > 0 && rest[j - 1] == queue[j];
          if queue[j].podKey !in ps1.conns {
            var i :| 0 <= i < j && queue[i].podKey == queue[j].podKey;
            assert i > 0 && rest[i - 1] == queue[i];
          }
        }
      } else {
        assert queue[0].podKey in ps.conns;
      }
    }
  }

  lemma QueuedNotKept(conns: Conns, latest: Latest, wanted: set<string>, claims: set<string>,
                      rebuilt: seq<string>, missing: seq<string>)
    requires Decided(conns, latest, wanted, claims, rebuilt, missing)
    ensures forall k :: k in rebuilt + missing ==> k !in Kept(conns, latest, wanted)
  {
  }

  /** An uninterrupted pass whose dials succeed dials a pod that already has a tunnel
      if and only if some tunnel's pod changed its address, still belongs to a wanted
      workload, and was not claimed: that key is queued twice. */
  lemma DoubleDial(conns: Conns, latest: Latest, wanted: set<string>, claims: set<string>, next: nat,
                   rebuilt: seq<string>, missing: seq<string>, dialler: string)
    requires Keyed(latest) && Decided(conns, latest, wanted, claims, rebuilt, missing)
    requires AllDialable(latest, rebuilt + missing)
    ensures var ks := rebuilt + missing;
      Redials(Started(conns, latest, wanted, claims, next, ks), Todos(ks, latest), Trues(|ks|), dialler)
      <==> exists k :: k in Changed(conns, latest, wanted) && AgentKeyOf(latest[k]) in wanted && k !in claims
  {
    var ks := rebuilt + missing;
    QueuedNotKept(conns, latest, wanted, claims, rebuilt, missing);
    RedialsTwice(Started(conns, latest, wanted, claims, next, ks), latest, rebuilt, missing, dialler);
    if k :| k in Changed(conns, latest, wanted) && AgentKeyOf(latest[k]) in wanted && k !in claims {
      assert k in rebuilt && k in missing;
    }
  }

  lemma RedialsTwice(ps: PoolState, latest: Latest, rebuilt: seq<string>, missing: seq<string>, dialler: string)
    requires Keyed(latest) && NoDups(rebuilt) && NoDups(missing) && AllDialable(latest, rebuilt + missing)
    requires forall k :: k in rebuilt + missing ==> k in latest && k !in ps.conns
    ensures var ks := rebuilt + missing;
      Redials(ps, Todos(ks, latest), Trues(|ks|), dialler) <==> exists k :: k in rebuilt && k in missing
  {
    var ks := rebuilt + missing;
    var queue := Todos(ks, latest);
    forall i | 0 <= i < |queue| ensures queue[i].podKey == ks[i] {
      assert ks[i] in ks;
    }
    RedialsWhen(ps, queue, dialler);
    RepeatedWhen(rebuilt, missing);
  }

  /** A key occurs twice in two joined enumerations if and only if it is in both. */
  lemma RepeatedWhen(a: seq<string>, b: seq<string>)
    requires NoDups(a) && NoDups(b)
    ensures (exists j :: 0 <= j < |a + b| && exists i :: 0 <= i < j && (a + b)[i] == (a + b)[j])
            <==> exists k :: k in a && k in b
  {
    var ab := a + b;
    if j, i :| 0 <= j < |ab| && 0 <= i < j && ab[i] == ab[j] {
      ConcatAt(a, b, i);
      ConcatAt(a, b, j);
      assert ab[i] in a && ab[i] in b;
    }
    if k :| k in a && k in b {
      var i :| 0 <= i < |a| && a[i] == k;
      var j :| 0 <= j < |b| && b[j] == k;
      assert ab[i] == k && ab[|a| + j] == k;
    }
  }

  lemma ConcatAt(a: seq<string>, b: seq<string>, i: nat)
    requires i < |a + b|
    ensures (a + b)[i] == if i < |a| then a[i] else b[i - |a|]
  {}
}
