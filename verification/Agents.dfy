/** Agent pods, the tunnels to them, and what one locked look at the pool decides. */
module Agents {
  import Text

  // One agent pod as a namespace's stream reports it. ip is its raw bytes.
  datatype AgentPod = AgentPod(podName: string, ns: string, workload: string, ip: seq<nat>, apiPort: int)

  // netip.AddrFromSlice: four or sixteen bytes, or no address.
  datatype Addr = NoAddr | Addr(bytes: seq<nat>)

  function AddrFromSlice(ip: seq<nat>): Addr { if |ip| == 4 || |ip| == 16 then Addr(ip) else NoAddr }

  // What makes a tunnel stale.
  datatype Identity = Identity(podName: string, ip: Addr, apiPort: int)

  /** One live tunnel. serial stands for the pointer: every tunnel ever opened has
      its own. dialler is the namespace whose watcher dialled it, and so whose
      context it lives under. */
  datatype AgentConn = AgentConn(serial: nat, agentKey: string, podKey: string, podName: string,
                                 ns: string, podIP: Addr, apiPort: int, dialler: string)

  function AgentKeyOf(ai: AgentPod): string { ai.workload + "." + ai.ns }

  function PodKeyOf(ai: AgentPod): string { ai.podName + "." + ai.ns }

  function AgentIdentity(ai: AgentPod): Identity { Identity(ai.podName, AddrFromSlice(ai.ip), ai.apiPort) }

  function ConnIdentity(ac: AgentConn): Identity { Identity(ac.podName, ac.podIP, ac.apiPort) }

  // What establish refuses before it dials.
  predicate Dialable(ai: AgentPod) { AddrFromSlice(ai.ip) != NoAddr && ai.apiPort != 0 }

  function Tunnel(ai: AgentPod, serial: nat, dialler: string): AgentConn {
    AgentConn(serial, AgentKeyOf(ai), PodKeyOf(ai), ai.podName, ai.ns, AddrFromSlice(ai.ip), ai.apiPort, dialler)
  }

  type Conns = map<string, AgentConn>
  type Latest = map<string, AgentPod>

  /** A pod key says which pod and namespace it is of, because a namespace has no dot. */
  lemma PodKeyInjective(a: AgentPod, b: AgentPod)
    requires '.' !in a.ns && '.' !in b.ns && PodKeyOf(a) == PodKeyOf(b)
    ensures a.podName == b.podName && a.ns == b.ns
  {
    Text.LastDot(a.podName, a.ns, b.podName, b.ns);
  }

  // --- the last snapshots -----------------------------------------------------------

  function SnapshotMap(agents: seq<AgentPod>): Latest {
    if agents == [] then map[]
    else
      var last := agents[|agents| - 1];
      SnapshotMap(agents[..|agents| - 1])[PodKeyOf(last) := last]
  }

  function Without(latest: Latest, ns: string): Latest {
    map k | k in latest && latest[k].ns != ns :: latest[k]
  }

  function Only(latest: Latest, ns: string): Latest {
    map k | k in latest && latest[k].ns == ns :: latest[k]
  }

  function Replaced(latest: Latest, ns: string, agents: seq<AgentPod>): Latest {
    Without(latest, ns) + SnapshotMap(agents)
  }

  function ConnsWithout(conns: Conns, ns: string): Conns {
    map k | k in conns && conns[k].ns != ns :: conns[k]
  }

  // Entries stand under their own key, in namespaces without a dot.
  predicate Keyed(latest: Latest) {
    forall k :: k in latest ==> PodKeyOf(latest[k]) == k && '.' !in latest[k].ns
  }

  predicate ConnsKeyed(conns: Conns) { forall k :: k in conns ==> conns[k].podKey == k }

  // A stream reports its own namespace and no other.
  predicate OwnNamespace(ns: string, agents: seq<AgentPod>) {
    '.' !in ns && forall i :: 0 <= i < |agents| ==> agents[i].ns == ns
  }

  lemma {:induction false} SnapshotKeyed(ns: string, agents: seq<AgentPod>)
    requires OwnNamespace(ns, agents)
    ensures Keyed(SnapshotMap(agents)) && Only(SnapshotMap(agents), ns) == SnapshotMap(agents)
  {
    if agents != [] {
      SnapshotKeyed(ns, agents[..|agents| - 1]);
    }
  }

  lemma ReplacedKeyed(latest: Latest, ns: string, agents: seq<AgentPod>)
    requires Keyed(latest) && OwnNamespace(ns, agents)
    ensures Keyed(Replaced(latest, ns, agents))
  {
    SnapshotKeyed(ns, agents);
  }

  /** Replacing one namespace's snapshot leaves what it said, and what every other
      namespace said before. */
  lemma ReplacedOnly(latest: Latest, ns: string, agents: seq<AgentPod>, other: string)
    requires Keyed(latest) && OwnNamespace(ns, agents)
    ensures Only(Replaced(latest, ns, agents), other)
            == if other == ns then SnapshotMap(agents) else Only(latest, other)
  {
    SnapshotKeyed(ns, agents);
    SaidApart(latest, ns, agents);
    var said := SnapshotMap(agents);
    assert forall k :: k in said ==> k in Only(said, ns) && said[k].ns == ns;
  }

  // No other namespace has a key of the snapshot's.
  lemma SaidApart(latest: Latest, ns: string, agents: seq<AgentPod>)
    requires Keyed(latest) && OwnNamespace(ns, agents)
    ensures forall k :: k in latest && latest[k].ns != ns ==> k !in SnapshotMap(agents)
  {
    SnapshotKeyed(ns, agents);
    var said := SnapshotMap(agents);
    assert forall k :: k in said ==> k in Only(said, ns) && said[k].ns == ns;
    forall k | k in latest && latest[k].ns != ns ensures k !in said {
      if k in said {
        PodKeyInjective(latest[k], said[k]);
      }
    }
  }

  datatype PoolEvent = Snapshot(ns: string, agents: seq<AgentPod>) | SessionClosed(ns: string)

  predicate ProperEvents(events: seq<PoolEvent>) {
    forall i :: 0 <= i < |events| ==> events[i].Snapshot? ==> OwnNamespace(events[i].ns, events[i].agents)
  }

  function LatestAfter(events: seq<PoolEvent>): Latest {
    if events == [] then map[]
    else
      var before := LatestAfter(events[..|events| - 1]);
      match events[|events| - 1]
      case Snapshot(ns, agents) => Replaced(before, ns, agents)
      case SessionClosed(ns) => Without(before, ns)
  }

  // What a namespace's own last event left.
  function LastSaid(events: seq<PoolEvent>, ns: string): Latest {
    if events == [] then map[]
    else
      var e := events[|events| - 1];
      if e.ns != ns then LastSaid(events[..|events| - 1], ns)
      else if e.Snapshot? then SnapshotMap(e.agents) else map[]
  }

  /** Over any interleaving of namespaces' snapshots and session ends, the pool's
      picture of a namespace is what that namespace's own last event left. */
  lemma {:induction false} LatestIsLastSaid(events: seq<PoolEvent>, ns: string)
    requires ProperEvents(events)
    ensures Keyed(LatestAfter(events)) && Only(LatestAfter(events), ns) == LastSaid(events, ns)
  {
    if events != [] {
      var rest := events[..|events| - 1];
      LatestIsLastSaid(rest, ns);
      match events[|events| - 1]
      case Snapshot(n, agents) =>
        ReplacedKeyed(LatestAfter(rest), n, agents);
        ReplacedOnly(LatestAfter(rest), n, agents, ns);
      case SessionClosed(n) =>
        if n != ns {
          assert Only(Without(LatestAfter(rest), n), ns) == Only(LatestAfter(rest), ns);
        }
    }
  }

  // --- one locked decision -------------------------------------------------------------

  predicate Keep(conns: Conns, latest: Latest, wanted: set<string>, k: string)
    requires k in conns
  {
    conns[k].agentKey in wanted && k in latest && AgentIdentity(latest[k]) == ConnIdentity(conns[k])
  }

  function Kept(conns: Conns, latest: Latest, wanted: set<string>): Conns {
    map k | k in conns && Keep(conns, latest, wanted, k) :: conns[k]
  }

  // Same pod name, different address or port: dropped, and queued for a rebuild.
  function Changed(conns: Conns, latest: Latest, wanted: set<string>): set<string> {
    set k | k in conns && conns[k].agentKey in wanted && k in latest
            && AgentIdentity(latest[k]) != ConnIdentity(conns[k])
  }

  // Reported, wanted, without a tunnel after the drops, and not claimed.
  function Missing(conns: Conns, latest: Latest, wanted: set<string>, claims: set<string>): set<string> {
    set k | k in latest && AgentKeyOf(latest[k]) in wanted && k !in Kept(conns, latest, wanted) && k !in claims
  }

  datatype Todo = Todo(podKey: string, ai: AgentPod)

  predicate NoDups(ks: seq<string>) { forall i, j :: 0 <= i < j < |ks| ==> ks[i] != ks[j] }

  // An enumeration of s in some order: a map is walked in no particular one.
  ghost predicate Enumerates(ks: seq<string>, s: set<string>) { NoDups(ks) && forall k :: k in ks <==> k in s }

  function Todos(ks: seq<string>, latest: Latest): seq<Todo>
    requires forall k :: k in ks ==> k in latest
  {
    seq(|ks|, i requires 0 <= i < |ks| => Todo(ks[i], latest[ks[i]]))
  }

  function KeysOf(queue: seq<Todo>): set<string> { set t | t in queue :: t.podKey }
}
